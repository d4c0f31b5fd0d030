# Emissary-ingress: a verified model of its control plane

Emissary-ingress watches Kubernetes and Consul and turns what it sees into Envoy configuration.
This project models the parts of that pipeline where state is kept in step by hand, and proves
what they promise over every input, every run or every reachable state.

| file | component |
|---|---|
| `KatesState`, `KatesRuns`, `KatesAccumulator`, `KatesListen` | the kates accumulator, the client's cache of local writes, and the bootstrap barrier |
| `WatchLoop`, `SnapshotHolder`, `Consul` | the watch loop, its snapshot holder and the Consul reconciler |
| `Gateway`, `Ranging`, `GatewaySnapshot`, `Dispatcher`, `GatewayEndpoints`, `GatewayFeed` | the Gateway API compilers, the dispatcher, where gateway traffic ends up, and how the accumulator's deltas drive the dispatcher |
| `RdsListener`, `EdsJoin`, `RateLimit`, `Names` | ambex: listeners to RDS, the endpoint join, the reconfiguration limiter |
| `Indenter` | the streaming indenter of the release tools |
| `SchemaPrune`, `SchemaDict` | the CRD schema filter |
| `Health` | liveness of diagd, Envoy and the whole |
| `Wrappers` | optional values, maps and enumerations |

Code that updates fields or runs loops is modelled by classes and methods; each is proved equal to
a function on values, and the main theorems are about runs of those functions. Go ranges over maps
in any order, so a method that does so takes an arbitrary key each time, and its contract holds for
every order. A protocol between goroutines is a state machine whose steps are the mutex-held
sections, the channel meetings and the local assignments between them.

## What is not true

Some properties one would expect do not hold of the code. Each has a lemma with a run or an input
that breaks it, beside the exact condition under which it does hold.

- A local write is not always read back. The second update after it forgets the write even though the
  watch has not echoed it, because `patchWatch` compares against the version it patched in itself; a
  late older watch event is then delivered (`StaleAfterForgetting`). `FreshRunExactly` says over whole
  runs which steps lose a write, and `ReadYourWritesAlways` that without one every update shows it.
- An update that fails while encoding its items has already taken the deltas, and no number of further
  updates by themselves hands the field over (`UpdatesAloneNeverMakeUp`, and `NeverHandedOver` for a run
  from the start). The next change of the field makes up for it, because the whole field is rebuilt:
  `EncodingErrorExactly` says over whole runs when the caller is where it would be without the error,
  and `DeliveredIsRebuild` when an update leaves it with the plain rebuild.
- A delete is not always seen. `Delete` files its entry under the UID it was given, so an object deleted
  by kind and name alone is delivered again (`DeleteWithoutUid`). `DeleteHidesExactly` gives the exact
  condition.
- The deltas do not tell the dispatcher of a gateway resource that the filter of an update turns against:
  it leaves the snapshot with an Update delta and stays in force (`InvalidStaysInForce`).
  `TellsAllExactly` gives the exact condition; the filter in use meets it, because it only knows the
  schemas of getambassador.io (`SparedNotHidden`).
- The bootstrap barrier can open with one listed object per query still on its way, because
  `AddFunc` counts before it sends (`OneMayBeMissing`). `BootstrapBarrier` says when nothing is missing.
- A ready snapshot can lack the Consul endpoints whose arrival made it ready, and no later snapshot is
  made for them; they only reach the fast path (`ReadyMayMissEndpoints`). `ReadyCarriesEndpoints` gives
  the exact condition.
- RDS names resolve exactly when explicit route names are distinct from each other and from the
  generated ones, across all listeners (`ResolvesExactly`, `ClashLosesRoutes`).
- The dispatcher's cluster names leave out the namespace, so two HTTPRoutes that forward to services
  of the same name in different namespaces share one cluster (`TwoRoutesClash`, `NamespacesClash`).
  `HonouredExactly`, `PathsAgreeInForce` and `OrderIrrelevantExactly` give the exact conditions.
- The dispatcher looks for Endpoints named like its clusters, so it does not watch a service that is
  only forwarded to with a port (`PortedServiceNotWatched`). `WatchedInForce` gives the exact condition.

Where the code and its comments differ the model follows the code: a write that changed nothing is not
remembered; `ReconcileConsul` passes on the unfiltered resolver list; `Notify` reports every snapshot as
incomplete, also those it has just reported as ready.

## Model

| member | source | states |
|---|---|---|
| `KatesState.ParseInt64` | pkg/kates/client.go:1172-1182 | a resource version is read as a signed 64-bit number or not at all |
| `KatesRuns.StoreKeepsInv` | pkg/kates/accumulator.go:255-291 | storing a watch event keeps the index invariant: a pending delta says Delete exactly when its object is gone, and where no delta is pending the caller is up to date |
| `KatesRuns.PatchKeepsInv` | pkg/kates/client.go:1022-1066 | patching local writes into a field, completely or up to an unreadable version, keeps the index invariant |
| `KatesRuns.DrainKeepsInv` | pkg/kates/accumulator.go:293-372 | taking the deltas of a field keeps the invariant for every field, whether or not the items then encode, although `excluded` is shared by all of them |
| `KatesRuns.DrainDelivers` | pkg/kates/accumulator.go:305-372 | what is delivered is the plain rebuild, early return or not, unless an earlier hand-over was lost and nothing is new |
| `KatesRuns.StepKeepsInv` | pkg/kates/accumulator.go:255-372 | every step of watch events, local writes, watch deletes and updates, successful, failing in the patch or failing while encoding, keeps the invariant |
| `KatesRuns.RunKeepsInv` | pkg/kates/accumulator.go:37-51 | so does every run |
| `KatesRuns.DeltasTell` | pkg/kates/accumulator.go:301-328 | an update has a delta for every key on which the caller was out of date, the first update included; it bears the object's name and says Delete exactly when the object is gone |
| `KatesRuns.DeliveredIsRebuild` | pkg/kates/accumulator.go:293-372 | after any run, encoding errors included, an update leaves the caller with all stored objects that pass the predicate, so returning early on an empty delta map is sound; unless an encoding error was not made up for and nothing is new, when the caller's snapshot stays as it was |
| `KatesRuns.LostExactly` | pkg/kates/accumulator.go:305-371 | a field's hand-over is lost after a run if and only if an update of it failed while encoding and no later one handed it over |
| `KatesRuns.AgreeStep` | pkg/kates/accumulator.go:255-372 | two systems that differ only in what the caller holds of one field do the same at every step; handing the field over removes the difference, and nothing else touches it |
| `KatesRuns.EncodingErrorExactly` | pkg/kates/accumulator.go:338-371 | compared with a successful update, an encoding error changes nothing but the caller's copy of the field, over any run after it; the caller ends where it would have been if and only if some later update handed the field over, or the failed one had nothing to change; otherwise it still has what it had before |
| `KatesRuns.FreshExactly` | pkg/kates/client.go:1022-1066 | an update shows an object at version v or later if and only if the stored object or the remembered write is that new |
| `KatesRuns.OlderEventExactly` | pkg/kates/accumulator.go:255-273 | once an older watch event is stored, the next update still shows v if and only if the write is still remembered |
| `KatesRuns.FreshStepExactly` | pkg/kates/client.go:1022-1066 | of all steps, exactly these lose a version: an older watch event after the write was forgotten, a watch delete, a local delete, an older local write; no update does, successful or not |
| `KatesRuns.FreshRunExactly` | pkg/kates/accumulator.go:37-51 | over any run, an update at every point shows version v or later if and only if no step lost it |
| `KatesRuns.HarmlessNeverLost` | pkg/kates/accumulator.go:37-51 | a run without older watch events, deletes and older local writes of the object loses nothing |
| `KatesRuns.ReadYourWritesAlways` | pkg/kates/client.go:777-951 | after a local write every update, not only the first, delivers that object at its version or a newer one, as long as no step loses it |
| `KatesRuns.ReadYourWrites` | pkg/kates/client.go:777-951 | up to the first update after a local write even older watch events do no harm: it delivers the object at its version or a newer one, unless a watch delete was seen |
| `KatesRuns.DeletesStayDeleted` | pkg/kates/client.go:990-1066 | after a local delete no update delivers the object, over any run, until a watch delete or another write of it |
| `KatesRuns.DeleteHidesExactly` | pkg/kates/client.go:1004-1009 | the next update hides an object if and only if the UID given to Delete is its own, or it had been deleted before |
| `KatesRuns.DeleteWithoutUid` | pkg/kates/client.go:1004-1009 | a run in which an object deleted without its UID is delivered by the next update |
| `KatesRuns.PatchTwiceForgets` | pkg/kates/client.go:1043-1056 | patching a field twice always forgets the write it patched in |
| `KatesRuns.SecondUpdateForgets` | pkg/kates/client.go:1043-1056 | the second update in a row drops the remembered write |
| `KatesRuns.ForgottenRun` | pkg/kates/client.go:1043-1056 | a write and two updates: delivered, and no longer remembered |
| `KatesRuns.ReplayDelivered` | pkg/kates/accumulator.go:255-291 | without a remembered write, any differently versioned watch event is delivered as it is |
| `KatesRuns.StaleAfterForgetting` | pkg/kates/client.go:1043-1056 | a run in which an update delivers an older version after a newer one had been delivered |
| `KatesRuns.UpdatesAloneNeverMakeUp` | pkg/kates/accumulator.go:305-340 | after an encoding error, any number of updates of the field without another change leave the caller as it was |
| `KatesRuns.NeverHandedOver` | pkg/kates/accumulator.go:305-340 | for every object a run from the start: stored, an encoding error, any number of updates, and the caller has nothing |
| `KatesAccumulator.Client.Record` | pkg/kates/client.go:777-804 | remembering a server answer (Create, Get, List) is the LocalWrite step of every system the client serves: it keeps the index invariant, and every field that takes the object will show it |
| `KatesAccumulator.Client.RecordIfChanged` | pkg/kates/client.go:808-839 | Update, Patch, Upsert and UpdateStatus are that step, or none at all when the answer has the version they started from |
| `KatesAccumulator.Client.RecordDelete` | pkg/kates/client.go:990-1016 | Delete is the LocalWrite of an absence under the UID it was given: no field will show the object of that UID |
| `KatesAccumulator.Client.NoteWatchDelete` | pkg/kates/client.go:440-462 | a watch delete is the WatchDeleteSeen step: from then on a version is shown if and only if the watch has stored it |
| `KatesAccumulator.Client.PatchKey` | pkg/kates/client.go:1033-1064 | one turn of the loop: newer stored objects win, older ones are replaced, missing ones added if they match, local deletes applied; an unreadable version changes nothing |
| `KatesAccumulator.Client.PatchWatch` | pkg/kates/client.go:1022-1066 | in any order of keys the loop gives the same field and the same memory; it fails only on an unreadable version |
| `KatesAccumulator.Accumulator.constructor` | pkg/kates/accumulator.go:161-188 | one empty field per query, nothing synced, also for a client that has written before |
| `KatesAccumulator.Accumulator.StoreUpdate` | pkg/kates/accumulator.go:255-291 | the `synced` counter is the number of synced fields, so the answer is whether all are |
| `KatesAccumulator.Accumulator.StoreValue` | pkg/kates/accumulator.go:259-283 | a watch event adds, updates or removes the object and notes which, seen from the stored state |
| `KatesAccumulator.Accumulator.Refile` | pkg/kates/accumulator.go:316-327 | re-filters one changed key |
| `KatesAccumulator.Accumulator.DrainDeltas` | pkg/kates/accumulator.go:310-328 | hands out each pending delta once, and re-filters exactly those keys |
| `KatesAccumulator.Accumulator.ListItems` | pkg/kates/accumulator.go:330-336 | lists each object that is not excluded once |
| `KatesAccumulator.Accumulator.Fill` | pkg/kates/accumulator.go:309-371 | the deltas handed out are the pending ones, and the caller's field becomes what passes the filter, unless the items do not encode |
| `KatesAccumulator.Accumulator.UpdateField` | pkg/kates/accumulator.go:293-372 | is exactly one step of the run model, also when the patch or the encoding fails, and reports an update exactly when there was something to deliver and it was delivered |
| `KatesAccumulator.UpdateRebuilds` | pkg/kates/accumulator.go:293-372 | a successful update of one field rebuilds it, unless one was lost and nothing is new, and leaves the others |
| `KatesAccumulator.Accumulator.VisitField` | pkg/kates/accumulator.go:379-389 | one turn of the loop goes on with the run, and keeps account of what the deltas cover |
| `KatesAccumulator.Accumulator.Update` | pkg/kates/accumulator.go:374-391 | visits every field until one fails; without failure every field is the plain rebuild, or as before where a hand-over was lost and nothing is new, and the deltas cover every key that changed for the caller, by name |
| `KatesListen.ListenLoop.Receive` | pkg/kates/accumulator.go:216-223 | stores the event, and notifies exactly when everything is synced and the interval has passed |
| `KatesListen.ListenLoop.Tick` | pkg/kates/accumulator.go:224-227 | a tick notifies exactly when everything is synced and something waits |
| `KatesListen.StepKeepsInv` | pkg/kates/client.go:506-599 | counting adds, listing, watching, storing and notifying keep the barrier invariant, with counting and sending as two steps |
| `KatesListen.BootstrapBarrier` | pkg/kates/client.go:380-428 | in every run, once anyone was notified every query has listed, and all of its first list is stored or deleted since, except at most one object per query still being sent; nothing is missing if and only if that object is not |
| `KatesListen.OneMayBeMissing` | pkg/kates/client.go:420-428 | the exception is real: four steps that notify with the only listed object missing |
| `KatesListen.NothingGoesUnannounced` | pkg/kates/accumulator.go:195-232 | in every run, an update stored since the last notification leaves the loop waiting to tell, and the next tick after sync tells |
| `WatchLoop.StepKeepsInv` | cmd/entrypoint/watcher.go:251-302 | every step of the three goroutines keeps the invariants below |
| `WatchLoop.NoLostWakeUp` | cmd/entrypoint/watcher.go:251-302 | in every reachable state with both loops at their selects, a change that may be sent finds `out` armed, a holder received but not processed, or the Consul watcher dirty |
| `WatchLoop.DeltasConserved` | cmd/entrypoint/watcher.go:474-496 | in every run the deltas of the ready snapshots, of the one being sent and of `unsentDeltas` are together exactly those received, in order |
| `WatchLoop.ReadyAfterBootstrap` | cmd/entrypoint/consul.go:136-157 | nothing is called ready before every service of the first reconcile has endpoints, and no change is called ready twice |
| `WatchLoop.WorkEnds` | cmd/entrypoint/watcher.go:251-302 | left alone, the goroutines take at most 27 steps |
| `WatchLoop.RestIsReached` | cmd/entrypoint/watcher.go:251-302 | from any state they can go on until nothing is left to do |
| `WatchLoop.EveryChangeIsSent` | cmd/entrypoint/watcher.go:587-635 | however they are scheduled, once they rest and the boot condition holds, every change made has been answered by a ready snapshot and every delta not about endpoints is in one |
| `WatchLoop.SettledSnapshotIsComplete` | cmd/entrypoint/watcher.go:544-559 | a ready snapshot made while nothing is on its way from Consul has all endpoints |
| `WatchLoop.HeldEndpoints` | cmd/entrypoint/consul.go:117-134 | the holder knows a service's endpoints exactly when the loop copied them after their first arrival |
| `WatchLoop.ReadyCarriesEndpoints` | cmd/entrypoint/watcher.go:606-634 | a ready snapshot has the endpoints of every service it waited for if and only if the loop copied after each of them arrived |
| `WatchLoop.ReadyMayMissEndpoints` | cmd/entrypoint/watcher.go:606-634 | a run that comes to rest with its only ready snapshot lacking the endpoints it waited for |
| `SnapshotHolder.ConsulRunner.Receive` | cmd/entrypoint/consul.go:92-121 | new endpoints are the arrival and marking steps of the watch loop: its invariant is kept, the boot condition is never undone, and it comes about exactly when the service was the last one missing |
| `SnapshotHolder.ConsulRunner.Tell` | cmd/entrypoint/consul.go:92-115 | telling the loop is the coalescing step |
| `SnapshotHolder.Holder.constructor` | cmd/entrypoint/watcher.go:346-373 | starts the watch loop's initial state, with Gateway and HTTPRoute registered |
| `SnapshotHolder.Holder.TakeDelta` | cmd/entrypoint/watcher.go:475-493 | one turn of the delta loop: keeps the delta, updates the flags, deletes a registered resource |
| `SnapshotHolder.Holder.TakeDeltas` | cmd/entrypoint/watcher.go:474-493 | the flags say whether any delta is about a watched Endpoints, any of a registered kind, and all about Endpoints |
| `SnapshotHolder.Holder.UpsertAll` | cmd/entrypoint/watcher.go:500-518 | upserts every resource, going on when one is refused |
| `SnapshotHolder.Holder.Absorb` | cmd/entrypoint/watcher.go:466-528 | the part after the Consul reconcile is the watch loop's step, and reaches the fast path exactly when endpoint watches, watched endpoints or gateway resources changed |
| `SnapshotHolder.Holder.Dispatch` | cmd/entrypoint/watcher.go:498-526 | the dispatcher always has a consistent snapshot to give, so its error return is never taken |
| `SnapshotHolder.Holder.K8sUpdate` | cmd/entrypoint/watcher.go:376-542 | leaves Consul settled, fixes what bootstrapping waits for on the first time, takes the watch loop's step, and fails only where FilteredUpdate, the Secrets or a demanded Consul watch do, in that order and then without a step |
| `SnapshotHolder.Holder.ConsulUpdate` | cmd/entrypoint/watcher.go:544-559 | copies the Consul endpoints and hands over a consistent gateway snapshot |
| `SnapshotHolder.Holder.IstioUpdate` | cmd/entrypoint/watcher.go:561-585 | counts one change worth sending, unless the Secrets fail |
| `SnapshotHolder.Holder.Notify` | cmd/entrypoint/watcher.go:587-658 | is the watch loop's notify step: sends nothing when nothing changed, ready and incomplete once bootstrapped, incomplete before |
| `SnapshotHolder.DispatcherFollows` | cmd/entrypoint/watcher.go:474-526 | after an update the dispatcher holds the new form of each resource that compiles, otherwise what it held unless a delta deleted it |
| `SnapshotHolder.DispatcherInStep` | cmd/entrypoint/watcher.go:474-526 | an update whose deltas tell every change leaves the dispatcher with exactly the cluster's resources, whether or not it took the fast path |
| `SnapshotHolder.DispatcherStaysInStep` | cmd/entrypoint/watcher.go:474-526 | so does every run of such updates |
| `Consul.HeldOnce` | cmd/entrypoint/consul.go:260-300 | no watch is held in two places, and none that is held has been stopped |
| `Consul.ConsulWatcher.Stop` | cmd/entrypoint/consul.go:269-273 | a watch is only ever stopped once, which every caller has to show |
| `Consul.ConsulWatcher.DropResolver` | cmd/entrypoint/consul.go:269-273 | stops everything the resolver runs and takes it off the map |
| `Consul.ConsulWatcher.StopUnwanted` | cmd/entrypoint/consul.go:292-298 | stops exactly the watches no mapping wants |
| `Consul.ConsulWatcher.ReconcileResolver` | cmd/entrypoint/consul.go:275-300 | makes the resolver watch exactly the wanted services, keeps the watches it had, does nothing when nothing is to do, and fails only where a wanted watch does |
| `Consul.ConsulWatcher.RecreateChanged` | cmd/entrypoint/consul.go:211-224 | recreates resolvers that are new or whose spec changed and leaves the others alone |
| `Consul.ConsulWatcher.DropUnneeded` | cmd/entrypoint/consul.go:226-233 | drops exactly the resolvers nothing asks for |
| `Consul.Plan` | cmd/entrypoint/consul.go:173-207 | the resolvers and services that the mappings ask for, the last resolver of a name winning |
| `Consul.PlannedSettled` | cmd/entrypoint/consul.go:173-207 | following the plan is the same as running exactly the demanded watches |
| `Consul.ConsulWatcher.ReconcileAll` | cmd/entrypoint/consul.go:235-241 | reconciles each resolver until a watch fails to start |
| `Consul.ConsulWatcher.Carry` | cmd/entrypoint/consul.go:211-241 | the ledger follows the plan, until a watch fails |
| `Consul.ConsulWatcher.Reconcile` | cmd/entrypoint/consul.go:172-258 | on success the live watches are exactly the demanded pairs; on every outcome each started watch is live in one place or stopped once; watches still wanted keep running; the first success fixes the bootstrap keys |
| `Consul.ConsulWatcher.ReconcileTwice` | cmd/entrypoint/consul.go:172-258 | repeating a successful reconcile starts and stops nothing |
| `Consul.ConsulWatcher.Cleanup` | cmd/entrypoint/consul.go:160-168 | leaves no watch running |
| `Consul.ConsulWatcher.IsBootstrapped` | cmd/entrypoint/consul.go:136-157 | true from the moment every key of the first reconcile has endpoints, and for good |
| `Consul.AllServices` | cmd/entrypoint/consul.go:245-256 | the bootstrap keys are the services of the plan |
| `Gateway.CompileListener` | pkg/gateway/gw_transforms.go:44-92 | a compiled listener asks for one route configuration, of its own name |
| `Gateway.CompileGateway` | pkg/gateway/gw_transforms.go:27-42 | one self-named listener per gateway listener, in order |
| `Gateway.ListenerNamesDistinct` | pkg/gateway/gw_transforms.go:31 | one gateway never names two listeners alike |
| `Gateway.CompileRule` | pkg/gateway/gw_transforms.go:119-143 | a route per match, all with the rule's weighted clusters, and a reference per forward even when a match fails |
| `Gateway.CompileHTTPRoute` | pkg/gateway/gw_transforms.go:94-117 | fails exactly when some match has an unknown path type |
| `Gateway.HTTPRouteWellCompiled` | pkg/gateway/gw_transforms.go:94-162 | every cluster a compiled route sends to has a reference |
| `Gateway.AllRefsAre` | pkg/gateway/gw_transforms.go:119-162 | an HTTPRoute refers to exactly what its rules forward to |
| `Ranging.Order` | pkg/gateway/dispatcher.go:251-300 | a range takes the keys of a map in some order, each once |
| `Ranging.Index` | pkg/gateway/dispatcher.go:251-276 | filling a map while ranging gives the map that this order determines |
| `Ranging.RangedAt` | pkg/gateway/dispatcher.go:251-276 | in that map the last configuration of the order that has a name decides it |
| `Ranging.OrderFor` | pkg/gateway/dispatcher.go:251-276 | any value that some configuration offers is the outcome of some order |
| `GatewaySnapshot.PickRoutes` | pkg/gateway/dispatcher.go:299-306 | the routes the listener's predicate accepts, in order |
| `GatewaySnapshot.BuildRouteConfiguration` | pkg/gateway/dispatcher.go:293-318 | holds the accepted routes of all configurations, in the order of its own range |
| `GatewaySnapshot.ServedMatching` | pkg/gateway/dispatcher.go:300-306 | in any order these are the same routes, each as often as it occurs |
| `GatewaySnapshot.GetRdsName` | pkg/gateway/dispatcher.go:322-339 | the first RDS name in any filter chain |
| `GatewaySnapshot.BuildClusters` | pkg/gateway/dispatcher.go:348-365 | an EDS cluster per reference, and an assignment, empty if need be, per name it is looked up under |
| `GatewaySnapshot.BuildListeners` | pkg/gateway/dispatcher.go:278-291 | one range fills the listeners and notes, by getRdsName, who asks for which routes |
| `GatewaySnapshot.BuildRoutes` | pkg/gateway/dispatcher.go:278-291 | a route configuration per RDS name |
| `GatewaySnapshot.Build` | pkg/gateway/dispatcher.go:341-374 | is what three ranges, each in an order of its own, make of the configurations |
| `GatewaySnapshot.OneBuild` | pkg/gateway/dispatcher.go:251-388 | unambiguous configurations admit one snapshot up to the order of routes |
| `GatewaySnapshot.TwoBuilds` | pkg/gateway/dispatcher.go:251-388 | ambiguous ones admit two that differ: ranging so that the one or the other offering configuration comes last |
| `GatewaySnapshot.OrderIrrelevantExactly` | pkg/gateway/dispatcher.go:251-388 | the orders of ranging do not matter if and only if no name is offered two visible values |
| `GatewaySnapshot.WellCompiledConsistent` | pkg/gateway/dispatcher.go:376-388 | for compiled gateways and routes the assignments are exactly the clusters' EDS references and the route configurations exactly the listeners' RDS references |
| `GatewaySnapshot.RoutesResolve` | pkg/gateway/gw_transforms.go:119-162 | no route of a snapshot sends to a cluster the snapshot lacks |
| `GatewaySnapshot.EveryRouteServed` | pkg/gateway/gw_transforms.go:86-89 | every gateway listener serves every route of every HTTPRoute, to every domain |
| `GatewaySnapshot.HonouredExactly` | pkg/gateway/dispatcher.go:251-266 | every reference leads to its own endpoint path, in every snapshot, if and only if references of one name agree |
| `GatewaySnapshot.WatchedExactly` | pkg/gateway/dispatcher.go:245-266 | an Endpoints object is watched if and only if a route of its namespace has a cluster of its name |
| `GatewayEndpoints.NamedExactly` | cmd/entrypoint/endpoint_routing.go:46-98 | a forward's endpoint path is an endpoint's cluster name if and only if namespace, service and port agree |
| `GatewayEndpoints.RefsInForce` | pkg/gateway/gw_transforms.go:94-162 | the references are exactly those of the forwards of the HTTPRoutes in force |
| `GatewayEndpoints.PathsAgreeInForce` | pkg/gateway/gw_transforms.go:145-162 | references agree if and only if the forwards in force that share a cluster name share an endpoint path |
| `GatewayEndpoints.ForwardReachesExactly` | pkg/gateway/gw_transforms.go:145-162 | with HTTPRoutes in force that agree, an endpoint is filed under the name a forward's cluster is looked up by if and only if it belongs to the service meant, in the route's namespace, under the forward's port |
| `GatewayEndpoints.NamespacesClash` | pkg/gateway/gw_transforms.go:145-162 | whenever HTTPRoutes in force make the same forward from two namespaces, in some snapshot the cluster of one of them leads to the endpoints of the other |
| `GatewayEndpoints.TwoRoutesClash` | pkg/gateway/dispatcher.go:251-266 | a Gateway and two HTTPRoutes, and a snapshot in which the Gateway serves the route of the one namespace with a cluster that leads to the endpoints of the other |
| `GatewayEndpoints.WatchedInForce` | pkg/gateway/dispatcher.go:245-266 | the Endpoints of a service are watched if and only if an HTTPRoute in force in its namespace forwards to it without a port |
| `GatewayEndpoints.PortedServiceNotWatched` | pkg/gateway/gw_transforms.go:145-152 | one upserted HTTPRoute with a ported forward: the Endpoints of its service are not watched |
| `GatewayFeed.FilteredUpdate` | pkg/kates/accumulator.go:249-253 | what the dispatcher relies on: after an update without error every change for the caller has a delta of its name, and every field is rebuilt |
| `GatewayFeed.VanishedHasDelta` | pkg/kates/accumulator.go:310-328 | a gateway resource that left the caller's snapshot has a delta of its name, which says Delete unless the filter merely hides it |
| `GatewayFeed.TellsAllExactly` | cmd/entrypoint/watcher.go:474-526 | the deltas of an update tell the dispatcher everything if and only if no gateway resource became hidden by the filter without being replaced |
| `GatewayFeed.SparedNotHidden` | cmd/entrypoint/resource_validator.go:16-34 | a filter that accepts every object of the registered kinds, as the resource validator does, hides none |
| `GatewayFeed.GatewaysStayInStep` | cmd/entrypoint/watcher.go:404-526 | over every run of updates that hide none, the dispatcher holds exactly the gateway resources of the caller's snapshot |
| `GatewayFeed.InvalidStaysInForce` | cmd/entrypoint/watcher.go:474-526 | otherwise not: a run in which the filter turns against a gateway resource, which leaves the snapshot and stays in force |
| `Dispatcher.KeyInjective` | pkg/gateway/dispatcher.go:74-81 | keys tell resources apart when kind and namespace hold no colon |
| `Dispatcher.RunMirrors` | pkg/gateway/dispatcher.go:112-145 | after any history the configurations are those of the resources in force, each under its own key |
| `Dispatcher.UpsertsInForce` | pkg/gateway/dispatcher.go:112-130 | a batch puts what compiles in force and leaves the rest |
| `Dispatcher.IncrementalIsBatch` | pkg/gateway/dispatcher.go:112-145 | any history, failed upserts included, leaves what a fresh dispatcher has after upserting just the resources in force, in any order |
| `Dispatcher.Dispatcher.Register` | pkg/gateway/dispatcher.go:94-103 | a kind can be registered once |
| `Dispatcher.Dispatcher.Upsert` | pkg/gateway/dispatcher.go:112-130 | an unknown kind or a failing transform changes nothing; otherwise the configuration is replaced and the cache dropped |
| `Dispatcher.Dispatcher.DeleteKey` | pkg/gateway/dispatcher.go:141-145 | removes the configuration and drops the cache |
| `Dispatcher.Dispatcher.GetSnapshot` | pkg/gateway/dispatcher.go:200-205 | never answers a stale snapshot; always has one when the configurations are well compiled |
| `Dispatcher.Dispatcher.BuildSnapshot` | pkg/gateway/dispatcher.go:341-388 | takes a new version; keeps the snapshot and its watches only if consistent |
| `Dispatcher.SameVersionSameSnapshot` | pkg/gateway/dispatcher.go:341-343 | over the life of a dispatcher, answers with the same version are the same snapshot |
| `Dispatcher.StayWellCompiled` | cmd/entrypoint/watcher.go:346-359 | with the transforms in use every history keeps all configurations well compiled |
| `Dispatcher.HistoriesAgree` | pkg/gateway/dispatcher.go:112-388 | any history of gateways and routes has a consistent snapshot and, when unambiguous, the one a fresh dispatcher builds from what is in force |
| `RdsListener.NameSite` | pkg/ambex/transforms.go:141-157 | a name is generated only for an unnamed route configuration, numbered by those with the same hash before it |
| `RdsListener.RewriteChain` | pkg/ambex/transforms.go:126-187 | rewrites the inline route configurations of one chain and collects them |
| `RdsListener.ListenerToRds` | pkg/ambex/transforms.go:118-191 | every inline route configuration is replaced by a reference and returned, nothing else changes |
| `RdsListener.GeneratedNameInjective` | pkg/ambex/transforms.go:147-156 | listener, hash and number can be read off a generated name |
| `RdsListener.GeneratedDistinct` | pkg/ambex/transforms.go:147-156 | generated names within a listener are distinct even when hashes collide |
| `RdsListener.GeneratedDistinctAcross` | pkg/ambex/transforms.go:147-156 | and across listeners of different names |
| `RdsListener.AllToRds` | pkg/ambex/main.go:423-442 | every listener is rewritten, and the routes of all are pooled in order |
| `RdsListener.ResolvesExactly` | pkg/ambex/main.go:423-442 | in the pool of all listeners every reference resolves to its own route configuration if and only if explicit names are apart from each other and from generated ones, and listeners of one name generate equal names only for equal routes |
| `RdsListener.DistinctNamesHaveNoTwins` | pkg/ambex/transforms.go:147-156 | the latter holds whenever listeners have different names |
| `RdsListener.MeaningPreserved` | pkg/ambex/transforms.go:118-191 | in the pool of all listeners each rewritten filter resolves to its original route configuration up to name, other filters are untouched |
| `RdsListener.ClashLosesRoutes` | pkg/ambex/transforms.go:141-159 | two filters with one explicit name and different routes: neither resolves |
| `EdsJoin.BuildPortMap` | cmd/entrypoint/endpoint_routing.go:47-65 | under which names each port of a service is reached |
| `EdsJoin.PortNames` | cmd/entrypoint/endpoint_routing.go:70-78 | the names of an endpoint port: by number, by name, or, for a single-port service, without a port |
| `EdsJoin.ToAmbex` | cmd/entrypoint/endpoint_routing.go:46-98 | exactly the TCP and UDP address and port pairs, each once under each name that reaches it |
| `EdsJoin.IndexServices` | cmd/entrypoint/endpoint_routing.go:16-27 | each Endpoints object finds the last service of its namespace and name |
| `EdsJoin.MakeEndpoints` | cmd/entrypoint/endpoint_routing.go:15-40 | every Kubernetes and Consul endpoint, each once, grouped by cluster name in order, and nothing else |
| `EdsJoin.ToMap` | pkg/ambex/endpoint.go:35-49 | a load assignment per group, named like it |
| `EdsJoin.JoinEdsClusters` | pkg/ambex/transforms.go:199-252 | clusters are untouched without bypass and inlined with it |
| `EdsJoin.JoinConsistent` | pkg/ambex/transforms.go:199-252 | the assignments' names are exactly the EDS clusters' references |
| `EdsJoin.BypassSameEndpoints` | pkg/ambex/transforms.go:219-231 | bypass leaves no EDS cluster and every cluster sends to the same endpoints as without |
| `EdsJoin.Deliver` | pkg/ambex/transforms.go:199-252 | makeEndpoints, ToMap and the join in one: every EDS cluster gets the endpoints of its name, each once and in order, or an empty assignment, with bypass as without; without it the assignments are for exactly the references |
| `RateLimit.GcUpdateTimes` | pkg/ambex/ratelimit.go:167-175 | keeps the pushes still draining |
| `RateLimit.DrainingCounts` | pkg/ambex/ratelimit.go:167-175 | as many as lie within the drain time |
| `RateLimit.UpdaterWithTicker` | pkg/ambex/ratelimit.go:43-164 | the loop pushes what the run of its events says |
| `RateLimit.PushExactlyWhenRoom` | pkg/ambex/ratelimit.go:133-160 | on every wake-up, the newest update goes out exactly when one waits and the window of past pushes has room, so a throttled update goes out at the first tick with room |
| `RateLimit.PushesAreCurrent` | pkg/ambex/ratelimit.go:64-93 | each push is of the latest update received and newer than every push before it, so none is pushed twice and nothing before the first |
| `RateLimit.WindowBound` | pkg/ambex/ratelimit.go:95-160 | a push made under limit M is one of at most M within the last drain time |
| `RateLimit.TightMemorySpacing` | pkg/ambex/ratelimit.go:104-110 | a push made at 90 percent memory or more comes a full drain time after the one before |
| `Indenter.LexCharOrCs` | releng/lib/uiutil.py:113-134 | splits off one character or one whole control sequence, or nothing while it is incomplete |
| `Indenter.TokenStable` | releng/lib/uiutil.py:113-134 | what follows never changes a token |
| `Indenter.FeedSplit` | releng/lib/uiutil.py:178-211 | output and state after two chunks are those after one |
| `Indenter.ChunkingIrrelevant` | releng/lib/uiutil.py:178-211 | so they are for any split into chunks |
| `Indenter.FeedWellLaid` | releng/lib/uiutil.py:178-211 | with wrapping on there are never more than `columns` visible characters between line breaks, and each line that shows something is indented |
| `Indenter.FeedErases` | releng/lib/uiutil.py:178-211 | without the inserted indents and wraps the output is the input consumed |
| `Indenter.WrapIsBreakThenChar` | releng/lib/uiutil.py:203-204 | pushing a line break back is the same as breaking the line and going on |
| `Indenter.Indent.WriteToken` | releng/lib/uiutil.py:188-210 | the branches that write |
| `Indenter.Indent.Write` | releng/lib/uiutil.py:178-211 | terminates though it pushes text back, and leaves the object where one pass over everything received would |
| `SchemaPrune.KeptMeans` | charts/helmify-crds.py:16-88 | a schema is kept when it exists and nothing from the root to it is a d6e type or a list of one |
| `SchemaPrune.PrunedExactly` | charts/helmify-crds.py:16-88 | exactly the kept schemas remain, with the same content, and exactly those that lost a child are marked preserve-unknown-fields |
| `SchemaPrune.NoD6eLeft` | charts/helmify-crds.py:16-88 | no d6e type can be reached in what remains |
| `SchemaPrune.PruneTwice` | charts/helmify-crds.py:16-88 | a second pass changes nothing |
| `SchemaDict.FilterDict` | charts/helmify-crds.py:16-88 | on nested dictionaries, in place: true and untouched when the caller is to delete it, otherwise pruned |
| `SchemaDict.FilterAt` | charts/helmify-crds.py:50-54 | filtering one child leaves its siblings as they were |
| `SchemaDict.FilterEach` | charts/helmify-crds.py:49-54 | filters every property and collects those to delete |
| `SchemaDict.DeleteProperties` | charts/helmify-crds.py:57-67 | deletes them and marks the parent |
| `SchemaDict.FilterRest` | charts/helmify-crds.py:70-78 | the same for additionalProperties and items |
| `Health.AmbassadorWatcher.FetchEnvoyReady` | pkg/acp/envoy.go:117-137 | only status 200 counts as success |
| `Health.AmbassadorWatcher.NoteSnapshotSent` | pkg/acp/ambassador.go:111-116 | the watcher's fields are what its history makes them |
| `Health.AmbassadorWatcher.NoteSnapshotProcessed` | pkg/acp/ambassador.go:119-133 | the first one starts Envoy's thirty seconds |
| `Health.AmbassadorWatcher.IsAlive` | pkg/acp/ambassador.go:136-180 | answers the verdict on its history and notes an Envoy that came up |
| `Health.GraceExactly` | pkg/acp/diagd.go:60-106 | over every history, diagd's grace ends ten minutes after the latest snapshot sent once one was processed, or else after boot |
| `Health.NeverProcessedNotAlive` | pkg/acp/diagd.go:89-133 | a diagd that never processed a snapshot is not alive from ten minutes after boot, however many are sent |
| `Health.OnlyForward` | pkg/acp/ambassador.go:119-180 | over every history the state only moves forward and Envoy's grace end never changes once set |
| `Health.GraceSetByFirst` | pkg/acp/ambassador.go:119-133 | it is thirty seconds after the first processed snapshot |
| `Health.RunningMeans` | pkg/acp/ambassador.go:136-180 | Envoy counts as running only after a processed snapshot and a successful check, seen when somebody asked |
| `Health.SilentEnvoyNotAlive` | pkg/acp/ambassador.go:136-180 | an Envoy silent past its grace makes the whole not alive |

## Left out

- JSON, reflection and protobuf: objects are records, and whether a field encodes is an input; a listener that protobuf cannot encode, which is then kept as it is, is not modelled; map-typed snapshot fields are not modelled, slices are.
- client-go informers and the API server: lists, watch events and answers are inputs. A resource version names one state of an object, and each UID shows up in one query under one kind, namespace and name.
- Two queries of the same name in one accumulator.
- Several accumulators on one client, which share its memory of local writes.
- KatesListen.BootstrapBarrier: all but at most one object per query, because counting and sending are separate steps in the code.
- WatchLoop.SettledSnapshotIsComplete: one direction; the exact condition is in ReadyCarriesEndpoints.
- WatchLoop: steps that return an error end the program and are not part of a run; the Kubernetes part of a snapshot is not modelled, only its deltas and change count.
- The Consul watch itself, `ReconcileConsul`'s filtering of mappings by Ambassador ID, environment variables in resolver addresses, and `cleanup` running beside a reconcile.
- `reconcileEndpointWatches`, Secrets, annotations and Istio certificates: their results are inputs of K8sUpdate.
- Header matches of HTTPRoutes and everything in an Envoy listener, route or cluster that is not a name, a port, a path or a reference.
- A ForwardTo without a service name, which stops the original program.
- The snapshot cache's consistency check is set equality of referenced and supplied names.
- RateLimit: wake-up times are taken to be in order.
- GatewayFeed: the gateway resources of the snapshot all compile and no two have one name; DispatcherFollows covers those that do not compile.
- Sharing of dictionaries between places of a schema, which YAML aliases could produce.
- Health: `IsReady` and the test hooks that replace the clock.
- `LineTracker`, the terminal checker and the release scripts.
- FSWatcher, memory usage, snapshot files, certificates, DNS, the apiext server, generated conversions, test harnesses and the Python diagd.
