/** The watch loop (cmd/entrypoint/watcher.go) beside the Consul watcher's own goroutine
    (cmd/entrypoint/consul.go, run).

    Three goroutines meet over rendezvous channels: the loop, the notifier and the Consul
    watcher. A mutex-held section is one step, and so is a channel meeting; a local assignment
    that follows one is a step of its own. Steps that report an error end the run. */
module WatchLoop {
  import opened Wrappers
  import opened KatesState

  type Addresses = seq<string>

  // ---------------------------------------------------------------- state

  /** What the Consul watcher's mutex protects, and whether it has reconciled yet. */
  datatype Boot = Boot(first: bool, keys: seq<string>, endpoints: map<string, Addresses>, bootstrapped: bool)

  /** SnapshotHolder: the Consul endpoints it last copied, and its unsent deltas and counters. */
  datatype Holder = Holder(consul: map<string, Addresses>, unsent: seq<Delta>, changeCount: nat, notified: nat)

  /** `serial` is the change count the snapshot answers. */
  datatype Snapshot = Snapshot(consul: map<string, Addresses>, deltas: seq<Delta>, serial: nat)

  datatype Emission = Ready(sn: Snapshot) | Incomplete(sn: Snapshot)

  datatype LoopPc = Selecting | Copying | Arming
  datatype NotifyPc = Waiting | Received | Sending(sn: Snapshot, ready: bool)

  /** `armed` is whether the loop's `out` is the notify channel. `marking` holds between storing
      new endpoints and setting `dirty`. `log` and `received` are history. */
  datatype State = State(
    holder: Holder, boot: Boot,
    dirty: bool, marking: bool,
    loop: LoopPc, armed: bool, notify: NotifyPc,
    log: seq<Emission>, received: seq<Delta>)

  const INIT :=
    State(Holder(map[], [], 0, 0), Boot(false, [], map[], false), false, false, Selecting, false, Waiting, [], [])

  datatype Step =
    | K8sUpdate(deltas: seq<Delta>, keys: seq<string>)
    | IstioUpdate
    | EndpointsArrive(service: string, addresses: Addresses)
    | Mark
    | Coalesce
    | CopyEndpoints
    | Arm
    | Send
    | NotifySection
    | Deliver

  predicate External(step: Step) {
    step.K8sUpdate? || step.IstioUpdate? || step.EndpointsArrive?
  }

  predicate BootCondition(b: Boot) {
    b.first && (b.bootstrapped || forall k :: k in b.keys ==> k in b.endpoints)
  }

  predicate EndpointsOnly(deltas: seq<Delta>) {
    forall d :: d in deltas ==> d.kind == "Endpoints"
  }

  predicate Enabled(s: State, step: Step) {
    match step
    case K8sUpdate(_, _) => s.loop == Selecting
    case IstioUpdate => s.loop == Selecting
    case EndpointsArrive(_, _) => !s.marking
    case Mark => s.marking
    case Coalesce => s.loop == Selecting && s.dirty && !s.marking
    case CopyEndpoints => s.loop == Copying
    case Arm => s.loop == Arming
    case Send => s.loop == Selecting && s.armed && s.notify == Waiting
    case NotifySection => s.notify == Received
    case Deliver => s.notify.Sending?
  }

  // ---------------------------------------------------------------- the mutex-held sections

  /** The section of K8sUpdate: remember the deltas, count the change unless it is endpoints only. */
  function HolderUpdate(h: Holder, deltas: seq<Delta>): Holder {
    h.(unsent := h.unsent + deltas, changeCount := if EndpointsOnly(deltas) then h.changeCount else h.changeCount + 1)
  }

  /** The first reconcile fixes what bootstrapping waits for. */
  function Reconciled(b: Boot, keys: seq<string>): Boot {
    if b.first then b else b.(first := true, keys := keys)
  }

  /** The section of Notify: the holder and latch after it, and what is left to send. */
  function NotifyHolder(h: Holder, b: Boot): (r: (Holder, Boot, NotifyPc)) {
    if h.notified == h.changeCount then (h, b, Waiting)
    else
      var sn := Snapshot(h.consul, h.unsent, h.changeCount);
      if BootCondition(b) then
        (h.(unsent := [], notified := h.changeCount), b.(bootstrapped := true), Sending(sn, true))
      else (h, b, Sending(sn, false))
  }

  /** A ready snapshot is also handed over as an incomplete one. */
  function Emitted(sn: Snapshot, ready: bool): seq<Emission> {
    if ready then [Ready(sn), Incomplete(sn)] else [Incomplete(sn)]
  }

  function Next(s: State, step: Step): State
    requires Enabled(s, step)
  {
    match step
    case K8sUpdate(deltas, keys) =>
      s.(holder := HolderUpdate(s.holder, deltas), boot := Reconciled(s.boot, keys), loop := Arming, received :=
        s.received + deltas)
    case IstioUpdate => s.(holder := s.holder.(changeCount := s.holder.changeCount + 1), loop := Arming)
    case EndpointsArrive(service, addresses) =>
      s.(boot := s.boot.(endpoints := s.boot.endpoints[service := addresses]), marking := true)
    case Mark => s.(dirty := true, marking := false)
    case Coalesce => s.(dirty := false, loop := Copying)
    case CopyEndpoints => s.(holder := s.holder.(consul := s.boot.endpoints), loop := Arming)
    case Arm => s.(armed := true, loop := Selecting)
    case Send => s.(armed := false, notify := Received)
    case NotifySection =>
      var (h, b, pc) := NotifyHolder(s.holder, s.boot);
      s.(holder := h, boot := b, notify := pc)
    case Deliver => s.(notify := Waiting, log := s.log + Emitted(s.notify.sn, s.notify.ready))
  }

  ghost predicate Possible(s: State, steps: seq<Step>)
    decreases |steps|, 0
  {
    steps == [] || (Possible(s, steps[..|steps| - 1]) && Enabled(Run(s, steps[..|steps| - 1]), steps[|steps| - 1]))
  }

  ghost function Run(s: State, steps: seq<Step>): State
    requires Possible(s, steps)
    decreases |steps|, 1
  {
    if steps == [] then s else Next(Run(s, steps[..|steps| - 1]), steps[|steps| - 1])
  }

  // ---------------------------------------------------------------- what every step keeps

  /** A change that may be sent has somebody on the way to send it. */
  predicate Awake(s: State) {
    s.holder.notified <= s.holder.changeCount &&
    (s.holder.notified < s.holder.changeCount && BootCondition(s.boot) ==>
       s.armed || s.loop != Selecting || s.notify == Received || s.dirty || s.marking)
  }

  /** The deltas of the ready snapshots, in order. */
  function ReadyDeltas(log: seq<Emission>): seq<Delta> {
    if log == [] then []
    else
      var last := log[|log| - 1];
      ReadyDeltas(log[..|log| - 1]) + if last.Ready? then last.sn.deltas else []
  }

  function PendingDeltas(pc: NotifyPc): seq<Delta> {
    if pc.Sending? && pc.ready then pc.sn.deltas else []
  }

  ghost predicate Conserved(s: State) {
    s.received == ReadyDeltas(s.log) + PendingDeltas(s.notify) + s.holder.unsent
  }

  /** Only deltas about endpoints are held back without a change to send. */
  predicate OnlyEndpointsHeld(s: State) {
    EndpointsOnly(s.holder.unsent) || s.holder.notified < s.holder.changeCount
  }

  predicate AnyReady(s: State) {
    (exists e :: e in s.log && e.Ready?) || (s.notify.Sending? && s.notify.ready)
  }

  predicate Latched(s: State) {
    && (AnyReady(s) ==> s.boot.bootstrapped)
    && (s.boot.bootstrapped ==> s.boot.first && forall k :: k in s.boot.keys ==> k in s.boot.endpoints)
  }

  /** With nothing on its way from the Consul watcher, the holder has its endpoints. */
  predicate Copied(s: State) {
    !s.dirty && !s.marking && s.loop != Copying ==> s.holder.consul == s.boot.endpoints
  }

  /** Ready snapshots answer ever later changes. */
  predicate Numbered(s: State) {
    && (forall i: nat, j: nat :: i < j < |s.log| && s.log[i].Ready? && s.log[j].Ready? ==>
         s.log[i].sn.serial < s.log[j].sn.serial)
    && (forall i: nat :: i < |s.log| && s.log[i].Ready? ==> s.log[i].sn.serial <= s.holder.notified)
    && (s.notify.Sending? && s.notify.ready ==>
          s.notify.sn.serial == s.holder.notified &&
          forall i: nat :: i < |s.log| && s.log[i].Ready? ==> s.log[i].sn.serial < s.holder.notified)
  }

  /** The latest notified change was answered by a ready snapshot. */
  predicate Answered(s: State) {
    s.holder.notified == 0
    || (s.notify.Sending? && s.notify.ready && s.notify.sn.serial == s.holder.notified)
    || exists e :: e in s.log && e.Ready? && e.sn.serial == s.holder.notified
  }

  ghost predicate Inv(s: State) {
    Awake(s) && Conserved(s) && OnlyEndpointsHeld(s) && Latched(s) && Copied(s) && Numbered(s) && Answered(s)
  }

  lemma AwakeKept(s: State, step: Step)
    requires Awake(s) && Enabled(s, step)
    ensures Awake(Next(s, step))
  {
  }

  lemma ReadyDeltasEmitted(log: seq<Emission>, sn: Snapshot, ready: bool)
    ensures ReadyDeltas(log + Emitted(sn, ready)) == ReadyDeltas(log) + if ready then sn.deltas else []
  {
    assert (log + [Incomplete(sn)])[..|log|] == log;
    if ready {
      var more := log + [Ready(sn)];
      assert more[..|log|] == log;
      assert log + Emitted(sn, ready) == more + [Incomplete(sn)];
      assert (more + [Incomplete(sn)])[..|more|] == more;
    }
  }

  lemma ConservedKept(s: State, step: Step)
    requires Conserved(s) && Enabled(s, step)
    ensures Conserved(Next(s, step))
  {
    hide BootCondition;
    if step.Deliver? {
      ReadyDeltasEmitted(s.log, s.notify.sn, s.notify.ready);
    }
    Regrouped(ReadyDeltas(s.log), PendingDeltas(s.notify), s.holder.unsent, if step.K8sUpdate? then step.deltas
      else []);
    hide ReadyDeltas;
  }

  lemma Regrouped(sent: seq<Delta>, pending: seq<Delta>, unsent: seq<Delta>, more: seq<Delta>)
    ensures sent + pending + unsent + more == sent + pending + (unsent + more)
    ensures sent + [] + unsent == sent + unsent + []
    ensures sent + pending + unsent == (sent + pending) + [] + unsent
    ensures sent + [] + [] == sent && sent + [] == sent
  {
  }

  lemma OnlyEndpointsHeldKept(s: State, step: Step)
    requires OnlyEndpointsHeld(s) && Awake(s) && Enabled(s, step)
    ensures OnlyEndpointsHeld(Next(s, step))
  {
  }

  lemma LatchedKept(s: State, step: Step)
    requires Latched(s) && Enabled(s, step)
    ensures Latched(Next(s, step))
  {
  }

  lemma CopiedKept(s: State, step: Step)
    requires Copied(s) && Enabled(s, step)
    ensures Copied(Next(s, step))
  {
  }

  lemma NumberedKept(s: State, step: Step)
    requires Numbered(s) && Awake(s) && Enabled(s, step)
    ensures Numbered(Next(s, step))
  {
    match step
    case Deliver => DeliveryNumbered(s);
    case NotifySection => NotifyNumbered(s);
    case _ => assert Next(s, step).log == s.log && Next(s, step).holder.notified == s.holder.notified;
  }

  lemma DeliveryNumbered(s: State)
    requires Numbered(s) && Enabled(s, Deliver)
    ensures Numbered(Next(s, Deliver))
  {
  }

  lemma NotifyNumbered(s: State)
    requires Numbered(s) && Awake(s) && Enabled(s, NotifySection)
    ensures Numbered(Next(s, NotifySection))
  {
  }

  lemma AnsweredKept(s: State, step: Step)
    requires Answered(s) && Enabled(s, step)
    ensures Answered(Next(s, step))
  {
    var s' := Next(s, step);
    if step.Deliver? && s.notify.ready {
      assert s'.log[|s.log|] == Ready(s.notify.sn);
    }
    assert forall e :: e in s.log ==> e in s'.log;
  }

  lemma StepKeepsInv(s: State, step: Step)
    requires Inv(s) && Enabled(s, step)
    ensures Inv(Next(s, step))
  {
    AwakeKept(s, step);
    ConservedKept(s, step);
    OnlyEndpointsHeldKept(s, step);
    LatchedKept(s, step);
    CopiedKept(s, step);
    NumberedKept(s, step);
    AnsweredKept(s, step);
    hide *;
  }

  lemma {:induction false} RunKeepsInv(s: State, steps: seq<Step>)
    requires Inv(s) && Possible(s, steps)
    ensures Inv(Run(s, steps))
    decreases |steps|
  {
    if steps != [] {
      var before := steps[..|steps| - 1];
      RunKeepsInv(s, before);
      StepKeepsInv(Run(s, before), steps[|steps| - 1]);
    }
  }

  lemma Reached(steps: seq<Step>)
    requires Possible(INIT, steps)
    ensures Inv(Run(INIT, steps))
  {
    RunKeepsInv(INIT, steps);
  }

  // ---------------------------------------------------------------- safety over whole runs

  /** No lost wake-up: with the loop and the Consul watcher both at their selects, a change that
      may be sent finds `out` armed, a holder received and not yet processed, or the watcher dirty. */
  lemma {:induction false} NoLostWakeUp(steps: seq<Step>)
    requires Possible(INIT, steps)
    ensures var s := Run(INIT, steps);
      (s.loop == Selecting && !s.marking && s.holder.notified < s.holder.changeCount && BootCondition(s.boot) ==>
         s.armed || s.notify == Received || s.dirty)
  {
    Reached(steps);
  }

  /** Delta conservation, endpoints-only deltas included. */
  lemma {:induction false} DeltasConserved(steps: seq<Step>)
    requires Possible(INIT, steps)
    ensures var s := Run(INIT, steps);
      s.received == ReadyDeltas(s.log) + PendingDeltas(s.notify) + s.holder.unsent
  {
    Reached(steps);
  }

  /** Nothing is called ready before every service of the first reconcile has endpoints, and
      no change is called ready twice. */
  lemma ReadyAfterBootstrap(steps: seq<Step>, i: nat)
    requires Possible(INIT, steps) && i < |Run(INIT, steps).log| && Run(INIT, steps).log[i].Ready?
    ensures var s := Run(INIT, steps);
      s.boot.first && (forall k :: k in s.boot.keys ==> k in s.boot.endpoints) &&
      forall j: nat :: j < |s.log| && j != i && s.log[j].Ready? ==> s.log[j].sn.serial != s.log[i].sn.serial
  {
    Reached(steps);
  }

  // ---------------------------------------------------------------- progress

  /** The goroutines have nothing left to do until an input arrives. */
  ghost predicate AtRest(s: State) {
    forall step :: Enabled(s, step) ==> External(step)
  }

  predicate Internal(steps: seq<Step>) {
    forall step :: step in steps ==> !External(step)
  }

  function Work(s: State): nat {
    (if s.marking then 8 else 0) + (if s.dirty then 7 else 0)
    + (match s.loop case Copying => 6 case Arming => 5 case Selecting => 0)
    + (if s.armed then 4 else 0)
    + (match s.notify case Received => 2 case Sending(_, _) => 1 case Waiting => 0)
  }

  lemma WorkDrops(s: State, step: Step)
    requires Enabled(s, step) && !External(step)
    ensures Work(Next(s, step)) < Work(s)
  {
  }

  /** Left alone, the goroutines take at most 27 steps. */
  lemma {:induction false} WorkEnds(s: State, steps: seq<Step>)
    requires Possible(s, steps) && Internal(steps)
    ensures |steps| + Work(Run(s, steps)) <= Work(s) <= 27
    decreases |steps|
  {
    if steps != [] {
      var before, step := steps[..|steps| - 1], steps[|steps| - 1];
      assert step in steps;
      WorkEnds(s, before);
      WorkDrops(Run(s, before), step);
    }
  }

  lemma Extended(s: State, steps: seq<Step>, step: Step)
    requires Possible(s, steps) && Enabled(Run(s, steps), step)
    ensures Possible(s, steps + [step]) && Run(s, steps + [step]) == Next(Run(s, steps), step)
  {
    assert (steps + [step])[..|steps|] == steps;
  }

  /** ...and then they are at rest. */
  lemma {:induction false} RestIsReached(s: State, steps: seq<Step>) returns (all: seq<Step>)
    requires Possible(s, steps) && Internal(steps)
    ensures steps <= all && Possible(s, all) && Internal(all) && AtRest(Run(s, all))
    decreases Work(Run(s, steps))
  {
    all := steps;
    if !AtRest(Run(s, steps)) {
      var step :| Enabled(Run(s, steps), step) && !External(step);
      Extended(s, steps, step);
      WorkDrops(Run(s, steps), step);
      hide Next, Enabled, Work;
      all := RestIsReached(s, steps + [step]);
    }
  }

  lemma InternalStepKeeps(s: State, step: Step)
    requires Enabled(s, step) && !External(step)
    ensures Next(s, step).holder.changeCount == s.holder.changeCount && Next(s, step).received == s.received
    ensures BootCondition(s.boot) ==> BootCondition(Next(s, step).boot)
  {
  }

  /** Steps of the goroutines neither make changes nor undo the boot condition. */
  lemma {:induction false} InternalKeeps(s: State, steps: seq<Step>)
    requires Possible(s, steps) && Internal(steps)
    ensures Run(s, steps).holder.changeCount == s.holder.changeCount && Run(s, steps).received == s.received
    ensures BootCondition(s.boot) ==> BootCondition(Run(s, steps).boot)
    decreases |steps|
  {
    if steps != [] {
      var before, step := steps[..|steps| - 1], steps[|steps| - 1];
      assert step in steps;
      InternalKeeps(s, before);
      InternalStepKeeps(Run(s, before), step);
      hide Next, Enabled, BootCondition;
    }
  }

  /** Liveness: from any reachable state where the boot condition holds, however the goroutines
      are scheduled, when they come to rest every change made so far has been answered by a ready
      snapshot, every delta that is not about endpoints has gone out in one, and the holder has
      the Consul watcher's endpoints. */
  lemma EveryChangeIsSent(steps: seq<Step>, more: seq<Step>)
    requires Possible(INIT, steps) && BootCondition(Run(INIT, steps).boot)
    requires Possible(Run(INIT, steps), more) && Internal(more) && AtRest(Run(Run(INIT, steps), more))
    ensures var s, end := Run(INIT, steps), Run(Run(INIT, steps), more);
      && end.holder.notified == s.holder.changeCount
      && (s.holder.changeCount > 0 ==> exists e :: e in end.log && e.Ready? && e.sn.serial == s.holder.changeCount)
      && (forall d :: d in s.received && d.kind != "Endpoints" ==> d in ReadyDeltas(end.log))
      && end.holder.consul == end.boot.endpoints
  {
    var s := Run(INIT, steps);
    Reached(steps);
    RunKeepsInv(s, more);
    InternalKeeps(s, more);
    Resting(Run(s, more));
  }

  lemma Resting(s: State)
    requires Inv(s) && AtRest(s)
    ensures !s.dirty && !s.marking && s.loop == Selecting && !s.armed && s.notify == Waiting
    ensures BootCondition(s.boot) ==> s.holder.notified == s.holder.changeCount && EndpointsOnly(s.holder.unsent)
    ensures s.received == ReadyDeltas(s.log) + s.holder.unsent && s.holder.consul == s.boot.endpoints
  {
    assert Enabled(s, Mark) <==> s.marking;
    assert Enabled(s, CopyEndpoints) <==> s.loop == Copying;
    assert Enabled(s, Arm) <==> s.loop == Arming;
    assert Enabled(s, Coalesce) <==> s.loop == Selecting && s.dirty && !s.marking;
    assert Enabled(s, NotifySection) <==> s.notify == Received;
    assert Enabled(s, Deliver) <==> s.notify.Sending?;
    assert Enabled(s, Send) <==> s.loop == Selecting && s.armed && s.notify == Waiting;
    assert ReadyDeltas(s.log) + [] == ReadyDeltas(s.log);
  }

  // ---------------------------------------------------------------- endpoints in a ready snapshot

  /** A snapshot made while nothing is on its way from the Consul watcher carries all endpoints. */
  lemma SettledSnapshotIsComplete(steps: seq<Step>)
    requires Possible(INIT, steps) && Enabled(Run(INIT, steps), NotifySection)
    requires var s := Run(INIT, steps); !s.dirty && !s.marking && s.loop != Copying
    ensures var s := Run(INIT, steps); var pc := Next(s, NotifySection).notify;
      pc.Sending? && pc.ready ==> pc.sn.consul == s.boot.endpoints && forall k :: k in s.boot.keys ==> k in pc.sn.consul
  {
    Reached(steps);
    Reached(steps + [NotifySection]) by {
      Extended(INIT, steps, NotifySection);
    }
    Extended(INIT, steps, NotifySection);
  }

  predicate Arrived(steps: seq<Step>, k: string) {
    exists i: nat :: i < |steps| && steps[i].EndpointsArrive? && steps[i].service == k
  }

  /** The loop copied the Consul endpoints after the service's first arrived. */
  predicate CopiedSince(steps: seq<Step>, k: string) {
    exists j: nat :: j < |steps| && steps[j] == CopyEndpoints && Arrived(steps[..j], k)
  }

  lemma ArrivedSnoc(before: seq<Step>, step: Step, k: string)
    ensures Arrived(before + [step], k) <==> Arrived(before, k) || (step.EndpointsArrive? && step.service == k)
  {
    var all := before + [step];
    assert all[|before|] == step && forall i: nat :: i < |before| ==> all[i] == before[i];
  }

  lemma CopiedSinceSnoc(before: seq<Step>, step: Step, k: string)
    ensures CopiedSince(before + [step], k) <==> CopiedSince(before, k) || (step == CopyEndpoints && Arrived(before, k))
  {
    hide Arrived;
    var all := before + [step];
    assert all[|before|] == step && all[..|before|] == before;
    assert forall j: nat :: j < |before| ==> all[j] == before[j] && all[..j] == before[..j];
  }

  lemma {:induction false} HeldEndpoints(steps: seq<Step>, k: string)
    requires Possible(INIT, steps)
    ensures k in Run(INIT, steps).boot.endpoints <==> Arrived(steps, k)
    ensures k in Run(INIT, steps).holder.consul <==> CopiedSince(steps, k)
    decreases |steps|
  {
    if steps != [] {
      var before, step := steps[..|steps| - 1], steps[|steps| - 1];
      HeldEndpoints(before, k);
      ArrivedSnoc(before, step, k);
      CopiedSinceSnoc(before, step, k);
      assert steps == before + [step];
      hide Arrived, CopiedSince;
    }
  }

  /** Exactly when a ready snapshot carries the endpoints of every service it waited for. */
  lemma ReadyCarriesEndpoints(steps: seq<Step>)
    requires Possible(INIT, steps) && Enabled(Run(INIT, steps), NotifySection)
    requires var pc := Next(Run(INIT, steps), NotifySection).notify; pc.Sending? && pc.ready
    ensures var s := Run(INIT, steps);
      (forall k :: k in s.boot.keys ==> k in Next(s, NotifySection).notify.sn.consul) <==>
      (forall k :: k in s.boot.keys ==> CopiedSince(steps, k))
  {
    forall k ensures k in Run(INIT, steps).holder.consul <==> CopiedSince(steps, k) {
      HeldEndpoints(steps, k);
    }
  }

  /** It may not: the endpoints that completed the bootstrap can be missing from the first
      ready snapshot, and when all comes to rest no other snapshot has been made. */
  lemma ReadyMayMissEndpoints(d: Delta) returns (steps: seq<Step>)
    requires d.kind != "Endpoints"
    ensures Possible(INIT, steps)
    ensures var s := Run(INIT, steps); var sn := Snapshot(map[], [d], 1);
      AtRest(s) && s.boot.keys == ["auth"] && "auth" in s.boot.endpoints && s.log == [Ready(sn), Incomplete(sn)]
  {
    steps := FirstReady(d);
    hide Run, Possible;
    steps := Extend(steps, Mark);
    steps := Extend(steps, Coalesce);
    steps := Extend(steps, CopyEndpoints);
    steps := Extend(steps, Arm);
    steps := Extend(steps, Send);
    steps := Extend(steps, NotifySection);
  }

  lemma Extend(steps: seq<Step>, step: Step) returns (longer: seq<Step>)
    requires Possible(INIT, steps) && Enabled(Run(INIT, steps), step)
    ensures Possible(INIT, longer) && Run(INIT, longer) == Next(Run(INIT, steps), step)
  {
    Extended(INIT, steps, step);
    longer := steps + [step];
  }

  lemma FirstReady(d: Delta) returns (steps: seq<Step>)
    requires d.kind != "Endpoints"
    ensures Possible(INIT, steps)
    ensures var sn, here := Snapshot(map[], [d], 1), map["auth" := ["10.0.0.1"]];
      Run(INIT, steps) ==
        State(Holder(map[], [], 1, 1), Boot(true, ["auth"], here, true), false, true, Selecting, false, Waiting,
        [Ready(sn), Incomplete(sn)], [d])
  {
    steps := FirstArmed(d);
    hide Run, Possible;
    steps := Extend(steps, Send);
    steps := Extend(steps, NotifySection);
    steps := Extend(steps, Deliver);
  }

  lemma FirstArmed(d: Delta) returns (steps: seq<Step>)
    requires d.kind != "Endpoints"
    ensures Possible(INIT, steps)
    ensures var here := map["auth" := ["10.0.0.1"]];
      Run(INIT, steps) ==
        State(Holder(map[], [d], 1, 0), Boot(true, ["auth"], here, false), false, true, Selecting, true, Waiting, [],
        [d])
  {
    assert Run(INIT, []) == INIT;
    hide Run, Possible;
    assert d in [d];
    steps := Extend([], K8sUpdate([d], ["auth"]));
    steps := Extend(steps, Arm);
    steps := Extend(steps, EndpointsArrive("auth", ["10.0.0.1"]));
  }
}
