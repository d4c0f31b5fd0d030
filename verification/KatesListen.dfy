/** The bootstrap barrier (pkg/kates/accumulator.go, Listen; pkg/kates/client.go, watchRaw and lw).

    Three kinds of goroutine meet at the raw update channel: per query an event handler and a
    reflector, and one Listen loop. Counting an add event and sending it are two steps, because
    the reflector can report "synced" in between. */
module KatesListen {
  import opened Wrappers
  import opened KatesState
  import opened KatesAccumulator

  datatype ChangeStatus = AwaitingDispatch | Dispatched

  // ---------------------------------------------------------------- the Listen loop

  /** Listen's local variables. `lastSent` is None before the first notification, when the
      elapsed time is the largest duration there is. */
  datatype Listener = Listener(status: ChangeStatus, lastSent: Option<int>, synced: bool)

  function Due(l: Listener, ts: int, interval: int): bool {
    l.lastSent.None? || ts - l.lastSent.value >= interval
  }

  /** A raw update was stored and storeUpdate answered `allSynced`. */
  function OnStored(l: Listener, allSynced: bool, ts: int, interval: int, now: int): (r: (Listener, bool)) {
    if allSynced && Due(l, ts, interval) then (Listener(Dispatched, Some(now), allSynced), true)
    else (Listener(AwaitingDispatch, l.lastSent, allSynced), false)
  }

  function OnTick(l: Listener, now: int): (r: (Listener, bool)) {
    if l.synced && l.status == AwaitingDispatch then (Listener(Dispatched, Some(now), l.synced), true)
    else (l, false)
  }

  /** The loop body over the real accumulator. */
  class ListenLoop {
    const acc: Accumulator
    const interval: int
    var changeStatus: ChangeStatus
    var lastChangeSent: Option<int>
    var synced: bool

    ghost function State(): Listener
      reads this
    {
      Listener(changeStatus, lastChangeSent, synced)
    }

    constructor (acc: Accumulator, interval: int)
      ensures this.acc == acc && this.interval == interval && State() == Listener(AwaitingDispatch, None, false)
    {
      this.acc, this.interval := acc, interval;
      changeStatus, lastChangeSent, synced := AwaitingDispatch, None, false;
    }

    method Receive(u: RawUpdate, ts: int, now: int) returns (sent: bool)
      requires acc.Valid() && u.name in acc.fields
      modifies this, acc`fields, acc`synced
      ensures acc.Valid()
      ensures acc.fields == old(acc.fields)[u.name := StoreField(old(acc.fields)[u.name], u)]
      ensures (State(), sent) == OnStored(old(State()), AllFieldsSynced(acc.fields), ts, interval, now)
    {
      synced := acc.StoreUpdate(u);
      sent := synced && (lastChangeSent.None? || ts - lastChangeSent.value >= interval);
      if sent {
        changeStatus, lastChangeSent := Dispatched, Some(now);
      } else {
        changeStatus := AwaitingDispatch;
      }
    }

    method Tick(now: int) returns (sent: bool)
      modifies this
      ensures (State(), sent) == OnTick(old(State()), now)
    {
      sent := synced && changeStatus == AwaitingDispatch;
      if sent {
        changeStatus, lastChangeSent := Dispatched, Some(now);
      }
    }
  }

  // ---------------------------------------------------------------- one query's list-watcher

  /** `outbox` is the event the handler is blocked on sending, `signal` that the reflector is
      blocked on sending the bare sync report. The last three components are history: the keys
      of the first list, of the add events counted, and of the objects deleted since. */
  datatype Watcher = Watcher(
    listDone: bool, listCount: nat, addCount: nat, onceFired: bool,
    outbox: Option<RawUpdate>, signal: bool,
    initial: set<Key>, added: set<Key>, gone: set<Key>)

  predicate HasSynced(w: Watcher) {
    w.listDone && w.addCount >= w.listCount
  }

  /** The key of an object that has been counted but not stored yet. */
  function InFlight(w: Watcher): set<Key> {
    if w.outbox.Some? && w.outbox.value.after.Some? then {w.outbox.value.after.value.uid} else {}
  }

  datatype Net = Net(
    fields: map<string, FieldState>, watchers: map<string, Watcher>,
    listener: Listener, notified: nat, unannounced: nat)

  datatype Step =
    | List(n: string, keys: set<Key>)            // a list answered (with nothing, if forbidden)
    | HandleAdd(n: string, o: Object)
    | HandleUpdate(n: string, before: Object, after: Object)
    | HandleDelete(n: string, before: Object)
    | FirstWatch(n: string)
    | Receive(n: string, ts: int, now: int)      // Listen takes the handler's event
    | ReceiveSignal(n: string, ts: int, now: int)
    | Tick(now: int)
    | CallerUpdate(n: string, can: Canonical, done: set<Key>, drained: bool)

  predicate AllFieldsSynced(fields: map<string, FieldState>) {
    forall n :: n in fields ==> fields[n].synced
  }

  /** What the informer promises: it lists before it dispatches, one event at a time, and the
      objects of the first list come first, each once. */
  ghost predicate Enabled(s: Net, step: Step) {
    match step
    case Tick(_) => true
    case List(n, _) => n in s.watchers
    case HandleAdd(n, o) =>
      n in s.watchers && s.watchers[n].outbox.None? && s.watchers[n].listDone &&
      (s.watchers[n].addCount < s.watchers[n].listCount ==>
         o.uid in s.watchers[n].initial && o.uid !in s.watchers[n].added)
    case HandleUpdate(n, before, after) =>
      n in s.watchers && s.watchers[n].outbox.None? && before.uid == after.uid
    case HandleDelete(n, _) => n in s.watchers && s.watchers[n].outbox.None?
    case FirstWatch(n) => n in s.watchers && !s.watchers[n].onceFired
    case Receive(n, _, _) => n in s.watchers && s.watchers[n].outbox.Some?
    case ReceiveSignal(n, _, _) => n in s.watchers && s.watchers[n].signal
    case CallerUpdate(n, can, done, _) => n in s.watchers && done <= can.Keys
  }

  ghost function Store(s: Net, u: RawUpdate, w: Watcher, interval: int, ts: int, now: int): Net
    requires u.name in s.fields
  {
    var fields := s.fields[u.name := StoreField(s.fields[u.name], u)];
    var (l, sent) := OnStored(s.listener, AllFieldsSynced(fields), ts, interval, now);
    Net(fields, s.watchers[u.name := w], l,
        if sent then s.notified + 1 else s.notified,
        if sent then 0 else s.unannounced + 1)
  }

  /** What a step other than Listen's own does to its query. */
  ghost function QueryAfter(n: string, w: Watcher, f: FieldState, step: Step): (r: (Watcher, FieldState))
    requires !step.Receive? && !step.ReceiveSignal? && !step.Tick?
  {
    match step
    case List(_, keys) =>
      (if w.listDone then w else w.(listDone := true, listCount := |keys|, initial := keys), f)
    case HandleAdd(_, o) =>
      var w' := w.(addCount := w.addCount + 1, added := w.added + {o.uid});
      (w'.(outbox := Some(RawUpdate(n, HasSynced(w'), None, Some(o)))), f)
    case HandleUpdate(_, before, after) =>
      (w.(outbox := Some(RawUpdate(n, HasSynced(w), Some(before), Some(after)))), f)
    case HandleDelete(_, before) =>
      (w.(outbox := Some(RawUpdate(n, HasSynced(w), Some(before), None))), f)
    case FirstWatch(_) =>
      (w.(onceFired := true, signal := HasSynced(w)), f)
    case CallerUpdate(_, can, done, drained) =>
      var p := PatchField(f, can, done);
      var f' := if drained then p.(deltas := map[], firstUpdate := true) else p;
      (w.(gone := w.gone + (f.values.Keys - f'.values.Keys)), f')
  }

  /** The query once Listen has taken the handler's event. */
  function Taken(w: Watcher): Watcher
    requires w.outbox.Some?
  {
    var u := w.outbox.value;
    w.(outbox := None, gone := w.gone + if u.after.None? && u.before.Some? then {u.before.value.uid} else {})
  }

  ghost function Apply(s: Net, interval: int, step: Step): Net
    requires Enabled(s, step) && s.fields.Keys == s.watchers.Keys
    requires forall n :: n in s.watchers && s.watchers[n].outbox.Some? ==> s.watchers[n].outbox.value.name == n
  {
    match step
    case Receive(n, ts, now) =>
      Store(s, s.watchers[n].outbox.value, Taken(s.watchers[n]), interval, ts, now)
    case ReceiveSignal(n, ts, now) =>
      Store(s, RawUpdate(n, true, None, None), s.watchers[n].(signal := false), interval, ts, now)
    case Tick(now) =>
      var (l, sent) := OnTick(s.listener, now);
      s.(listener := l, notified := if sent then s.notified + 1 else s.notified,
         unannounced := if sent then 0 else s.unannounced)
    case _ =>
      var (w, f) := QueryAfter(step.n, s.watchers[step.n], s.fields[step.n], step);
      s.(fields := s.fields[step.n := f], watchers := s.watchers[step.n := w])
  }

  ghost predicate Initial(s: Net) {
    && s.fields.Keys == s.watchers.Keys
    && s.listener == Listener(AwaitingDispatch, None, false) && s.notified == 0 && s.unannounced == 0
    && (forall n :: n in s.fields ==> s.fields[n].values == map[] && !s.fields[n].synced)
    && (forall n :: n in s.watchers ==> s.watchers[n] == Watcher(false, 0, 0, false, None, false, {}, {}, {}))
  }

  // ---------------------------------------------------------------- the invariant

  /** The first `listCount` adds are the first list, so once that many are counted all of it is. */
  predicate Counted(w: Watcher) {
    && (w.listDone ==> |w.initial| == w.listCount)
    && (!w.listDone ==> w.added == {} && w.addCount == 0 && w.initial == {})
    && (w.listDone && w.addCount < w.listCount ==> w.added <= w.initial && |w.added| == w.addCount)
    && (w.listDone && w.addCount >= w.listCount ==> w.initial <= w.added)
  }

  /** Everything counted is stored, deleted since, or on its way. */
  predicate Accounted(w: Watcher, f: FieldState) {
    forall k :: k in w.added ==> k in f.values || k in w.gone || k in InFlight(w)
  }

  /** Nobody says "synced" before it is so. */
  predicate Honest(n: string, w: Watcher, f: FieldState) {
    && (f.synced || w.signal ==> HasSynced(w))
    && (w.outbox.Some? ==> w.outbox.value.name == n && (w.outbox.value.synced ==> HasSynced(w)))
  }

  predicate WatcherInv(n: string, w: Watcher, f: FieldState) {
    Counted(w) && Accounted(w, f) && Honest(n, w, f)
  }

  ghost predicate Inv(s: Net) {
    && s.fields.Keys == s.watchers.Keys
    && (forall n :: n in s.watchers ==> WatcherInv(n, s.watchers[n], s.fields[n]))
    && (s.notified > 0 ==> AllFieldsSynced(s.fields))
    && (s.listener.synced ==> AllFieldsSynced(s.fields))
    && (s.unannounced > 0 ==> s.listener.status == AwaitingDispatch && s.listener.synced == AllFieldsSynced(s.fields))
  }

  lemma SubsetFull(a: set<Key>, b: set<Key>)
    requires a <= b && |a| == |b|
    ensures a == b
  {
    assert b == a + (b - a);
  }

  lemma AddKeeps(n: string, w: Watcher, f: FieldState, o: Object)
    requires WatcherInv(n, w, f) && w.outbox.None? && w.listDone
    requires w.addCount < w.listCount ==> o.uid in w.initial && o.uid !in w.added
    ensures WatcherInv(n, QueryAfter(n, w, f, HandleAdd(n, o)).0, f)
  {
    if w.addCount < w.listCount {
      assert |w.added + {o.uid}| == w.addCount + 1;
      if w.addCount + 1 == w.listCount {
        SubsetFull(w.added + {o.uid}, w.initial);
      }
    }
  }

  lemma PatchSynced(f: FieldState, can: Canonical, done: set<Key>)
    ensures PatchField(f, can, done).synced == f.synced
  {
  }

  lemma CallerUpdateKeeps(n: string, w: Watcher, f: FieldState, step: Step)
    requires WatcherInv(n, w, f) && step.CallerUpdate?
    ensures WatcherInv(n, QueryAfter(n, w, f, step).0, QueryAfter(n, w, f, step).1)
    ensures QueryAfter(n, w, f, step).1.synced == f.synced
  {
    hide PatchField;
    PatchSynced(f, step.can, step.done);
    var (w', f') := QueryAfter(n, w, f, step);
    assert forall k :: k in f.values ==> k in f'.values || k in w'.gone;
  }

  lemma QueryAfterKeeps(s: Net, step: Step)
    requires !step.Receive? && !step.ReceiveSignal? && !step.Tick?
    requires Enabled(s, step) && s.fields.Keys == s.watchers.Keys
    requires WatcherInv(step.n, s.watchers[step.n], s.fields[step.n])
    ensures var (w, f) := QueryAfter(step.n, s.watchers[step.n], s.fields[step.n], step);
      WatcherInv(step.n, w, f) && f.synced == s.fields[step.n].synced
  {
    hide PatchField;
    var n, w, f := step.n, s.watchers[step.n], s.fields[step.n];
    if step.HandleAdd? {
      AddKeeps(n, w, f, step.o);
    } else if step.CallerUpdate? {
      CallerUpdateKeeps(n, w, f, step);
    }
  }

  lemma QueryStepKeeps(s: Net, n: string, w: Watcher, f: FieldState)
    requires Inv(s) && n in s.watchers && WatcherInv(n, w, f) && f.synced == s.fields[n].synced
    ensures Inv(s.(fields := s.fields[n := f], watchers := s.watchers[n := w]))
  {
    hide WatcherInv;
    var s' := s.(fields := s.fields[n := f], watchers := s.watchers[n := w]);
    assert forall m :: m in s.fields ==> s'.fields[m].synced == s.fields[m].synced;
    assert AllFieldsSynced(s.fields) <==> AllFieldsSynced(s'.fields);
  }

  lemma StoreKeeps(s: Net, u: RawUpdate, w: Watcher, interval: int, ts: int, now: int)
    requires Inv(s) && u.name in s.fields && WatcherInv(u.name, w, StoreField(s.fields[u.name], u))
    ensures Inv(Store(s, u, w, interval, ts, now))
  {
    hide WatcherInv;
    var s' := Store(s, u, w, interval, ts, now);
    assert StoreField(s.fields[u.name], u).synced || !s.fields[u.name].synced;
    assert AllFieldsSynced(s.fields) ==> AllFieldsSynced(s'.fields);
  }

  lemma TakenKeeps(n: string, w: Watcher, f: FieldState)
    requires WatcherInv(n, w, f) && w.outbox.Some?
    ensures WatcherInv(n, Taken(w), StoreField(f, w.outbox.value))
  {
  }

  lemma SignalKeeps(n: string, w: Watcher, f: FieldState)
    requires WatcherInv(n, w, f) && w.signal
    ensures WatcherInv(n, w.(signal := false), StoreField(f, RawUpdate(n, true, None, None)))
  {
  }

  /** The event a query's handler is blocked on carries the query's name. */
  lemma OutboxNames(s: Net)
    requires Inv(s)
    ensures forall n :: n in s.watchers && s.watchers[n].outbox.Some? ==> s.watchers[n].outbox.value.name == n
  {
    forall n | n in s.watchers && s.watchers[n].outbox.Some? ensures s.watchers[n].outbox.value.name == n {
      assert WatcherInv(n, s.watchers[n], s.fields[n]);
    }
  }

  lemma StepKeepsInv(s: Net, interval: int, step: Step)
    requires Inv(s) && Enabled(s, step)
    ensures forall n :: n in s.watchers && s.watchers[n].outbox.Some? ==> s.watchers[n].outbox.value.name == n
    ensures Inv(Apply(s, interval, step))
  {
    hide QueryAfter, StoreField, WatcherInv, Taken, Store;
    OutboxNames(s);
    match step
    case Tick(_) =>
    case Receive(n, ts, now) =>
      TakenKeeps(n, s.watchers[n], s.fields[n]);
      StoreKeeps(s, s.watchers[n].outbox.value, Taken(s.watchers[n]), interval, ts, now);
    case ReceiveSignal(n, ts, now) =>
      SignalKeeps(n, s.watchers[n], s.fields[n]);
      StoreKeeps(s, RawUpdate(n, true, None, None), s.watchers[n].(signal := false), interval, ts, now);
    case _ =>
      QueryAfterKeeps(s, step);
      var (w, f) := QueryAfter(step.n, s.watchers[step.n], s.fields[step.n], step);
      QueryStepKeeps(s, step.n, w, f);
  }

  ghost predicate ValidRun(s: Net, interval: int, steps: seq<Step>)
    requires Inv(s)
    decreases |steps|
  {
    steps == [] ||
    (Enabled(s, steps[0]) &&
     (StepKeepsInv(s, interval, steps[0]);
      ValidRun(Apply(s, interval, steps[0]), interval, steps[1..])))
  }

  ghost function Final(s: Net, interval: int, steps: seq<Step>): (s': Net)
    requires Inv(s) && ValidRun(s, interval, steps)
    ensures Inv(s')
    decreases |steps|
  {
    if steps == [] then s
    else StepKeepsInv(s, interval, steps[0]); Final(Apply(s, interval, steps[0]), interval, steps[1..])
  }

  /** Main result, the barrier: in no run has anyone been notified unless every query finished
      its first list, and all of that list is stored or was deleted since, except at most the one
      object per query whose add event is counted but still waiting to be sent. Nothing is missing
      exactly when that object, if it is on the list, is stored or deleted too. */
  lemma BootstrapBarrier(init: Net, interval: int, steps: seq<Step>, n: string)
    requires Initial(init) && ValidRun(init, interval, steps)
    requires Final(init, interval, steps).notified > 0 && n in init.watchers
    ensures var s := Final(init, interval, steps);
      && n in s.watchers && n in s.fields && s.watchers[n].listDone
      && s.watchers[n].initial <= s.fields[n].values.Keys + s.watchers[n].gone + InFlight(s.watchers[n])
      && |InFlight(s.watchers[n])| <= 1
      && (s.watchers[n].initial <= s.fields[n].values.Keys + s.watchers[n].gone <==>
          s.watchers[n].initial * InFlight(s.watchers[n]) <= s.fields[n].values.Keys + s.watchers[n].gone)
  {
    var s := Final(init, interval, steps);
    RunKeepsQueries(init, interval, steps);
    assert WatcherInv(n, s.watchers[n], s.fields[n]);
  }

  lemma {:induction false} RunKeepsQueries(s: Net, interval: int, steps: seq<Step>)
    requires Inv(s) && ValidRun(s, interval, steps)
    ensures Final(s, interval, steps).watchers.Keys == s.watchers.Keys
    decreases |steps|
  {
    if steps != [] {
      StepKeepsInv(s, interval, steps[0]);
      RunKeepsQueries(Apply(s, interval, steps[0]), interval, steps[1..]);
    }
  }

  ghost predicate Moves(s: Net, interval: int, step: Step, s': Net) {
    && s.fields.Keys == s.watchers.Keys
    && (forall n :: n in s.watchers && s.watchers[n].outbox.Some? ==> s.watchers[n].outbox.value.name == n)
    && Enabled(s, step) && s' == Apply(s, interval, step)
  }

  /** The exception is real: if the reflector reports between the count and the send, the
      notification goes out with the last listed object missing. */
  lemma OneMayBeMissing(kind: string, selector: Labels -> bool, o: Object, interval: int, ts: int, now: int)
    returns (init: Net, s1: Net, s2: Net, s3: Net, s4: Net)
    ensures Initial(init) && Inv(init)
    ensures Moves(init, interval, List("q", {o.uid}), s1) && Moves(s1, interval, HandleAdd("q", o), s2)
    ensures Moves(s2, interval, FirstWatch("q"), s3) && Moves(s3, interval, ReceiveSignal("q", ts, now), s4)
    ensures s4.notified == 1 && "q" in s4.fields && "q" in s4.watchers
    ensures o.uid in s4.watchers["q"].initial && o.uid !in s4.fields["q"].values && o.uid !in s4.watchers["q"].gone
  {
    init, s1, s2 := Race(kind, selector, o, interval);
    s3 := Apply(s2, interval, FirstWatch("q"));
    s4 := Apply(s3, interval, ReceiveSignal("q", ts, now));
  }

  lemma Race(kind: string, selector: Labels -> bool, o: Object, interval: int) returns (init: Net, s1: Net, s2: Net)
    ensures Initial(init) && Inv(init)
    ensures Moves(init, interval, List("q", {o.uid}), s1) && Moves(s1, interval, HandleAdd("q", o), s2)
    ensures s2 == Net(
      map["q" := FieldState(kind, selector, map[], map[], false, false)],
      map["q" := Watcher(true, 1, 1, false, Some(RawUpdate("q", true, None, Some(o))), false, {o.uid}, {o.uid}, {})],
      init.listener, 0, 0)
  {
    init := Net(map["q" := FieldState(kind, selector, map[], map[], false, false)],
                map["q" := Watcher(false, 0, 0, false, None, false, {}, {}, {})],
                Listener(AwaitingDispatch, None, false), 0, 0);
    s1 := Apply(init, interval, List("q", {o.uid}));
    s2 := Apply(s1, interval, HandleAdd("q", o));
  }

  /** Main result, no lost notification: whenever an update has been stored that nobody was told
      of, the loop is still waiting to tell, and if every query has synced the next tick does. */
  lemma {:induction false} NothingGoesUnannounced(init: Net, interval: int, steps: seq<Step>, now: int)
    requires Initial(init) && ValidRun(init, interval, steps)
    requires Final(init, interval, steps).unannounced > 0
    ensures var s := Final(init, interval, steps);
      && s.listener.status == AwaitingDispatch
      && (AllFieldsSynced(s.fields) ==>
            Apply(s, interval, Tick(now)).notified == s.notified + 1 && Apply(s, interval, Tick(now)).unannounced == 0)
      && (!AllFieldsSynced(s.fields) ==> s.notified == 0)
  {
    OutboxNames(Final(init, interval, steps));
  }
}
