/** Health of diagd, Envoy and the Ambassador as a whole (pkg/acp). Times are in seconds. */
module Health {
  import opened Wrappers

  const BOOT_GRACE := 600
  const ENVOY_GRACE := 30

  /** What happens to the watchers: a snapshot sent or processed, an Envoy check with its result,
      a question whether the Ambassador is alive. */
  datatype Event = Sent(t: int) | Processed(t: int) | Checked(ok: bool) | Asked(t: int)

  datatype Phase = EnvoyNotStarted | EnvoyStarting | EnvoyRunning

  datatype State = State(
    lastSent: Option<int>, lastProcessed: Option<int>, diagdGrace: int,
    envoyOk: bool, phase: Phase, envoyGrace: Option<int>)

  // ---------------------------------------------------------------- verdicts and steps

  predicate DiagdAlive(s: State, now: int) {
    (s.lastSent.Some? && s.lastProcessed.Some? && s.lastSent.value < s.lastProcessed.value) || now < s.diagdGrace
  }

  predicate Alive(s: State, now: int) {
    DiagdAlive(s, now) &&
    match s.phase
    case EnvoyNotStarted => true
    case EnvoyStarting => s.envoyOk || (s.envoyGrace.Some? && now < s.envoyGrace.value)
    case EnvoyRunning => s.envoyOk
  }

  function Next(s: State, e: Event): State {
    match e
    case Sent(t) =>
      s.(lastSent := Some(t), diagdGrace := if s.lastProcessed.Some? then t + BOOT_GRACE else s.diagdGrace)
    case Processed(t) =>
      var s' := s.(lastProcessed := Some(t));
      if s.phase == EnvoyNotStarted then s'.(phase := EnvoyStarting, envoyGrace := Some(t + ENVOY_GRACE)) else s'
    case Checked(ok) => s.(envoyOk := ok)
    case Asked(t) => if DiagdAlive(s, t) && s.phase == EnvoyStarting && s.envoyOk then s.(phase := EnvoyRunning) else s
  }

  function After(boot: int, events: seq<Event>): State {
    if events == [] then State(None, None, boot + BOOT_GRACE, false, EnvoyNotStarted, None)
    else Next(After(boot, events[..|events| - 1]), events[|events| - 1])
  }

  lemma AfterOneMore(boot: int, events: seq<Event>, e: Event)
    ensures After(boot, events + [e]) == Next(After(boot, events), e)
  {
    assert (events + [e])[..|events|] == events;
  }

  // ---------------------------------------------------------------- the watchers

  class DiagdWatcher {
    var lastSent: Option<int>
    var lastProcessed: Option<int>
    var graceEnd: int

    constructor (boot: int)
      ensures lastSent == None && lastProcessed == None && graceEnd == boot + BOOT_GRACE
    {
      lastSent, lastProcessed, graceEnd := None, None, boot + BOOT_GRACE;
    }

    method NoteSnapshotSent(now: int)
      modifies this
      ensures lastSent == Some(now) && lastProcessed == old(lastProcessed)
      ensures graceEnd == if lastProcessed.Some? then now + BOOT_GRACE else old(graceEnd)
    {
      lastSent := Some(now);
      if lastProcessed.Some? {
        graceEnd := now + BOOT_GRACE;
      }
    }

    method NoteSnapshotProcessed(now: int)
      modifies this`lastProcessed
      ensures lastProcessed == Some(now)
    {
      lastProcessed := Some(now);
    }

    method IsAlive(now: int) returns (alive: bool)
      ensures alive <==>
        (lastSent.Some? && lastProcessed.Some? && lastSent.value < lastProcessed.value) || now < graceEnd
    {
      if lastSent.Some? && lastProcessed.Some? && lastSent.value < lastProcessed.value {
        return true;
      }
      alive := now < graceEnd;
    }
  }

  class AmbassadorWatcher {
    const dw: DiagdWatcher
    var envoyLastSucceeded: bool
    var phase: Phase
    var graceEnd: Option<int>
    ghost const boot: int
    ghost var events: seq<Event>

    ghost function Here(): State
      reads this, dw
    {
      State(dw.lastSent, dw.lastProcessed, dw.graceEnd, envoyLastSucceeded, phase, graceEnd)
    }

    /** The fields are what the events so far make them. */
    ghost predicate Valid()
      reads this, dw
    {
      Here() == After(boot, events)
    }

    constructor (boot: int)
      ensures Valid() && fresh(dw) && events == [] && this.boot == boot
    {
      dw := new DiagdWatcher(boot);
      envoyLastSucceeded, phase, graceEnd := false, EnvoyNotStarted, None;
      this.boot, events := boot, [];
    }

    ghost method Note(e: Event)
      requires Here() == Next(After(boot, events), e)
      modifies this`events
      ensures Valid() && events == old(events) + [e]
    {
      AfterOneMore(boot, events, e);
      hide After, Next;
      events := events + [e];
    }

    /** `response` is the status code of the ready check, if it answered. */
    method FetchEnvoyReady(response: Option<int>)
      requires Valid()
      modifies this`envoyLastSucceeded, this`events
      ensures Valid() && events == old(events) + [Checked(response == Some(200))]
    {
      envoyLastSucceeded := response.Some? && response.value == 200;
      Note(Checked(response == Some(200)));
    }

    method NoteSnapshotSent(now: int)
      requires Valid()
      modifies this`events, dw
      ensures Valid() && events == old(events) + [Sent(now)]
    {
      dw.NoteSnapshotSent(now);
      Note(Sent(now));
    }

    method NoteSnapshotProcessed(now: int)
      requires Valid()
      modifies this`phase, this`graceEnd, this`events, dw
      ensures Valid() && events == old(events) + [Processed(now)]
    {
      dw.NoteSnapshotProcessed(now);
      if phase == EnvoyNotStarted {
        phase, graceEnd := EnvoyStarting, Some(now + ENVOY_GRACE);
      }
      Note(Processed(now));
    }

    method IsAlive(now: int) returns (alive: bool)
      requires Valid()
      modifies this`phase, this`events
      ensures Valid() && events == old(events) + [Asked(now)] && alive == Alive(After(boot, old(events)), now)
    {
      alive := dw.IsAlive(now);
      if alive {
        match phase
        case EnvoyNotStarted =>
        case EnvoyStarting =>
          if envoyLastSucceeded {
            phase := EnvoyRunning;
          } else {
            alive := graceEnd.Some? && now < graceEnd.value;
          }
        case EnvoyRunning => alive := envoyLastSucceeded;
      }
      Note(Asked(now));
    }
  }

  // ---------------------------------------------------------------- whole runs

  /** A snapshot was sent at `i` after one had been processed. */
  predicate Renews(events: seq<Event>, i: nat) {
    i < |events| && events[i].Sent? && exists j: nat :: j < i && events[j].Processed?
  }

  lemma {:induction false} ProcessedExactly(boot: int, events: seq<Event>)
    ensures After(boot, events).lastProcessed.Some? <==> exists i: nat :: i < |events| && events[i].Processed?
    ensures After(boot, events).phase == EnvoyNotStarted <==> !exists i: nat :: i < |events| && events[i].Processed?
  {
    if events != [] {
      var n := |events| - 1;
      var before := events[..n];
      ProcessedExactly(boot, before);
      assert forall i: nat | i < n :: before[i] == events[i];
      assert (exists i: nat :: i < |events| && events[i].Processed?) <==>
        events[n].Processed? || exists i: nat :: i < |before| && before[i].Processed?;
    }
  }

  /** diagd's grace ends ten minutes after the latest snapshot sent once one had been processed;
      without such a snapshot, ten minutes after boot. */
  lemma {:induction false} GraceExactly(boot: int, events: seq<Event>)
    ensures (forall i: nat :: !Renews(events, i)) ==> After(boot, events).diagdGrace == boot + BOOT_GRACE
    ensures forall i: nat :: Renews(events, i) && (forall k: nat :: Renews(events, k) ==> k <= i) ==>
      After(boot, events).diagdGrace == events[i].t + BOOT_GRACE
  {
    if events != [] {
      var n := |events| - 1;
      var before := events[..n];
      GraceExactly(boot, before);
      ProcessedExactly(boot, before);
      assert forall i: nat | i < n :: before[i] == events[i];
      forall i: nat | i < n ensures Renews(events, i) <==> Renews(before, i) {
        assert forall j: nat | j < i :: before[j] == events[j];
      }
      assert Renews(events, n) <==> events[n].Sent? && exists j: nat :: j < |before| && before[j].Processed?;
    }
  }

  /** However many snapshots are sent, a diagd that never processed one is given up ten minutes
      after boot, and the Ambassador with it. */
  lemma NeverProcessedNotAlive(boot: int, events: seq<Event>, now: int)
    requires forall i: nat | i < |events| :: !events[i].Processed?
    requires boot + BOOT_GRACE <= now
    ensures !DiagdAlive(After(boot, events), now) && !Alive(After(boot, events), now)
  {
    ProcessedExactly(boot, events);
    GraceExactly(boot, events);
  }

  function Rank(p: Phase): nat {
    match p case EnvoyNotStarted => 0 case EnvoyStarting => 1 case EnvoyRunning => 2
  }

  /** The phase only moves forward, and Envoy's grace period is set once: thirty seconds after the
      first snapshot was processed. */
  lemma {:induction false} OnlyForward(boot: int, events: seq<Event>, n: nat)
    requires n <= |events|
    ensures var s, s' := After(boot, events[..n]), After(boot, events);
      Rank(s.phase) <= Rank(s'.phase) && (s.envoyGrace.Some? ==> s'.envoyGrace == s.envoyGrace)
      && (s'.phase == EnvoyNotStarted <==> s'.envoyGrace.None?)
    decreases |events|
  {
    if n < |events| {
      OnlyForward(boot, events[..|events| - 1], n);
      assert events[..|events| - 1][..n] == events[..n];
    } else {
      assert events[..n] == events;
      if events != [] {
        OnlyForward(boot, events[..|events| - 1], |events| - 1);
      }
    }
  }

  lemma GraceSetByFirst(boot: int, events: seq<Event>, i: nat)
    requires i < |events| && events[i].Processed? && forall k: nat | k < i :: !events[k].Processed?
    ensures After(boot, events).envoyGrace == Some(events[i].t + ENVOY_GRACE)
  {
    ProcessedExactly(boot, events[..i]);
    assert events[..i + 1][..i] == events[..i];
    OnlyForward(boot, events, i + 1);
  }

  predicate CheckedOk(events: seq<Event>, j: nat) {
    j < |events| && events[j] == Checked(true)
  }

  lemma {:induction false} OkMeansChecked(boot: int, events: seq<Event>)
    requires After(boot, events).envoyOk
    ensures exists j: nat :: CheckedOk(events, j)
  {
    var n := |events| - 1;
    if events[n].Checked? {
      assert CheckedOk(events, n);
    } else {
      OkMeansChecked(boot, events[..n]);
      var j: nat :| CheckedOk(events[..n], j);
      assert CheckedOk(events, j);
    }
  }

  /** Envoy counts as running only after a snapshot was processed and, before somebody asked, an
      Envoy check had succeeded. */
  lemma {:induction false} RunningMeans(boot: int, events: seq<Event>) returns (i: nat, j: nat, k: nat)
    requires After(boot, events).phase == EnvoyRunning
    ensures i < k < |events| && events[i].Processed? && j < k && events[j] == Checked(true) && events[k].Asked?
  {
    var n := |events| - 1;
    var before := events[..n];
    if After(boot, before).phase == EnvoyRunning {
      i, j, k := RunningMeans(boot, before);
    } else {
      ProcessedExactly(boot, before);
      OkMeansChecked(boot, before);
      i :| i < |before| && before[i].Processed?;
      j :| CheckedOk(before, j);
      k := n;
    }
  }

  /** An Envoy that has not answered thirty seconds after the first snapshot was processed, or that
      stops answering later, makes the Ambassador not alive. */
  lemma SilentEnvoyNotAlive(boot: int, events: seq<Event>, i: nat, now: int)
    requires i < |events| && events[i].Processed? && forall k: nat | k < i :: !events[k].Processed?
    requires !After(boot, events).envoyOk && events[i].t + ENVOY_GRACE <= now
    ensures !Alive(After(boot, events), now)
  {
    GraceSetByFirst(boot, events, i);
    ProcessedExactly(boot, events);
  }
}
