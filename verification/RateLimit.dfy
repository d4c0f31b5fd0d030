/** The memory-driven rate limiter for Envoy reconfigurations (pkg/ambex/ratelimit.go). */
module RateLimit {

  /** What wakes the loop: an update arrives or the ticker fires. `usage` is the memory usage in
      percent at that moment, `fails` whether pushing now would return an error. */
  datatype Event =
    | Arrive(now: int, usage: int, fails: bool)
    | Tick(now: int, usage: int, fails: bool)

  datatype Config = Config(drainTime: int, disabled: bool)

  /** A push: when, which update (by order of arrival), under which limit (0 for none), and how
      many updates had arrived by then. */
  datatype Push = Push(time: int, update: int, limit: nat, received: nat)

  function MaxStale(cfg: Config, usage: int): nat {
    var u := if cfg.disabled then 0 else usage;
    if u >= 90 then 1
    else if u >= 80 then 15
    else if u >= 70 then 30
    else if u >= 60 then 60
    else if u >= 50 then 120
    else 0
  }

  /** The times whose configurations have not drained by `now`. */
  function Draining(times: seq<int>, now: int, drainTime: int): (r: seq<int>) {
    if times == [] then []
    else
      var front, last := times[..|times| - 1], times[|times| - 1];
      Draining(front, now, drainTime) + if last + drainTime > now then [last] else []
  }

  method GcUpdateTimes(updateTimes: seq<int>, now: int, drainTime: int) returns (result: seq<int>)
    ensures result == Draining(updateTimes, now, drainTime)
  {
    result := [];
    for i := 0 to |updateTimes|
      invariant result == Draining(updateTimes[..i], now, drainTime)
    {
      assert updateTimes[..i + 1][..i] == updateTimes[..i];
      if updateTimes[i] + drainTime > now {
        result := result + [updateTimes[i]];
      }
    }
    assert updateTimes[..|updateTimes|] == updateTimes;
  }

  // ---------------------------------------------------------------- the loop

  /** The loop's variables, and what it has received and pushed so far. */
  datatype State = State(
    updateTimes: seq<int>, latest: int, gotFirst: bool, pushed: bool,
    received: nat, pushes: seq<Push>, stopped: bool)

  const INIT: State := State([], -1, false, false, 0, [], false)

  function Wake(cfg: Config, s: State, e: Event): State {
    if s.stopped || (e.Tick? && s.pushed) then s
    else
      var s1 := if e.Arrive? then
        s.(latest := s.received, pushed := false, gotFirst := true, received := s.received + 1) else s;
      var times := Draining(s1.updateTimes, e.now, cfg.drainTime);
      var limit := MaxStale(cfg, e.usage);
      if (limit > 0 && |times| >= limit) || !s1.gotFirst then s1.(updateTimes := times)
      else if e.fails then s1.(updateTimes := times, stopped := true)
      else s1.(updateTimes := times + [e.now], pushed := true,
               pushes := s1.pushes + [Push(e.now, s1.latest, limit, s1.received)])
  }

  function Run(cfg: Config, events: seq<Event>): State {
    if events == [] then INIT else Wake(cfg, Run(cfg, events[..|events| - 1]), events[|events| - 1])
  }

  lemma RunStep(cfg: Config, events: seq<Event>, i: nat)
    requires i < |events|
    ensures Run(cfg, events[..i + 1]) == Wake(cfg, Run(cfg, events[..i]), events[i])
  {
    assert events[..i + 1][..i] == events[..i];
  }

  lemma RunSnoc(cfg: Config, events: seq<Event>, e: Event)
    ensures Run(cfg, events + [e]) == Wake(cfg, Run(cfg, events), e)
  {
    assert (events + [e])[..|events|] == events;
  }

  lemma RunAll(cfg: Config, events: seq<Event>)
    ensures Run(cfg, events[..0]) == INIT
    ensures Run(cfg, events[..|events|]) == Run(cfg, events)
  {
    assert events[..|events|] == events;
  }

  /** updaterWithTicker, over the events its select statement will see. */
  method UpdaterWithTicker(cfg: Config, events: seq<Event>) returns (pushes: seq<Push>, err: bool)
    ensures pushes == Run(cfg, events).pushes && err == Run(cfg, events).stopped
  {
    hide Run, Draining, MaxStale;
    RunAll(cfg, events);
    var updateTimes: seq<int> := [];
    var latest, gotFirst, pushed := -1, false, false;
    var received := 0;
    pushes, err := [], false;
    for i := 0 to |events|
      invariant !err
      invariant Run(cfg, events[..i]) == State(updateTimes, latest, gotFirst, pushed, received, pushes, false)
    {
      RunStep(cfg, events, i);
      var e := events[i];
      if e.Arrive? {
        latest, pushed, gotFirst, received := received, false, true, received + 1;
      } else if pushed {
        continue;
      }
      updateTimes := GcUpdateTimes(updateTimes, e.now, cfg.drainTime);
      var maxStaleReconfigs := MaxStale(cfg, e.usage);
      if maxStaleReconfigs > 0 && |updateTimes| >= maxStaleReconfigs {
        continue;
      }
      if !gotFirst {
        continue;
      }
      if e.fails {
        err := true;
        RunStopped(cfg, events, i + 1);
        return;
      }
      updateTimes := updateTimes + [e.now];
      pushed := true;
      pushes := pushes + [Push(e.now, latest, maxStaleReconfigs, received)];
    }
  }

  lemma {:induction false} RunStopped(cfg: Config, events: seq<Event>, i: nat)
    requires i <= |events| && Run(cfg, events[..i]).stopped
    ensures Run(cfg, events) == Run(cfg, events[..i])
    decreases |events|
  {
    if i == |events| {
      assert events[..i] == events;
    } else {
      assert events[..|events| - 1][..i] == events[..i];
      RunStopped(cfg, events[..|events| - 1], i);
    }
  }

  // ---------------------------------------------------------------- the window

  predicate Ordered(events: seq<Event>) {
    forall i, j :: 0 <= i <= j < |events| ==> events[i].now <= events[j].now
  }

  function Times(pushes: seq<Push>): (ts: seq<int>)
    ensures |ts| == |pushes| && forall i :: 0 <= i < |ts| ==> ts[i] == pushes[i].time
  {
    seq(|pushes|, i requires 0 <= i < |pushes| => pushes[i].time)
  }

  lemma {:induction false} DrainingTwice(times: seq<int>, t1: int, t2: int, drainTime: int)
    requires t1 <= t2
    ensures Draining(Draining(times, t1, drainTime), t2, drainTime) == Draining(times, t2, drainTime)
  {
    if times != [] {
      var front, last := times[..|times| - 1], times[|times| - 1];
      DrainingTwice(front, t1, t2, drainTime);
      if last + drainTime > t1 {
        var d := Draining(front, t1, drainTime);
        assert (d + [last])[..|d|] == d;
      } else {
        assert Draining(front, t1, drainTime) + [] == Draining(front, t1, drainTime);
      }
    }
  }

  lemma DrainingSnoc(times: seq<int>, t: int, now: int, drainTime: int)
    ensures Draining(times + [t], now, drainTime) ==
      Draining(times, now, drainTime) + if t + drainTime > now then [t] else []
  {
    assert (times + [t])[..|times|] == times;
  }

  /** The recorded times forget nothing that is still draining: collecting garbage now or from
      the full history of pushes gives the same list. */
  ghost predicate Faithful(cfg: Config, s: State, now: int) {
    forall t :: t >= now ==> Draining(s.updateTimes, t, cfg.drainTime) == Draining(Times(s.pushes), t, cfg.drainTime)
  }

  lemma WakeFaithful(cfg: Config, s: State, e: Event)
    requires Faithful(cfg, s, e.now)
    ensures Faithful(cfg, Wake(cfg, s, e), e.now)
  {
    var s' := Wake(cfg, s, e);
    var times := Draining(s.updateTimes, e.now, cfg.drainTime);
    forall t | t >= e.now
      ensures Draining(s'.updateTimes, t, cfg.drainTime) == Draining(Times(s'.pushes), t, cfg.drainTime)
    {
      DrainingTwice(s.updateTimes, e.now, t, cfg.drainTime);
      if |s'.pushes| > |s.pushes| {
        assert Times(s'.pushes) == Times(s.pushes) + [e.now];
        DrainingSnoc(times, e.now, t, cfg.drainTime);
        DrainingSnoc(Times(s.pushes), e.now, t, cfg.drainTime);
      }
    }
  }

  lemma {:induction false} RunFaithful(cfg: Config, events: seq<Event>, now: int)
    requires Ordered(events) && forall i :: 0 <= i < |events| ==> events[i].now <= now
    ensures Faithful(cfg, Run(cfg, events), now)
    decreases |events|
  {
    if events != [] {
      var last := events[|events| - 1];
      RunFaithful(cfg, events[..|events| - 1], last.now);
      WakeFaithful(cfg, Run(cfg, events[..|events| - 1]), last);
    }
  }

  /** There is an update nobody has pushed. */
  predicate Waiting(s: State, e: Event) {
    e.Arrive? || (s.received > 0 && !(s.pushes != [] && s.pushes[|s.pushes| - 1].update == s.received - 1))
  }

  /** The pushes still draining, over the whole history, are fewer than the limit. */
  predicate Room(cfg: Config, s: State, e: Event) {
    var limit := MaxStale(cfg, e.usage);
    limit == 0 || |Draining(Times(s.pushes), e.now, cfg.drainTime)| < limit
  }

  lemma WakePushes(cfg: Config, s: State, e: Event)
    requires Faithful(cfg, s, e.now) && Tracks(s) && !s.stopped && !e.fails
    ensures var s' := Wake(cfg, s, e);
      s'.pushes == s.pushes +
        if Waiting(s, e) && Room(cfg, s, e) then [Push(e.now, s'.received - 1, MaxStale(cfg, e.usage), s'.received)]
          else []
  {
    hide Draining, MaxStale, Times;
  }

  /** Main result: at any wake-up that is not skipped, an update goes out exactly when there is
      one nobody has pushed and the pushes still draining, over the whole history, are fewer
      than the limit; and it is the one that arrived last. */
  lemma PushExactlyWhenRoom(cfg: Config, events: seq<Event>, e: Event)
    requires Ordered(events + [e]) && !Run(cfg, events).stopped && !e.fails
    ensures var s, s' := Run(cfg, events), Run(cfg, events + [e]);
      s'.pushes == s.pushes +
        if Waiting(s, e) && Room(cfg, s, e) then [Push(e.now, s'.received - 1, MaxStale(cfg, e.usage), s'.received)]
          else []
  {
    hide *;
    OrderedSnoc(events, e);
    RunFaithful(cfg, events, e.now);
    RunTracks(cfg, events);
    RunSnoc(cfg, events, e);
    WakePushes(cfg, Run(cfg, events), e);
  }

  lemma OrderedSnoc(events: seq<Event>, e: Event)
    requires Ordered(events + [e])
    ensures Ordered(events) && forall i :: 0 <= i < |events| ==> events[i].now <= e.now
  {
    forall i, j | 0 <= i <= j < |events| ensures events[i].now <= events[j].now && events[i].now <= e.now {
      assert (events + [e])[i] == events[i] && (events + [e])[j] == events[j] && (events + [e])[|events|] == e;
    }
  }

  // ---------------------------------------------------------------- which update is pushed

  /** `pushed` says whether the newest update is out, and pushes go by order of arrival. */
  predicate Tracks(s: State) {
    && s.latest == s.received - 1
    && (s.gotFirst <==> s.received > 0)
    && (s.pushed <==> s.pushes != [] && s.pushes[|s.pushes| - 1].update == s.latest)
    && (forall i :: 0 <= i < |s.pushes| ==>
         0 <= s.pushes[i].update == s.pushes[i].received - 1 && s.pushes[i].received <= s.received)
    && (forall i, j :: 0 <= i < j < |s.pushes| ==> s.pushes[i].update < s.pushes[j].update)
  }

  lemma {:induction false} RunTracks(cfg: Config, events: seq<Event>)
    ensures Tracks(Run(cfg, events))
    decreases |events|
  {
    if events != [] {
      RunTracks(cfg, events[..|events| - 1]);
      WakeTracks(cfg, Run(cfg, events[..|events| - 1]), events[|events| - 1]);
    }
  }

  lemma WakeTracks(cfg: Config, s: State, e: Event)
    requires Tracks(s)
    ensures Tracks(Wake(cfg, s, e))
  {
  }

  /** Main result: every push is of the update received last at that moment, so none is pushed
      twice, none after a newer one arrived, and none before the first. */
  lemma PushesAreCurrent(cfg: Config, events: seq<Event>, i: nat)
    requires i < |Run(cfg, events).pushes|
    ensures var ps := Run(cfg, events).pushes;
      0 <= ps[i].update == ps[i].received - 1 && forall j: nat | j < i :: ps[j].update < ps[i].update
  {
    RunTracks(cfg, events);
  }

  // ---------------------------------------------------------------- the bound

  lemma {:induction false} DrainingLength(times: seq<int>, now: int, drainTime: int)
    ensures |Draining(times, now, drainTime)| <= |times|
    ensures forall i :: 0 <= i < |times| && times[i] + drainTime > now ==> |Draining(times, now, drainTime)| >= 1
  {
    if times != [] {
      DrainingLength(times[..|times| - 1], now, drainTime);
    }
  }

  /** As many as there are times within the drain time. */
  lemma {:induction false} DrainingCounts(times: seq<int>, now: int, drainTime: int)
    ensures |Draining(times, now, drainTime)| == |set i: nat | i < |times| && times[i] + drainTime > now|
  {
    if times != [] {
      var n := |times| - 1;
      var front := times[..n];
      DrainingCounts(front, now, drainTime);
      var some := set i: nat | i < |front| && front[i] + drainTime > now;
      var all := set i: nat | i < |times| && times[i] + drainTime > now;
      assert all == some + if times[n] + drainTime > now then {n} else {};
    }
  }

  /** The limit is respected by the `k`-th push against all pushes up to it. */
  predicate Bounded(cfg: Config, pushes: seq<Push>, k: nat)
    requires k < |pushes|
  {
    pushes[k].limit > 0 ==> |Draining(Times(pushes[..k + 1]), pushes[k].time, cfg.drainTime)| <= pushes[k].limit
  }

  lemma WakeBounded(cfg: Config, s: State, e: Event)
    requires Faithful(cfg, s, e.now) && |Wake(cfg, s, e).pushes| > |s.pushes|
    ensures Bounded(cfg, Wake(cfg, s, e).pushes, |s.pushes|)
  {
    var s' := Wake(cfg, s, e);
    assert s'.pushes[..|s.pushes| + 1] == s'.pushes && Times(s'.pushes) == Times(s.pushes) + [e.now];
    DrainingSnoc(Times(s.pushes), e.now, e.now, cfg.drainTime);
  }

  lemma WakeExtends(cfg: Config, s: State, e: Event)
    ensures |s.pushes| <= |Wake(cfg, s, e).pushes| <= |s.pushes| + 1
    ensures Wake(cfg, s, e).pushes[..|s.pushes|] == s.pushes
  {
  }

  /** Main result: whenever a push is made under a limit M, at most M pushes including it lie
      within the last drain time. */
  lemma WindowBound(cfg: Config, events: seq<Event>, k: nat)
    requires Ordered(events) && k < |Run(cfg, events).pushes| && Run(cfg, events).pushes[k].limit > 0
    ensures var ps := Run(cfg, events).pushes;
      |set i: nat | i <= k && ps[i].time + cfg.drainTime > ps[k].time| <= ps[k].limit
  {
    var ps := Run(cfg, events).pushes;
    RunBounded(cfg, events, k);
    var times := Times(ps[..k + 1]);
    DrainingCounts(times, ps[k].time, cfg.drainTime);
    assert (set i: nat | i <= k && ps[i].time + cfg.drainTime > ps[k].time) ==
           (set i: nat | i < |times| && times[i] + cfg.drainTime > ps[k].time);
    hide Run;
  }

  lemma {:induction false} RunBounded(cfg: Config, events: seq<Event>, k: nat)
    requires Ordered(events) && k < |Run(cfg, events).pushes|
    ensures Bounded(cfg, Run(cfg, events).pushes, k)
    decreases |events|
  {
    var front, e := events[..|events| - 1], events[|events| - 1];
    hide Wake, Draining, Times, Bounded, Ordered;
    assert front + [e] == events;
    OrderedSnoc(front, e);
    var s := Run(cfg, front);
    if k < |s.pushes| {
      RunBounded(cfg, front, k);
    } else {
      RunFaithful(cfg, front, e.now);
    }
    OneWakeBounded(cfg, s, e, k);
  }

  lemma OneWakeBounded(cfg: Config, s: State, e: Event, k: nat)
    requires k < |Wake(cfg, s, e).pushes| && if k < |s.pushes| then Bounded(cfg, s.pushes, k)
      else Faithful(cfg, s, e.now)
    ensures Bounded(cfg, Wake(cfg, s, e).pushes, k)
  {
    WakeExtends(cfg, s, e);
    hide *;
    if k < |s.pushes| {
      BoundedPrefix(cfg, s.pushes, Wake(cfg, s, e).pushes, k);
    } else {
      WakeBounded(cfg, s, e);
    }
  }

  lemma BoundedPrefix(cfg: Config, some: seq<Push>, all: seq<Push>, k: nat)
    requires k < |some| <= |all| && some == all[..|some|]
    ensures Bounded(cfg, some, k) <==> Bounded(cfg, all, k)
  {
    assert some[..k + 1] == all[..k + 1];
  }

  /** Pushes are in the order of their times, none after `now`. */
  predicate InTime(ps: seq<Push>, now: int) {
    (forall i: nat | i < |ps| :: ps[i].time <= now) && forall i: nat, j: nat | i <= j < |ps| :: ps[i].time <= ps[j].time
  }

  lemma {:induction false} PushesInTime(cfg: Config, events: seq<Event>, now: int)
    requires Ordered(events) && forall i :: 0 <= i < |events| ==> events[i].now <= now
    ensures InTime(Run(cfg, events).pushes, now)
    decreases |events|
  {
    if events != [] {
      var front, e := events[..|events| - 1], events[|events| - 1];
      PushesInTime(cfg, front, e.now);
      WakeInTime(cfg, Run(cfg, front), e, now);
      hide Wake, InTime;
    }
  }

  lemma WakeInTime(cfg: Config, s: State, e: Event, now: int)
    requires InTime(s.pushes, e.now) && e.now <= now
    ensures InTime(Wake(cfg, s, e).pushes, now)
  {
    hide Draining, MaxStale;
  }

  /** Main result: a push made at 90 percent usage or more comes a full drain time after the
      push before it. */
  lemma TightMemorySpacing(cfg: Config, events: seq<Event>, k: nat)
    requires Ordered(events) && 0 < k < |Run(cfg, events).pushes|
    requires Run(cfg, events).pushes[k].limit == 1
    ensures var ps := Run(cfg, events).pushes; ps[k].time >= ps[k - 1].time + cfg.drainTime
  {
    var ps := Run(cfg, events).pushes;
    if cfg.drainTime <= 0 {
      PushesInTime(cfg, events, events[|events| - 1].now);
      return;
    }
    RunBounded(cfg, events, k);
    var before := Times(ps[..k]);
    assert Times(ps[..k + 1]) == before + [ps[k].time];
    DrainingSnoc(before, ps[k].time, ps[k].time, cfg.drainTime);
    DrainingLength(before, ps[k].time, cfg.drainTime);
    assert before[k - 1] == ps[k - 1].time;
  }
}
