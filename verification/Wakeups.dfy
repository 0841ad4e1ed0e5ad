/** No missed and no busy wake-ups of the renew loop. */
module Wakeups {
  import opened Prelude
  import opened Mapping
  import opened Config
  import opened Lifecycle
  import opened Scheduler
  import opened Refinement
  import opened Netip
  import opened Example

  /** The mappings whose passes a history starts, in order. */
  function Wakes(log: seq<Event>): seq<Key> {
    if log == [] then []
    else if log[|log| - 1].Wake? then Wakes(log[..|log| - 1]) + [log[|log| - 1].key]
    else Wakes(log[..|log| - 1])
  }

  /** The configured mappings that are due, in configuration order. */
  function DueOf(rs: seq<Request>, nextAt: map<Key, Time>, now: Time): seq<Key> {
    if rs == [] then []
    else
      var before, k := DueOf(rs[..|rs| - 1], nextAt, now), KeyOf(rs[|rs| - 1]);
      if k in nextAt && nextAt[k] <= now then before + [k] else before
  }

  ghost predicate Soonest(nextAt: map<Key, Time>, t: Time) {
    (exists k :: k in nextAt && nextAt[k] == t) && (forall k <- nextAt :: t <= nextAt[k])
  }

  /** The clock never runs backwards. */
  ghost predicate Monotone(env: Env) {
    forall i: nat, j: nat :: i <= j ==> env.now(i) <= env.now(j)
  }

  /** One clock serves the daemon and the client: it never runs backwards, a lease
      is dated no earlier than the call that got it, and half of it is some time. */
  ghost predicate SharedClock(env: Env) {
    && Monotone(env)
    && (forall i: nat :: env.mapAnswer(i).Granted? ==>
          env.now(i) <= env.mapAnswer(i).lease.acquired && 2 <= env.mapAnswer(i).lease.lifetime)
  }

  /** Half of every lease granted in a history ends after the given time. */
  predicate GrantsOutlast(tr: seq<Event>, now: Time) {
    forall e <- tr :: e.Map? && GrantAccepted(e.sent, e.answer) ==>
      e.answer.lease.acquired + e.answer.lease.lifetime / 2 > now
  }

  /** The events from state s on. */
  function Since(s: State, s': State): seq<Event> {
    if |s.log| <= |s'.log| then s'.log[|s.log|..] else []
  }

  predicate AllLater(s: State, now: Time) { forall k <- s.nextAt :: s.nextAt[k] > now }

  /** The timer set in state s does not fire early. The pass reads its clock two
      ticks after timeUntilNext did. */
  ghost predicate TimerHonest(env: Env, s: State) {
    forall t :: Soonest(s.nextAt, t) ==>
      env.now(s.tick + 2) >= env.now(s.tick) + Max(t - env.now(s.tick), 0)
  }

  lemma {:induction false} SoonestExists(nextAt: map<Key, Time>)
    requires nextAt.Keys != {}
    ensures exists t :: Soonest(nextAt, t)
    decreases |nextAt|
  {
    var k :| k in nextAt;
    var rest := nextAt - {k};
    if rest.Keys == {} {
      assert forall k' <- nextAt :: k' == k || k' in rest;
      assert Soonest(nextAt, nextAt[k]);
    } else {
      assert nextAt.Keys == rest.Keys + {k};
      SoonestExists(rest);
      var t :| Soonest(rest, t);
      assert Soonest(nextAt, Min(t, nextAt[k])) by {
        assert forall k' <- nextAt :: k' == k || k' in rest;
      }
    }
  }

  lemma ClockAdvances(env: Env, i: nat, j: nat)
    requires Monotone(env) && i <= j
    ensures env.now(i) <= env.now(j)
  {
  }

  lemma WakesEmit(log: seq<Event>, e: Event)
    ensures Wakes(log + [e]) == if e.Wake? then Wakes(log) + [e.key] else Wakes(log)
  {
    assert (log + [e])[..|log|] == log;
  }

  lemma AttemptWakes(env: Env, s: State, r: Request)
    ensures Wakes(Attempt(env, s, r).log) == Wakes(s.log)
  {
    hide Wakes;
    var k := KeyOf(r);
    var e := Map(k, MapRequest(r, Get(s.leases, k)), env.mapAnswer(s.tick));
    WakesEmit(s.log, e);
    WakesEmit(s.log + [e], Clock(k, env.now(s.tick + 1)));
  }

  lemma ParkWakes(env: Env, s: State, r: Request)
    ensures Wakes(Park(env, s, r).log) == Wakes(s.log)
  {
    hide Wakes;
    var k, s' := KeyOf(r), ReleaseOne(env, s, r);
    if k in s.leases {
      WakesEmit(s.log, Unmap(k, ReleaseRequest(r, s.leases[k]), env.unmapOk(s.tick)));
    }
    WakesEmit(s'.log, Clock(k, env.now(s'.tick)));
  }

  /** A pass over a mapping is one wake-up of it. */
  lemma ReconcileWakes(env: Env, s: State, r: Request, at: Option<Time>)
    ensures Wakes(ReconcileOne(env, WakeUp(s, KeyOf(r), at), r).log) == Wakes(s.log) + [KeyOf(r)]
  {
    hide Wakes;
    hide Park;
    hide Attempt;
    var w := WakeUp(s, KeyOf(r), at);
    WakesEmit(s.log, Wake(KeyOf(r), at));
    AttemptWakes(env, w, r);
    if r.requireListener {
      var e := Check(KeyOf(r), env.presence(w.tick));
      WakesEmit(w.log, e);
      AttemptWakes(env, Emit(w, e), r);
      ParkWakes(env, Emit(w, e), r);
    }
  }

  /** A pass that starts at a time the clock has reached reschedules its mapping past
      that time exactly if half of the lease it was granted, if any, ends later; it
      does with a shared clock. */
  ghost predicate ReschedulesLater(env: Env, s: State, s': State, k: Key, now: Time) {
    && s.log <= s'.log
    && k in s'.nextAt
    && (s'.nextAt[k] > now <==> GrantsOutlast(Since(s, s'), now))
    && (SharedClock(env) ==> s'.nextAt[k] > now)
  }

  lemma ReconcileLater(env: Env, s: State, r: Request, now: Time)
    requires Monotone(env) && now <= env.now(s.tick)
    ensures ReschedulesLater(env, s, ReconcileOne(env, s, r), KeyOf(r), now)
  {
    hide Park;
    hide Attempt;
    AttemptLater(env, s, r, now);
    if r.requireListener {
      var e := Check(KeyOf(r), env.presence(s.tick));
      var s' := Emit(s, e);
      ClockAdvances(env, s.tick, s'.tick);
      AttemptLater(env, s', r, now);
      ParkLater(env, s', r, now);
      OutlastPrepend(s, e, s', ReconcileOne(env, s, r), now);
    }
  }

  /** An event before a history that grants nothing adds nothing. */
  lemma OutlastPrepend(s: State, e: Event, s': State, s'': State, now: Time)
    requires s'.log == s.log + [e] && !e.Map? && s'.log <= s''.log
    ensures s.log <= s''.log && (GrantsOutlast(Since(s, s''), now) <==> GrantsOutlast(Since(s', s''), now))
  {
    assert Since(s, s'') == [e] + Since(s', s'');
  }

  lemma AttemptLater(env: Env, s: State, r: Request, now: Time)
    requires Monotone(env) && now <= env.now(s.tick)
    ensures ReschedulesLater(env, s, Attempt(env, s, r), KeyOf(r), now)
  {
    ClockAdvances(env, s.tick, s.tick + 1);
    var k, answer := KeyOf(r), env.mapAnswer(s.tick);
    var e := Map(k, MapRequest(r, Get(s.leases, k)), answer);
    var s' := Attempt(env, s, r);
    if GrantAccepted(e.sent, answer) {
      assert Since(s, s') == [e];
      assert e in Since(s, s');
    } else {
      assert Since(s, s') == [e, Clock(k, env.now(s.tick + 1))];
    }
  }

  lemma ParkLater(env: Env, s: State, r: Request, now: Time)
    requires Monotone(env) && now <= env.now(s.tick)
    ensures ReschedulesLater(env, s, Park(env, s, r), KeyOf(r), now)
  {
    var s' := ReleaseOne(env, s, r);
    ClockAdvances(env, s.tick, s'.tick);
  }

  /** What the loop of renewDue does to the first n requests. */
  ghost predicate PassedOver(env: Env, s: State, s': State, rs: seq<Request>, now: Time, n: nat)
    requires n <= |rs|
  {
    && Wakes(s'.log) == Wakes(s.log) + DueOf(rs[..n], s.nextAt, now)
    && (forall i :: n <= i < |rs| ==> Get(s'.nextAt, KeyOf(rs[i])) == Get(s.nextAt, KeyOf(rs[i])))
    && s.log <= s'.log
    && (LaterUpTo(s', rs, now, n) <==> GrantsOutlast(Since(s, s'), now))
    && (SharedClock(env) ==> LaterUpTo(s', rs, now, n))
    && s'.tick >= s.tick
  }

  predicate LaterUpTo(s: State, rs: seq<Request>, now: Time, n: nat)
    requires n <= |rs|
  {
    forall i :: 0 <= i < n && KeyOf(rs[i]) in s.nextAt ==> s.nextAt[KeyOf(rs[i])] > now
  }

  /** One more mapping passed over: its own entry decides, the others keep theirs. */
  lemma LaterStep(s': State, s'': State, rs: seq<Request>, now: Time, n: nat)
    requires DistinctKeys(rs) && n < |rs|
    requires forall k :: k != KeyOf(rs[n]) ==> Get(s''.nextAt, k) == Get(s'.nextAt, k)
    ensures LaterUpTo(s'', rs, now, n + 1) <==>
      LaterUpTo(s', rs, now, n) && (KeyOf(rs[n]) in s''.nextAt ==> s''.nextAt[KeyOf(rs[n])] > now)
  {
    forall i | 0 <= i < n ensures Get(s''.nextAt, KeyOf(rs[i])) == Get(s'.nextAt, KeyOf(rs[i])) {
      assert KeyOf(rs[i]) != KeyOf(rs[n]);
    }
  }

  lemma OutlastConcat(s: State, s': State, s'': State, now: Time)
    requires s.log <= s'.log <= s''.log
    ensures s.log <= s''.log
    ensures GrantsOutlast(Since(s, s''), now) <==>
      GrantsOutlast(Since(s, s'), now) && GrantsOutlast(Since(s', s''), now)
  {
    assert Since(s, s'') == Since(s, s') + Since(s', s'');
  }

  lemma DueStepPasses(env: Env, s: State, s': State, rs: seq<Request>, now: Time, n: nat)
    requires DistinctKeys(rs) && n < |rs|
    requires Monotone(env) && now <= env.now(s.tick)
    requires PassedOver(env, s, s', rs, now, n)
    ensures PassedOver(env, s, DueStep(env, s', rs[n], now), rs, now, n + 1)
  {
    hide Wakes;
    hide ReconcileOne;
    hide SharedClock;
    hide GrantsOutlast;
    hide Since;
    hide LaterUpTo;
    Grow(rs, n);
    var k := KeyOf(rs[n]);
    assert Get(s'.nextAt, k) == Get(s.nextAt, k);
    var s'' := DueStep(env, s', rs[n], now);
    if Due(s', k, now) {
      var w := WakeUp(s', k, Some(now));
      ReconcileWakes(env, s', rs[n], Some(now));
      ReconcileTouches(env, w, rs[n]);
      ClockAdvances(env, s.tick, w.tick);
      ReconcileLater(env, w, rs[n], now);
      OutlastPrepend(s', Wake(k, Some(now)), w, s'', now);
      OutlastConcat(s, s', s'', now);
      forall i | n + 1 <= i < |rs| ensures Get(s''.nextAt, KeyOf(rs[i])) == Get(s'.nextAt, KeyOf(rs[i])) {
        assert KeyOf(rs[i]) != k;
      }
    }
    LaterStep(s', s'', rs, now, n);
  }

  lemma NonePassed(env: Env, s: State, rs: seq<Request>, now: Time)
    ensures PassedOver(env, s, s, rs, now, 0)
  {
  }

  lemma {:induction false} DuePassPasses(env: Env, s: State, rs: seq<Request>, now: Time, n: nat)
    requires DistinctKeys(rs) && n <= |rs|
    requires Monotone(env) && now <= env.now(s.tick)
    ensures PassedOver(env, s, DuePass(env, s, rs[..n], now), rs, now, n)
  {
    hide DueStep;
    hide PassedOver;
    hide Monotone;
    if n > 0 {
      Grow(rs, n - 1);
      DuePassPasses(env, s, rs, now, n - 1);
      DueStepPasses(env, s, DuePass(env, s, rs[..n - 1], now), rs, now, n - 1);
    } else {
      NonePassed(env, s, rs, now);
    }
  }

  lemma {:induction false} DueOfShapes(rs: seq<Request>, nextAt: map<Key, Time>, now: Time)
    ensures DueOf(Shapes(rs), nextAt, now) == DueOf(rs, nextAt, now)
  {
    if rs != [] {
      DueOfShapes(rs[..|rs| - 1], nextAt, now);
      assert Shapes(rs)[..|rs| - 1] == Shapes(rs[..|rs| - 1]);
    }
  }

  /** DueOf lists exactly the due keys, each once. */
  lemma {:induction false} DueOfExact(rs: seq<Request>, nextAt: map<Key, Time>, now: Time)
    requires DistinctKeys(rs)
    ensures forall k :: k in DueOf(rs, nextAt, now) <==> k in Keys(rs) && k in nextAt && nextAt[k] <= now
    ensures forall i, j :: 0 <= i < j < |DueOf(rs, nextAt, now)| ==>
      DueOf(rs, nextAt, now)[i] != DueOf(rs, nextAt, now)[j]
  {
    if rs != [] {
      var n := |rs| - 1;
      DueOfExact(rs[..n], nextAt, now);
      assert rs[..|rs|] == rs;
      KeysGrow(rs, |rs|);
      var k := KeyOf(rs[n]);
      assert k !in Keys(rs[..n]);
      assert k !in DueOf(rs[..n], nextAt, now);
    }
  }

  /** What a pass over the due mappings achieves, started at the given time in state
      s: it wakes exactly the due ones, in configuration order, and leaves everything
      scheduled later exactly if half of every lease granted in it ends later, which
      a shared clock guarantees. */
  ghost predicate ExactPass(env: Env, plan: seq<Request>, s: State, s': State, now: Time) {
    && Wakes(s'.log) == Wakes(s.log) + DueOf(plan, s.nextAt, now)
    && s.log <= s'.log
    && (AllLater(s', now) <==> GrantsOutlast(Since(s, s'), now))
    && (SharedClock(env) ==> AllLater(s', now))
  }

  lemma DuePassExact(env: Env, s: State, rs: seq<Request>, plan: seq<Request>, now: Time)
    requires Shapes(rs) == plan && DistinctKeys(plan)
    requires Monotone(env) && now <= env.now(s.tick)
    requires Sound(s, plan) && s.nextAt.Keys == Keys(plan)
    ensures ExactPass(env, plan, s, DuePass(env, s, rs, now), now)
  {
    hide Wakes;
    hide Sound;
    hide DuePass;
    hide SharedClock;
    hide GrantsOutlast;
    hide Since;
    KeysOfShapes(rs);
    DuePassPasses(env, s, rs, now, |rs|);
    DuePassSound(env, s, rs, plan, now, |rs|);
    assert rs[..|rs|] == rs;
    DueOfShapes(rs, s.nextAt, now);
    EveryKeyLater(DuePass(env, s, rs, now), rs, now);
  }

  lemma EveryKeyLater(s: State, rs: seq<Request>, now: Time)
    requires s.nextAt.Keys == Keys(rs)
    ensures LaterUpTo(s, rs, now, |rs|) <==> AllLater(s, now)
  {
    if LaterUpTo(s, rs, now, |rs|) {
      forall k | k in s.nextAt ensures s.nextAt[k] > now {
        assert k in Keys(rs);
        var i :| 0 <= i < |rs| && KeyOf(rs[i]) == k;
      }
    }
  }

  lemma RefreshFrame(env: Env, s: State)
    ensures
      var s' := Refresh(env, s);
      s'.leases == s.leases && s'.nextAt == s.nextAt && s'.log == s.log && s'.tick == s.tick + 1
  {
  }

  /** Only the maps and the log matter. */
  lemma ExactPassFrame(env: Env, plan: seq<Request>, s: State, t: State, s': State, now: Time)
    requires s.nextAt == t.nextAt && s.log == t.log
    requires ExactPass(env, plan, t, s', now)
    ensures ExactPass(env, plan, s, s', now)
  {
  }

  /** The wake-up after state s reconciles exactly the mappings due then, in
      configuration order and once each; afterwards all are scheduled later exactly
      if half of every lease granted in it ends later. */
  lemma RenewDueExact(env: Env, s: State, c: Configuration)
    requires DistinctKeys(Plan(c.mappings)) && Monotone(env)
    requires s.nextAt.Keys == Keys(Plan(c.mappings)) && Sound(s, Plan(c.mappings))
    ensures ExactPass(env, Plan(c.mappings), s, RenewDue(env, s, c), env.now(s.tick + 1))
  {
    hide ExactPass;
    hide Sound;
    hide DuePass;
    hide Requests;
    hide Monotone;
    hide Refresh;
    hide Plan;
    hide DistinctKeys;
    RefreshFrame(env, s);
    var s1, plan := Refresh(env, s), Plan(c.mappings);
    var s2 := Tick(s1);
    ClockAdvances(env, s1.tick, s2.tick + 1);
    RequestsFollowPlan(c, env.host(s2.tick));
    SoundFrame(s, Tick(s2), plan);
    DuePassExact(env, Tick(s2), Requests(c, env.host(s2.tick)), plan, env.now(s1.tick));
    ExactPassFrame(env, plan, s, Tick(s2), RenewDue(env, s, c), env.now(s1.tick));
  }

  lemma NextRound(env: Env, c: Configuration, n: nat)
    ensures Rounds(env, c, n + 1) == RenewDue(env, Waited(Rounds(env, c, n)), c)
  {
    hide RenewDue;
  }

  /** The keys due at a time, each once, and at least one. */
  ghost predicate SomeDue(plan: seq<Request>, nextAt: map<Key, Time>, now: Time) {
    var due := DueOf(plan, nextAt, now);
    && due != []
    && (forall k :: k in due <==> k in nextAt && nextAt[k] <= now)
    && (forall i, j :: 0 <= i < j < |due| ==> due[i] != due[j])
  }

  /** Once the timer has fired, something is due, and DueOf lists it. */
  lemma SomethingDue(plan: seq<Request>, nextAt: map<Key, Time>, now: Time)
    requires DistinctKeys(plan) && nextAt.Keys == Keys(plan) && nextAt.Keys != {}
    requires forall t :: Soonest(nextAt, t) ==> t <= now
    ensures SomeDue(plan, nextAt, now)
  {
    hide DueOf;
    DueOfExact(plan, nextAt, now);
    SoonestExists(nextAt);
    var t :| Soonest(nextAt, t);
    var k :| k in nextAt && nextAt[k] == t;
    assert k in DueOf(plan, nextAt, now);
  }

  /** No missed and no busy wake-ups: in every run of a validated configuration,
      every wake-up finds something due, reconciles exactly what is due, and leaves
      everything scheduled strictly later exactly if half of every lease granted in
      it ends later; with a shared clock it always does. */
  lemma NoMissedNoBusyWakeups(env: Env, c: Configuration, host: Host, n: nat)
    requires Acceptable(c, host) && Monotone(env)
    requires TimerHonest(env, Rounds(env, c, n))
    ensures
      var plan, s := Plan(c.mappings), Rounds(env, c, n);
      && SomeDue(plan, s.nextAt, env.now(s.tick + 2))
      && ExactPass(env, plan, s, Rounds(env, c, n + 1), env.now(s.tick + 2))
  {
    hide ExactPass;
    hide Sound;
    hide RenewDue;
    hide SomeDue;
    hide Plan;
    hide Acceptable;
    hide Rounds;
    hide DistinctKeys;
    hide Monotone;
    hide Soonest;
    var s, plan := Rounds(env, c, n), Plan(c.mappings);
    NextRound(env, c, n);
    ScheduleInvariant(env, c, host, n);
    ValidatedKeysDistinct(c, host);
    EveryRunRefines(env, c, n);
    SoundFrame(s, Waited(s), plan);
    RenewDueExact(env, Waited(s), c);
    ExactPassFrame(env, plan, s, Waited(s), Rounds(env, c, n + 1), env.now(s.tick + 2));
    SomethingDue(plan, s.nextAt, env.now(s.tick + 2));
  }

  // ---- A lease of one nanosecond ----

  const SHORT_LEASE := Lease(TCP, 80, 80, Invalid, 1, 0)

  /** A clock that stands still and a client that grants one nanosecond. */
  const SPINNING := Env(
    _ => 0, _ => Present, _ => MapAnswer.Granted(SHORT_LEASE), _ => true, _ => None, _ => BARE_HOST, false)

  lemma SpinStep(s: State, at: Option<Time>)
    requires s.leases == map[] || s.leases == map[WEB_KEY := SHORT_LEASE]
    requires s.nextAt == map[] || s.nextAt == map[WEB_KEY := 0]
    ensures
      var s' := ReconcileOne(SPINNING, WakeUp(s, WEB_KEY, at), WEB);
      && s'.leases == map[WEB_KEY := SHORT_LEASE] && s'.nextAt == map[WEB_KEY := 0]
      && |Wakes(s'.log)| == |Wakes(s.log)| + 1
  {
    hide Wakes;
    OneRequest(BARE_HOST);
    ReconcileWakes(SPINNING, s, WEB, at);
  }

  lemma SpinPasses(s: State)
    ensures StartPass(SPINNING, s, [WEB]) == StartStep(SPINNING, s, WEB)
    ensures DuePass(SPINNING, s, [WEB], 0) == DueStep(SPINNING, s, WEB, 0)
  {
    hide StartStep;
    hide DueStep;
    var rs := [WEB];
    assert rs[..|rs| - 1] == [];
    assert StartPass(SPINNING, s, rs[..|rs| - 1]) == s && DuePass(SPINNING, s, rs[..|rs| - 1], 0) == s;
    assert StartPass(SPINNING, s, rs) == StartStep(SPINNING, s, WEB);
    assert DuePass(SPINNING, s, rs, 0) == DueStep(SPINNING, s, WEB, 0);
  }

  /** Each such lease is accepted and due for renewal at once, so the loop maps again
      and again without time passing. */
  lemma {:induction false} OneNanosecondSpins(n: nat)
    ensures
      var s := Rounds(SPINNING, ONE_MAPPING, n);
      && s.leases == map[WEB_KEY := SHORT_LEASE] && s.nextAt == map[WEB_KEY := 0]
      && |Wakes(s.log)| == n + 1
  {
    hide Wakes;
    hide ReconcileOne;
    hide Requests;
    hide StartPass;
    hide DuePass;
    OneRequest(BARE_HOST);
    if n == 0 {
      var s := Tick(Refresh(SPINNING, EMPTY));
      NoWakes();
      SpinPasses(s);
      SpinStep(s, None);
    } else {
      OneNanosecondSpins(n - 1);
      NextRound(SPINNING, ONE_MAPPING, n - 1);
      var s := Tick(Tick(Refresh(SPINNING, Waited(Rounds(SPINNING, ONE_MAPPING, n - 1)))));
      SpinPasses(s);
      SpinStep(s, Some(0));
    }
  }

  lemma NoWakes()
    ensures Wakes([]) == []
  {
  }
}
