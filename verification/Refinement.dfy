/** The shared loop refines the product of independent per-mapping automata, in
    every reachable state of every run. */
module Refinement {
  import opened Prelude
  import opened Netip
  import opened Mapping
  import opened Config
  import opened Lifecycle
  import opened Scheduler
  import Upnp

  /** The events of r so far take its automaton to the given phase, with the lease
      and wake-up time the shared maps hold for it. */
  predicate Aligned(r: Request, s: State, phase: Phase) {
    Replay(r, s.log) == Auto(phase, Get(s.leases, KeyOf(r)), Get(s.nextAt, KeyOf(r)))
  }

  predicate LeaseMatches(k: Key, l: Lease) {
    && l.protocol == k.protocol
    && l.internalPort == k.internalPort
    && l.externalPort != 0
    && l.lifetime > 0
  }

  ghost predicate AllIdle(s: State, plan: seq<Request>) {
    forall i :: 0 <= i < |plan| ==> Aligned(plan[i], s, Idle)
  }

  /** The invariant of every run, for the configured mappings. */
  ghost predicate Sound(s: State, plan: seq<Request>) {
    && AllIdle(s, plan)
    && s.leases.Keys <= Keys(plan)
    && s.nextAt.Keys <= Keys(plan)
    && (forall k <- s.leases :: LeaseMatches(k, s.leases[k]))
  }

  /** Nothing but the entries of key k changes, and k is rescheduled. */
  ghost predicate OnlyTouches(s: State, s': State, k: Key) {
    && s'.nextAt.Keys == s.nextAt.Keys + {k}
    && s'.leases.Keys <= s.leases.Keys + {k}
    && (forall k' :: k' != k ==> Get(s'.leases, k') == Get(s.leases, k') && Get(s'.nextAt, k') == Get(s.nextAt, k'))
    && (k in s'.leases ==> Get(s.leases, k) == Some(s'.leases[k]) || LeaseMatches(k, s'.leases[k]))
    && s'.tick >= s.tick
    && s'.localIP == s.localIP && s'.advertised == s.advertised
  }

  lemma ReconcileTouches(env: Env, s: State, r: Request)
    ensures OnlyTouches(s, ReconcileOne(env, s, r), KeyOf(r))
  {
    hide Attempt;
    hide Park;
    AttemptTouches(env, s, r);
    if r.requireListener {
      var s' := Emit(s, Check(KeyOf(r), env.presence(s.tick)));
      AttemptTouches(env, s', r);
      ParkTouches(env, s', r);
    }
  }

  lemma AttemptTouches(env: Env, s: State, r: Request)
    ensures OnlyTouches(s, Attempt(env, s, r), KeyOf(r))
  {
  }

  lemma ParkTouches(env: Env, s: State, r: Request)
    ensures OnlyTouches(s, Park(env, s, r), KeyOf(r))
  {
  }

  /** The phase in which the pass of a mapping reaches Attempt. */
  function MayMap(r: Request): Phase { if r.requireListener then Cleared else Woken }

  /** The events of another mapping, and a pass over it, leave r alone. */
  lemma OthersUnconcerned(env: Env, s: State, req: Request, r: Request, at: Option<Time>)
    requires KeyOf(r) != KeyOf(req)
    ensures Replay(r, ReconcileOne(env, WakeUp(s, KeyOf(req), at), req).log) == Replay(r, s.log)
  {
    hide Replay;
    var k := KeyOf(req);
    var w := WakeUp(s, k, at);
    ReplayEmit(r, s.log, Wake(k, at));
    if req.requireListener {
      var c := Emit(w, Check(k, env.presence(w.tick)));
      ReplayEmit(r, w.log, Check(k, env.presence(w.tick)));
      if env.presence(w.tick) == Absent {
        ParkUnconcerned(env, c, req, r);
      } else {
        AttemptUnconcerned(env, c, req, r);
      }
    } else {
      AttemptUnconcerned(env, w, req, r);
    }
  }

  lemma AttemptUnconcerned(env: Env, s: State, req: Request, r: Request)
    requires KeyOf(r) != KeyOf(req)
    ensures Replay(r, Attempt(env, s, req).log) == Replay(r, s.log)
  {
    hide Replay;
    var k := KeyOf(req);
    var e := Map(k, MapRequest(req, Get(s.leases, k)), env.mapAnswer(s.tick));
    ReplayEmit(r, s.log, e);
    ReplayEmit(r, s.log + [e], Clock(k, env.now(s.tick + 1)));
  }

  lemma ParkUnconcerned(env: Env, s: State, req: Request, r: Request)
    requires KeyOf(r) != KeyOf(req)
    ensures Replay(r, Park(env, s, req).log) == Replay(r, s.log)
  {
    hide Replay;
    var k, s' := KeyOf(req), ReleaseOne(env, s, req);
    if k in s.leases {
      ReplayEmit(r, s.log, Unmap(k, ReleaseRequest(req, s.leases[k]), env.unmapOk(s.tick)));
    }
    ReplayEmit(r, s'.log, Clock(k, env.now(s'.tick)));
  }

  lemma RescheduleAligned(env: Env, s: State, r: Request, k: Key, delay: Duration)
    requires k == KeyOf(r)
    requires (Aligned(r, s, Parking) && delay == LISTENER_POLL) || (Aligned(r, s, Failing) && delay == RETRY_BACKOFF)
    ensures Aligned(r, Reschedule(env, s, k, delay), Idle)
  {
    hide Replay;
    ReplayEmit(r, s.log, Clock(k, env.now(s.tick)));
  }

  lemma AttemptAligned(env: Env, s: State, req: Request, r: Request)
    requires r == Shape(req) && Aligned(r, s, MayMap(req))
    ensures Aligned(r, Attempt(env, s, req), Idle)
  {
    hide Replay;
    var k, answer := KeyOf(req), env.mapAnswer(s.tick);
    var sent := MapRequest(req, Get(s.leases, k));
    assert KeyOf(r) == k && Shape(sent) == MapRequest(r, Get(s.leases, k));
    ReplayEmit(r, s.log, Map(k, sent, answer));
    if !GrantAccepted(sent, answer) {
      RescheduleAligned(env, Emit(s, Map(k, sent, answer)), r, k, RETRY_BACKOFF);
    }
  }

  lemma ParkAligned(env: Env, s: State, req: Request, r: Request)
    requires r == Shape(req) && Aligned(r, s, if KeyOf(r) in s.leases then Vacated else Parking)
    ensures Aligned(r, Park(env, s, req), Idle)
  {
    hide Replay;
    var k := KeyOf(req);
    if k in s.leases {
      ReplayEmit(r, s.log, Unmap(k, ReleaseRequest(req, s.leases[k]), env.unmapOk(s.tick)));
    }
    RescheduleAligned(env, ReleaseOne(env, s, req), r, k, LISTENER_POLL);
  }

  /** A pass over a mapping takes its own automaton through one full pass. */
  lemma ReconcileAligned(env: Env, s: State, req: Request, r: Request, at: Option<Time>)
    requires r == Shape(req) && Aligned(r, s, Idle)
    requires if at.None? then KeyOf(req) !in s.nextAt else Due(s, KeyOf(req), at.value)
    ensures Aligned(r, ReconcileOne(env, WakeUp(s, KeyOf(req), at), req), Idle)
  {
    hide Replay;
    hide Park;
    hide Attempt;
    var k := KeyOf(req);
    var w := WakeUp(s, k, at);
    ReplayEmit(r, s.log, Wake(k, at));
    if req.requireListener {
      var p := env.presence(w.tick);
      ReplayEmit(r, w.log, Check(k, p));
      var c := Emit(w, Check(k, p));
      if p == Absent { ParkAligned(env, c, req, r); } else { AttemptAligned(env, c, req, r); }
    } else {
      AttemptAligned(env, w, req, r);
    }
  }

  /** The i-th request of a pass, when the pass follows the plan. */
  lemma PlanAt(rs: seq<Request>, plan: seq<Request>, i: nat, j: nat)
    requires Shapes(rs) == plan && DistinctKeys(plan)
    requires i < |rs| && j < |rs|
    ensures |plan| == |rs| && plan[i] == Shape(rs[i]) && KeyOf(plan[i]) == KeyOf(rs[i])
    ensures KeyOf(plan[i]) == KeyOf(plan[j]) ==> i == j
  {
  }

  lemma ReconcileAllIdle(env: Env, s: State, rs: seq<Request>, plan: seq<Request>, i: nat, at: Option<Time>)
    requires Shapes(rs) == plan && DistinctKeys(plan) && i < |rs|
    requires AllIdle(s, plan)
    requires if at.None? then KeyOf(rs[i]) !in s.nextAt else Due(s, KeyOf(rs[i]), at.value)
    ensures AllIdle(ReconcileOne(env, WakeUp(s, KeyOf(rs[i]), at), rs[i]), plan)
  {
    hide Replay;
    hide ReconcileOne;
    var k := KeyOf(rs[i]);
    var s' := ReconcileOne(env, WakeUp(s, k, at), rs[i]);
    ReconcileTouches(env, WakeUp(s, k, at), rs[i]);
    forall j | 0 <= j < |plan| ensures Aligned(plan[j], s', Idle) {
      PlanAt(rs, plan, i, j);
      if i == j {
        ReconcileAligned(env, s, rs[i], plan[j], at);
      } else {
        OthersUnconcerned(env, s, rs[i], plan[j], at);
      }
    }
  }

  lemma ReconcileSound(env: Env, s: State, rs: seq<Request>, plan: seq<Request>, i: nat, at: Option<Time>)
    requires Shapes(rs) == plan && DistinctKeys(plan) && i < |rs|
    requires Sound(s, plan)
    requires if at.None? then KeyOf(rs[i]) !in s.nextAt else Due(s, KeyOf(rs[i]), at.value)
    ensures Sound(ReconcileOne(env, WakeUp(s, KeyOf(rs[i]), at), rs[i]), plan)
    ensures OnlyTouches(s, ReconcileOne(env, WakeUp(s, KeyOf(rs[i]), at), rs[i]), KeyOf(rs[i]))
  {
    hide AllIdle;
    hide ReconcileOne;
    var k := KeyOf(rs[i]);
    var s' := ReconcileOne(env, WakeUp(s, k, at), rs[i]);
    ReconcileTouches(env, WakeUp(s, k, at), rs[i]);
    ReconcileAllIdle(env, s, rs, plan, i, at);
    PlanAt(rs, plan, i, i);
    assert k in Keys(plan);
    forall k' | k' in s'.leases ensures LeaseMatches(k', s'.leases[k']) {
      if k' != k { assert Get(s'.leases, k') == Get(s.leases, k'); }
    }
  }

  lemma {:induction false} StartPassSound(env: Env, s: State, rs: seq<Request>, plan: seq<Request>, n: nat)
    requires Shapes(rs) == plan && DistinctKeys(plan) && n <= |rs|
    requires Sound(s, plan) && s.nextAt == map[]
    ensures Sound(StartPass(env, s, rs[..n]), plan)
    ensures StartPass(env, s, rs[..n]).nextAt.Keys == Keys(plan[..n])
  {
    hide Sound;
    hide StartStep;
    if n > 0 {
      Grow(rs, n - 1);
      StartPassSound(env, s, rs, plan, n - 1);
      KeysGrow(plan, n);
      StartStepSound(env, StartPass(env, s, rs[..n - 1]), rs, plan, n - 1);
    }
  }

  lemma StartStepSound(env: Env, s: State, rs: seq<Request>, plan: seq<Request>, i: nat)
    requires Shapes(rs) == plan && DistinctKeys(plan) && i < |rs|
    requires Sound(s, plan) && s.nextAt.Keys == Keys(plan[..i])
    ensures Sound(StartStep(env, s, rs[i]), plan)
    ensures StartStep(env, s, rs[i]).nextAt.Keys == Keys(plan[..i]) + {KeyOf(plan[i])}
  {
    hide Sound;
    hide ReconcileOne;
    PlanAt(rs, plan, i, i);
    assert KeyOf(rs[i]) !in Keys(plan[..i]) by {
      assert forall j :: 0 <= j < i ==> plan[..i][j] == plan[j];
    }
    ReconcileSound(env, s, rs, plan, i, None);
  }

  lemma KeysGrow(plan: seq<Request>, n: nat)
    requires 0 < n <= |plan|
    ensures Keys(plan[..n]) == Keys(plan[..n - 1]) + {KeyOf(plan[n - 1])}
  {
    forall k | k in Keys(plan[..n]) ensures k in Keys(plan[..n - 1]) + {KeyOf(plan[n - 1])} {
      var i :| 0 <= i < n && KeyOf(plan[..n][i]) == k;
      if i < n - 1 { assert KeyOf(plan[..n - 1][i]) == k; }
    }
    forall k | k in Keys(plan[..n - 1]) ensures k in Keys(plan[..n]) {
      var i :| 0 <= i < n - 1 && KeyOf(plan[..n - 1][i]) == k;
      assert KeyOf(plan[..n][i]) == k;
    }
    assert KeyOf(plan[..n][n - 1]) == KeyOf(plan[n - 1]);
  }

  lemma DueStepSound(env: Env, s: State, rs: seq<Request>, plan: seq<Request>, i: nat, now: Time)
    requires Shapes(rs) == plan && DistinctKeys(plan) && i < |rs|
    requires Sound(s, plan)
    ensures Sound(DueStep(env, s, rs[i], now), plan)
    ensures DueStep(env, s, rs[i], now).nextAt.Keys == s.nextAt.Keys
  {
    hide Sound;
    hide ReconcileOne;
    if Due(s, KeyOf(rs[i]), now) { ReconcileSound(env, s, rs, plan, i, Some(now)); }
  }

  lemma {:induction false} DuePassSound(env: Env, s: State, rs: seq<Request>, plan: seq<Request>, now: Time, n: nat)
    requires Shapes(rs) == plan && DistinctKeys(plan) && n <= |rs|
    requires Sound(s, plan)
    ensures Sound(DuePass(env, s, rs[..n], now), plan)
    ensures DuePass(env, s, rs[..n], now).nextAt.Keys == s.nextAt.Keys
  {
    hide Sound;
    hide DueStep;
    if n > 0 {
      Grow(rs, n - 1);
      DuePassSound(env, s, rs, plan, now, n - 1);
      DueStepSound(env, DuePass(env, s, rs[..n - 1], now), rs, plan, n - 1, now);
    }
  }

  /** The schedule and refinement invariant: after start-up and after every later
      wake-up, each mapping is where its own automaton is, exactly the configured
      keys are scheduled, and every recorded lease is one the mapping can use. */
  lemma {:induction false} EveryRunRefines(env: Env, c: Configuration, n: nat)
    requires DistinctKeys(Plan(c.mappings))
    ensures Sound(Rounds(env, c, n), Plan(c.mappings))
    ensures Rounds(env, c, n).nextAt.Keys == Keys(Plan(c.mappings))
  {
    hide Sound;
    hide RenewDue;
    if n == 0 {
      StartedSound(env, c);
    } else {
      EveryRunRefines(env, c, n - 1);
      SoundFrame(Rounds(env, c, n - 1), Waited(Rounds(env, c, n - 1)), Plan(c.mappings));
      RenewDueSound(env, Waited(Rounds(env, c, n - 1)), c);
    }
  }

  lemma StartedSound(env: Env, c: Configuration)
    requires DistinctKeys(Plan(c.mappings))
    ensures Sound(Started(env, c), Plan(c.mappings))
    ensures Started(env, c).nextAt.Keys == Keys(Plan(c.mappings))
  {
    var s, plan := Refresh(env, EMPTY), Plan(c.mappings);
    var rs := Requests(c, env.host(s.tick));
    RequestsFollowPlan(c, env.host(s.tick));
    StartPassSound(env, Tick(s), rs, plan, |rs|);
    assert rs[..|rs|] == rs && plan[..|rs|] == plan;
  }

  /** Only the maps and the log matter to the invariant. */
  lemma SoundFrame(s: State, s': State, plan: seq<Request>)
    requires Sound(s, plan)
    requires s'.leases == s.leases && s'.nextAt == s.nextAt && s'.log == s.log
    ensures Sound(s', plan)
  {
  }

  lemma RenewDueSound(env: Env, s: State, c: Configuration)
    requires DistinctKeys(Plan(c.mappings))
    requires Sound(s, Plan(c.mappings))
    ensures Sound(RenewDue(env, s, c), Plan(c.mappings))
    ensures RenewDue(env, s, c).nextAt.Keys == s.nextAt.Keys
  {
    hide Sound;
    var s1 := Refresh(env, s);
    var s2 := Tick(s1);
    var rs := Requests(c, env.host(s2.tick));
    RequestsFollowPlan(c, env.host(s2.tick));
    SoundFrame(s, Tick(s2), Plan(c.mappings));
    DuePassSound(env, Tick(s2), rs, Plan(c.mappings), env.now(s1.tick), |rs|);
    assert rs[..|rs|] == rs;
  }

  /** Per-key refinement: in every reachable state of a validated configuration,
      the lease and wake-up time of each mapping are those its own automaton
      reaches on the events of that mapping alone, none of which is out of order. */
  lemma PerMappingRefinement(env: Env, c: Configuration, host: Host, n: nat, i: nat)
    requires Acceptable(c, host) && i < |Plan(c.mappings)|
    ensures
      var r, s := Plan(c.mappings)[i], Rounds(env, c, n);
      var k := KeyOf(r);
      Replay(r, Project(s.log, k)) == Auto(Idle, Get(s.leases, k), Get(s.nextAt, k))
  {
    ValidatedKeysDistinct(c, host);
    EveryRunRefines(env, c, n);
    var r, s := Plan(c.mappings)[i], Rounds(env, c, n);
    assert Aligned(r, s, Idle);
    ReplayProject(r, s.log);
  }

  /** Schedule invariant, and the renew loop always has a next wake-up. */
  lemma ScheduleInvariant(env: Env, c: Configuration, host: Host, n: nat)
    requires Acceptable(c, host)
    ensures
      var s := Rounds(env, c, n);
      && s.nextAt.Keys == Keys(Plan(c.mappings))
      && s.nextAt.Keys != {}
      && s.leases.Keys <= s.nextAt.Keys
      && (forall k <- s.leases :: LeaseMatches(k, s.leases[k]))
  {
    ValidatedKeysDistinct(c, host);
    EveryRunRefines(env, c, n);
    assert KeyOf(Plan(c.mappings)[0]) in Keys(Plan(c.mappings));
  }

  /** Listener gating over whole runs. */
  lemma GatingInEveryRun(env: Env, c: Configuration, host: Host, n: nat, i: nat)
    requires Acceptable(c, host) && i < |Plan(c.mappings)|
    ensures
      var r, s := Plan(c.mappings)[i], Rounds(env, c, n);
      var tr := Project(s.log, KeyOf(r));
      if r.requireListener then
        && Gated(tr)
        && (KeyOf(r) in s.leases ==> LastPresence(tr).Some? && LastPresence(tr).value != Absent)
      else forall j :: 0 <= j < |tr| ==> !tr[j].Check? && !tr[j].Unmap?
  {
    var r, s := Plan(c.mappings)[i], Rounds(env, c, n);
    var tr := Project(s.log, KeyOf(r));
    PerMappingRefinement(env, c, host, n, i);
    ProjectMine(s.log, KeyOf(r));
    if r.requireListener { ListenerGating(r, tr); } else { UngatedNeverUnmapped(r, tr); }
  }

  /** Sticky external port over whole runs. */
  lemma StickyInEveryRun(env: Env, c: Configuration, host: Host, n: nat, i: nat)
    requires Acceptable(c, host) && i < |Plan(c.mappings)|
    ensures
      var r, s := Plan(c.mappings)[i], Rounds(env, c, n);
      Sticky(r, Project(s.log, KeyOf(r)))
  {
    var r, s := Plan(c.mappings)[i], Rounds(env, c, n);
    PerMappingRefinement(env, c, host, n, i);
    ProjectMine(s.log, KeyOf(r));
    StickyPort(r, Project(s.log, KeyOf(r)));
  }

  // ---- The advertised address ----

  /** The UPnP client advertises the daemon's local address, if it is usable. */
  predicate Advertises(env: Env, s: State) {
    s.advertised == if env.upnp then Upnp.Usable(s.localIP) else Invalid
  }

  lemma {:induction false} StartPassKeepsAddress(env: Env, s: State, rs: seq<Request>)
    ensures
      var s' := StartPass(env, s, rs);
      s'.localIP == s.localIP && s'.advertised == s.advertised
  {
    hide ReconcileOne;
    if rs != [] {
      var before, r := StartPass(env, s, rs[..|rs| - 1]), rs[|rs| - 1];
      StartPassKeepsAddress(env, s, rs[..|rs| - 1]);
      ReconcileTouches(env, WakeUp(before, KeyOf(r), None), r);
    }
  }

  lemma {:induction false} DuePassKeepsAddress(env: Env, s: State, rs: seq<Request>, now: Time)
    ensures
      var s' := DuePass(env, s, rs, now);
      s'.localIP == s.localIP && s'.advertised == s.advertised
  {
    hide ReconcileOne;
    if rs != [] {
      var before, r := DuePass(env, s, rs[..|rs| - 1], now), rs[|rs| - 1];
      DuePassKeepsAddress(env, s, rs[..|rs| - 1], now);
      ReconcileTouches(env, WakeUp(before, KeyOf(r), Some(now)), r);
    }
  }

  /** In every run, for any configuration, the UPnP client advertises the local
      address the daemon knows, if that is usable. */
  lemma {:induction false} AdvertisesCurrentAddress(env: Env, c: Configuration, n: nat)
    ensures Advertises(env, Rounds(env, c, n))
  {
    hide StartPass;
    hide DuePass;
    hide Requests;
    if n == 0 {
      var s := Refresh(env, EMPTY);
      StartPassKeepsAddress(env, Tick(s), Requests(c, env.host(s.tick)));
    } else {
      AdvertisesCurrentAddress(env, c, n - 1);
      var s1 := Refresh(env, Waited(Rounds(env, c, n - 1)));
      var s2 := Tick(s1);
      DuePassKeepsAddress(env, Tick(s2), Requests(c, env.host(s2.tick)), env.now(s1.tick));
    }
  }
}
