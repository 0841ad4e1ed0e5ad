/** Shutdown accounting: what releaseAll does in every reachable state. */
module Shutdown {
  import opened Prelude
  import opened Mapping
  import opened Config
  import opened Lifecycle
  import opened Scheduler
  import opened Refinement

  lemma ProjectEmit(log: seq<Event>, e: Event, k: Key)
    ensures Project(log + [e], k) == if e.key == k then Project(log, k) + [e] else Project(log, k)
  {
    assert (log + [e])[..|log|] == log;
  }

  /** What a release pass has done for mapping r: exactly one release, of the
      granted port, if a lease was held, and nothing otherwise. The lease is left
      exactly if that release failed. */
  predicate AccountedFor(r: Request, s: State, s': State) {
    var k := KeyOf(r);
    if k !in s.leases then
      Project(s'.log, k) == Project(s.log, k) && k !in s'.leases
    else
      && |Project(s'.log, k)| == |Project(s.log, k)| + 1
      && Project(s'.log, k)[..|Project(s.log, k)|] == Project(s.log, k)
      && var e := Project(s'.log, k)[|Project(s.log, k)|];
         && e.Release?
         && Shape(e.sent) == r.(externalPort := s.leases[k].externalPort)
         && Get(s'.leases, k) == (if e.ok then None else Some(s.leases[k]))
  }

  predicate PortsGranted(s: State) {
    forall k <- s.leases :: s.leases[k].externalPort != 0
  }

  predicate Untouched(k: Key, s: State, s': State) {
    Project(s'.log, k) == Project(s.log, k) && Get(s'.leases, k) == Get(s.leases, k)
  }

  predicate NotAmong(rs: seq<Request>, n: nat, k: Key)
    requires n <= |rs|
  {
    forall i :: 0 <= i < n ==> KeyOf(rs[i]) != k
  }

  /** A release pass over the first n requests. */
  ghost predicate ReleasedUpTo(s: State, s': State, errs: nat, rs: seq<Request>, n: nat)
    requires n <= |rs|
  {
    && (forall i :: 0 <= i < n ==> AccountedFor(Shape(rs[i]), s, s'))
    && (forall k :: NotAmong(rs, n, k) ==> Untouched(k, s, s'))
    && (errs == 0 <==> forall i :: 0 <= i < n ==> KeyOf(rs[i]) !in s'.leases)
    && s'.nextAt == s.nextAt
    && PortsGranted(s')
  }

  /** One iteration touches one mapping and accounts for it. */
  lemma StepAccounts(env: Env, s: State, errs: nat, r: Request)
    requires PortsGranted(s)
    ensures
      var (s', errs') := ReleaseStep(env, (s, errs), r);
      && PortsGranted(s')
      && AccountedFor(Shape(r), s, s')
      && (forall k :: k != KeyOf(r) ==> Untouched(k, s, s'))
      && (errs' == 0 <==> errs == 0 && KeyOf(r) !in s'.leases)
      && s'.nextAt == s.nextAt
  {
    hide Project;
    if KeyOf(r) in s.leases {
      var e := Release(KeyOf(r), ReleaseRequest(r, s.leases[KeyOf(r)]), env.unmapOk(s.tick));
      forall k ensures Project(s.log + [e], k) == if e.key == k then Project(s.log, k) + [e] else Project(s.log, k) {
        ProjectEmit(s.log, e, k);
      }
    }
  }

  lemma StepReleasesUpTo(env: Env, s: State, s': State, errs: nat, rs: seq<Request>, n: nat)
    requires DistinctKeys(rs) && n < |rs|
    requires ReleasedUpTo(s, s', errs, rs, n)
    ensures
      var (s'', errs'') := ReleaseStep(env, (s', errs), rs[n]);
      ReleasedUpTo(s, s'', errs'', rs, n + 1)
  {
    hide Project;
    hide ReleaseStep;
    var (s'', errs'') := ReleaseStep(env, (s', errs), rs[n]);
    StepAccounts(env, s', errs, rs[n]);
    var k := KeyOf(rs[n]);
    assert NotAmong(rs, n, k) && Untouched(k, s, s');
    forall i | 0 <= i < n ensures AccountedFor(Shape(rs[i]), s, s'') && (KeyOf(rs[i]) in s''.leases <==> KeyOf(rs[i]) in s'.leases) {
      assert Untouched(KeyOf(rs[i]), s', s'');
    }
    forall j | NotAmong(rs, n + 1, j) ensures Untouched(j, s, s'') {
      assert NotAmong(rs, n, j) && Untouched(j, s, s');
      assert KeyOf(rs[n]) != j && Untouched(j, s', s'');
    }
  }

  lemma NothingReleased(s: State, rs: seq<Request>)
    requires PortsGranted(s)
    ensures ReleasedUpTo(s, s, 0, rs, 0)
  {
  }

  lemma {:induction false} PassReleasesUpTo(env: Env, s: State, rs: seq<Request>, n: nat)
    requires DistinctKeys(rs) && n <= |rs| && PortsGranted(s)
    ensures ReleasedUpTo(s, ReleasePass(env, s, rs[..n]).0, ReleasePass(env, s, rs[..n]).1, rs, n)
  {
    hide Project;
    hide AccountedFor;
    hide ReleaseStep;
    if n > 0 {
      Grow(rs, n - 1);
      PassReleasesUpTo(env, s, rs, n - 1);
      var (s', errs) := ReleasePass(env, s, rs[..n - 1]);
      StepReleasesUpTo(env, s, s', errs, rs, n - 1);
    } else {
      NothingReleased(s, rs);
    }
  }

  /** Shutdown accounting: in every reachable state of a validated configuration,
      releaseAll sends exactly one release per recorded lease, for its granted
      port, leaves exactly the leases whose release failed, and reports success if
      and only if no lease remains. */
  lemma ShutdownAccounting(env: Env, c: Configuration, host: Host, n: nat)
    requires Acceptable(c, host)
    ensures
      var s := Waited(Rounds(env, c, n));
      var (s', errs) := ReleaseAll(env, s, c);
      && (forall r <- Plan(c.mappings) :: AccountedFor(r, s, s'))
      && (forall k :: k !in Keys(Plan(c.mappings)) ==> Untouched(k, s, s'))
      && (errs == 0 <==> s'.leases == map[])
      && s'.nextAt == s.nextAt
  {
    var s, plan := Waited(Rounds(env, c, n)), Plan(c.mappings);
    ScheduleInvariant(env, c, host, n);
    ValidatedKeysDistinct(c, host);
    hide Project;
    hide Plan;
    hide ReleasePass;
    if |s.leases| == 0 {
      assert s.leases == map[];
    } else {
      ReleaseAllAccounts(env, s, c);
    }
  }

  lemma ReleaseAllAccounts(env: Env, s: State, c: Configuration)
    requires DistinctKeys(Plan(c.mappings)) && s.leases.Keys <= Keys(Plan(c.mappings))
    requires |s.leases| != 0 && PortsGranted(s)
    ensures
      var (s', errs) := ReleaseAll(env, s, c);
      && (forall r <- Plan(c.mappings) :: AccountedFor(r, s, s'))
      && (forall k :: k !in Keys(Plan(c.mappings)) ==> Untouched(k, s, s'))
      && (errs == 0 <==> s'.leases == map[])
      && s'.nextAt == s.nextAt
  {
    hide Project;
    hide ReleasePass;
    hide AccountedFor;
    hide ReleasedUpTo;
    hide Requests;
    hide Plan;
    var rs := Requests(c, env.host(s.tick));
    RequestsFollowPlan(c, env.host(s.tick));
    KeysOfShapes(rs);
    PassReleasesUpTo(env, Tick(s), rs, |rs|);
    assert rs[..|rs|] == rs;
    var (s', errs) := ReleaseAll(env, s, c);
    AllReleased(s, s', errs, rs);
  }

  lemma AllReleased(s: State, s': State, errs: nat, rs: seq<Request>)
    requires ReleasedUpTo(Tick(s), s', errs, rs, |rs|) && s.leases.Keys <= Keys(rs)
    ensures forall r <- Shapes(rs) :: AccountedFor(r, s, s')
    ensures forall k :: k !in Keys(rs) ==> Untouched(k, s, s')
    ensures errs == 0 <==> s'.leases == map[]
    ensures s'.nextAt == s.nextAt
  {
    hide Project;
    forall r | r in Shapes(rs) ensures AccountedFor(r, s, s') {
      var i :| 0 <= i < |rs| && Shapes(rs)[i] == r;
      assert AccountedFor(Shape(rs[i]), Tick(s), s');
    }
    forall k | k !in Keys(rs) ensures Untouched(k, s, s') {
      assert NotAmong(rs, |rs|, k) && Untouched(k, Tick(s), s');
    }
    if errs == 0 {
      forall k ensures k !in s'.leases {
        if k !in Keys(rs) { assert Untouched(k, s, s'); }
      }
    }
  }

  /** After shutdown, the automaton of every mapping is closed with what is left of
      its lease, or idle if it held none. What the daemon still records is the port
      granted last and not released, over the whole life of the mapping. */
  lemma EveryMappingClosed(env: Env, c: Configuration, host: Host, n: nat, i: nat)
    requires Acceptable(c, host) && i < |Plan(c.mappings)|
    ensures
      var r, s := Plan(c.mappings)[i], Waited(Rounds(env, c, n));
      var k, s' := KeyOf(r), ReleaseAll(env, s, c).0;
      var tr := Project(s'.log, k);
      && Mine(r, tr)
      && Replay(r, tr) == Auto(if k in s.leases then Closed else Idle, Get(s'.leases, k), Get(s'.nextAt, k))
      && (k !in s.leases ==> k !in s'.leases)
      && LastGranted(tr) == PortOf(Get(s'.leases, k))
      && Sticky(r, tr)
      && (r.requireListener ==> Gated(tr))
  {
    hide Replay;
    hide Project;
    hide ReleaseAll;
    hide Rounds;
    hide AccountedFor;
    hide Gated;
    hide Sticky;
    hide LastGranted;
    var r, s := Plan(c.mappings)[i], Waited(Rounds(env, c, n));
    var k, s' := KeyOf(r), ReleaseAll(env, s, c).0;
    var tr := Project(s'.log, k);
    PerMappingRefinement(env, c, host, n, i);
    ShutdownAccounting(env, c, host, n);
    ScheduleInvariant(env, c, host, n);
    ProjectMine(s'.log, k);
    RequestsFollowPlan(c, host);
    ReleaseCloses(r, s, s');
    LeaseHoldsLastGranted(r, tr);
    StickyPort(r, tr);
    if r.requireListener { ListenerGating(r, tr); }
  }

  /** The one release of a mapping closes its automaton. */
  lemma ReleaseCloses(r: Request, s: State, s': State)
    requires AccountedFor(r, s, s') && PortsGranted(s) && s'.nextAt == s.nextAt && r == Shape(r)
    requires Replay(r, Project(s.log, KeyOf(r))) == Auto(Idle, Get(s.leases, KeyOf(r)), Get(s.nextAt, KeyOf(r)))
    ensures Replay(r, Project(s'.log, KeyOf(r)))
      == Auto(if KeyOf(r) in s.leases then Closed else Idle, Get(s'.leases, KeyOf(r)), Get(s'.nextAt, KeyOf(r)))
    ensures KeyOf(r) !in s.leases ==> KeyOf(r) !in s'.leases
  {
    hide Replay;
    hide Project;
    var k := KeyOf(r);
    if k in s.leases {
      var before, tr := Project(s.log, k), Project(s'.log, k);
      var e := tr[|before|];
      assert tr == before + [e];
      assert e.key == k by { ProjectMine(s'.log, k); }
      ReplayEmit(r, before, e);
    }
  }
}
