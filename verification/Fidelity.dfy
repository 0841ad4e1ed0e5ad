/** What every run sends and hears: each call asks for a configured mapping as it was
    expanded for its pass, each event records what the environment answered to it, and
    each mapping's history says what is recorded and scheduled for it. */
module Fidelity {
  import opened Prelude
  import opened Netip
  import opened Mapping
  import opened Config
  import opened Lifecycle
  import opened Scheduler
  import opened Refinement
  import opened Wakeups
  import opened Shutdown

  /** The calls among the events: each took one tick. */
  function Calls(tr: seq<Event>): nat {
    if tr == [] then 0 else Calls(tr[..|tr| - 1]) + if tr[|tr| - 1].Wake? then 0 else 1
  }

  /** A request for a key is one of the expanded ones, but for the external port. */
  predicate SentFor(rs: seq<Request>, k: Key, sent: Request) {
    exists rq :: rq in rs && KeyOf(rq) == k && sent == rq.(externalPort := sent.externalPort)
  }

  /** The event of a call at a tick, among the requests of its pass. */
  predicate AnsweredBy(env: Env, rs: seq<Request>, e: Event, tick: nat) {
    match e
    case Wake(_, _) => true
    case Check(_, presence) => presence == env.presence(tick)
    case Map(k, sent, answer) => SentFor(rs, k, sent) && answer == env.mapAnswer(tick)
    case Unmap(k, sent, ok) => SentFor(rs, k, sent) && ok == env.unmapOk(tick)
    case Clock(_, now) => now == env.now(tick)
    case Release(k, sent, ok) => SentFor(rs, k, sent) && ok == env.unmapOk(tick)
  }

  /** The events of calls that start at a tick. */
  ghost predicate AllAnsweredBy(env: Env, rs: seq<Request>, tr: seq<Event>, tick: nat) {
    forall i :: 0 <= i < |tr| ==> AnsweredBy(env, rs, tr[i], tick + Calls(tr[..i]))
  }

  /** From state s to s' the environment was asked exactly for the new events. */
  ghost predicate Truly(env: Env, rs: seq<Request>, s: State, s': State) {
    && s.log <= s'.log
    && s'.tick == s.tick + Calls(Since(s, s'))
    && AllAnsweredBy(env, rs, Since(s, s'), s.tick)
  }

  lemma {:induction false} CallsConcat(a: seq<Event>, b: seq<Event>)
    ensures Calls(a + b) == Calls(a) + Calls(b)
  {
    if b == [] {
      assert a + b == a;
    } else {
      assert (a + b)[..|a + b| - 1] == a + b[..|b| - 1];
      CallsConcat(a, b[..|b| - 1]);
    }
  }

  lemma TrulyConcat(env: Env, rs: seq<Request>, s: State, s': State, s'': State)
    requires Truly(env, rs, s, s') && Truly(env, rs, s', s'')
    ensures Truly(env, rs, s, s'')
  {
    hide AnsweredBy;
    hide Calls;
    var a, b := Since(s, s'), Since(s', s'');
    var tr := a + b;
    assert Since(s, s'') == tr;
    CallsConcat(a, b);
    forall i | 0 <= i < |tr| ensures AnsweredBy(env, rs, tr[i], s.tick + Calls(tr[..i])) {
      if i < |a| {
        assert tr[..i] == a[..i];
      } else {
        assert tr[..i] == a + b[..i - |a|];
        CallsConcat(a, b[..i - |a|]);
      }
    }
  }

  /** A state with one more event. */
  lemma TrulyEmit(env: Env, rs: seq<Request>, s: State, s': State, e: Event)
    requires s'.log == s.log + [e] && s'.tick == s.tick + (if e.Wake? then 0 else 1)
    requires AnsweredBy(env, rs, e, s.tick)
    ensures Truly(env, rs, s, s')
  {
    hide AnsweredBy;
    var tr := [e];
    assert Since(s, s') == tr;
    assert tr[..|tr| - 1] == [] && Calls([]) == 0;
    assert Calls(tr) == if e.Wake? then 0 else 1;
  }

  lemma TrulyNothing(env: Env, rs: seq<Request>, s: State)
    ensures Truly(env, rs, s, s)
  {
  }

  lemma AttemptTruly(env: Env, s: State, r: Request, rs: seq<Request>)
    requires r in rs
    ensures Truly(env, rs, s, Attempt(env, s, r))
  {
    hide Truly;
    var k, answer := KeyOf(r), env.mapAnswer(s.tick);
    var sent := MapRequest(r, Get(s.leases, k));
    var s' := Emit(s, Map(k, sent, answer));
    assert sent == r.(externalPort := sent.externalPort);
    TrulyEmit(env, rs, s, s', Map(k, sent, answer));
    if GrantAccepted(sent, answer) {
      TrulyEmit(env, rs, s, Attempt(env, s, r), Map(k, sent, answer));
    } else {
      TrulyEmit(env, rs, s', Attempt(env, s, r), Clock(k, env.now(s'.tick)));
      TrulyConcat(env, rs, s, s', Attempt(env, s, r));
    }
  }

  lemma ParkTruly(env: Env, s: State, r: Request, rs: seq<Request>)
    requires r in rs
    ensures Truly(env, rs, s, Park(env, s, r))
  {
    hide Truly;
    var k, s' := KeyOf(r), ReleaseOne(env, s, r);
    if k in s.leases {
      var sent := ReleaseRequest(r, s.leases[k]);
      assert sent == r.(externalPort := sent.externalPort);
      TrulyEmit(env, rs, s, s', Unmap(k, sent, env.unmapOk(s.tick)));
    } else {
      TrulyNothing(env, rs, s);
    }
    TrulyEmit(env, rs, s', Park(env, s, r), Clock(k, env.now(s'.tick)));
    TrulyConcat(env, rs, s, s', Park(env, s, r));
  }

  lemma ReconcileTruly(env: Env, s: State, r: Request, at: Option<Time>, rs: seq<Request>)
    requires r in rs
    ensures Truly(env, rs, s, ReconcileOne(env, WakeUp(s, KeyOf(r), at), r))
  {
    hide Truly;
    hide Attempt;
    hide Park;
    var k := KeyOf(r);
    var w := WakeUp(s, k, at);
    var s' := ReconcileOne(env, w, r);
    TrulyEmit(env, rs, s, w, Wake(k, at));
    if r.requireListener {
      var c := Emit(w, Check(k, env.presence(w.tick)));
      TrulyEmit(env, rs, w, c, Check(k, env.presence(w.tick)));
      TrulyConcat(env, rs, s, w, c);
      AttemptTruly(env, c, r, rs);
      ParkTruly(env, c, r, rs);
      TrulyConcat(env, rs, s, c, s');
    } else {
      AttemptTruly(env, w, r, rs);
      TrulyConcat(env, rs, s, w, s');
    }
  }

  lemma ReleaseTruly(env: Env, before: (State, nat), r: Request, rs: seq<Request>)
    requires r in rs
    ensures Truly(env, rs, before.0, ReleaseStep(env, before, r).0)
  {
    hide Truly;
    var (s, errs) := before;
    var k := KeyOf(r);
    if k in s.leases {
      var sent := ReleaseRequest(r, s.leases[k]);
      assert sent == r.(externalPort := sent.externalPort);
      TrulyEmit(env, rs, s, ReleaseStep(env, before, r).0, Release(k, sent, env.unmapOk(s.tick)));
    } else {
      TrulyNothing(env, rs, s);
    }
  }

  lemma {:induction false} PassesTruly(env: Env, s: State, rs: seq<Request>, n: nat, now: Time)
    requires n <= |rs|
    ensures Truly(env, rs, s, StartPass(env, s, rs[..n]))
    ensures Truly(env, rs, s, DuePass(env, s, rs[..n], now))
    ensures Truly(env, rs, s, ReleasePass(env, s, rs[..n]).0)
  {
    hide Truly;
    hide ReconcileOne;
    hide ReleaseStep;
    if n > 0 {
      Grow(rs, n - 1);
      PassesTruly(env, s, rs, n - 1, now);
      var r, a, d := rs[n - 1], StartPass(env, s, rs[..n - 1]), DuePass(env, s, rs[..n - 1], now);
      var z := ReleasePass(env, s, rs[..n - 1]);
      ReconcileTruly(env, a, r, None, rs);
      TrulyConcat(env, rs, s, a, StartPass(env, s, rs[..n]));
      if Due(d, KeyOf(r), now) {
        ReconcileTruly(env, d, r, Some(now), rs);
        TrulyConcat(env, rs, s, d, DuePass(env, s, rs[..n], now));
      }
      ReleaseTruly(env, z, r, rs);
      TrulyConcat(env, rs, s, z.0, ReleasePass(env, s, rs[..n]).0);
    } else {
      TrulyNothing(env, rs, s);
    }
  }

  // ---- Passes of a run ----

  /** Start-up: the address at tick 0, the configuration expanded at tick 1, then
      only calls. */
  lemma StartFaithful(env: Env, c: Configuration)
    ensures AllAnsweredBy(env, Requests(c, env.host(1)), Started(env, c).log, 2)
  {
    hide Requests;
    hide AllAnsweredBy;
    hide StartPass;
    hide DuePass;
    hide ReleasePass;
    hide Calls;
    var s := Tick(Refresh(env, EMPTY));
    var rs := Requests(c, env.host(1));
    PassesTruly(env, s, rs, |rs|, 0);
    assert rs[..|rs|] == rs;
    assert Since(s, Started(env, c)) == Started(env, c).log;
  }

  /** A wake-up from state s: after the address, the clock and the configuration
      expanded at tick s.tick + 2, only calls. */
  lemma WakeupFaithful(env: Env, s: State, c: Configuration)
    ensures
      var s' := RenewDue(env, s, c);
      && s.log <= s'.log
      && AllAnsweredBy(env, Requests(c, env.host(s.tick + 2)), Since(s, s'), s.tick + 3)
  {
    hide Requests;
    hide AllAnsweredBy;
    hide Refresh;
    RefreshFrame(env, s);
    var s2 := Tick(Tick(Tick(s)));
    var s1 := Tick(Tick(Refresh(env, s)));
    var rs := Requests(c, env.host(s.tick + 2));
    PassesTruly(env, s1, rs, |rs|, env.now(s.tick + 1));
    assert rs[..|rs|] == rs;
    assert Since(s1, RenewDue(env, s, c)) == Since(s, RenewDue(env, s, c));
  }

  /** Shutdown: the configuration expanded once, then only releases. */
  lemma ShutdownFaithful(env: Env, s: State, c: Configuration)
    ensures
      var s' := ReleaseAll(env, s, c).0;
      && s.log <= s'.log
      && AllAnsweredBy(env, Requests(c, env.host(s.tick)), Since(s, s'), s.tick + 1)
  {
    hide Requests;
    hide AllAnsweredBy;
    hide ReleasePass;
    hide StartPass;
    hide DuePass;
    hide Calls;
    var rs := Requests(c, env.host(s.tick));
    if |s.leases| != 0 {
      PassesTruly(env, Tick(s), rs, |rs|, 0);
      assert rs[..|rs|] == rs;
      assert Since(Tick(s), ReleaseAll(env, s, c).0) == Since(s, ReleaseAll(env, s, c).0);
    } else {
      TrulyNothing(env, rs, Tick(s));
      assert Since(s, s) == Since(Tick(s), Tick(s));
    }
  }

  /** What every run sends and hears, pass by pass. */
  lemma EveryPassFaithful(env: Env, c: Configuration, n: nat)
    ensures AllAnsweredBy(env, Requests(c, env.host(1)), Rounds(env, c, 0).log, 2)
    ensures
      var s, s' := Waited(Rounds(env, c, n)), Rounds(env, c, n + 1);
      && s.log <= s'.log
      && AllAnsweredBy(env, Requests(c, env.host(s.tick + 2)), Since(s, s'), s.tick + 3)
    ensures
      var s := Waited(Rounds(env, c, n));
      var s' := ReleaseAll(env, s, c).0;
      && s.log <= s'.log
      && AllAnsweredBy(env, Requests(c, env.host(s.tick)), Since(s, s'), s.tick + 1)
  {
    hide Requests;
    hide AllAnsweredBy;
    hide Started;
    hide RenewDue;
    hide ReleaseAll;
    StartFaithful(env, c);
    NextRound(env, c, n);
    WakeupFaithful(env, Waited(Rounds(env, c, n)), c);
    ShutdownFaithful(env, Waited(Rounds(env, c, n)), c);
  }

  // ---- Histories of a run ----

  lemma PlanIsShaped(c: Configuration, i: nat)
    requires i < |Plan(c.mappings)|
    ensures Plan(c.mappings)[i] == Shape(Plan(c.mappings)[i])
  {
    var host := Host(_ => None, _ => None, None, s => s);
    RequestsFollowPlan(c, host);
  }

  /** In every run, the recorded lease and the wake-up time of each mapping are what
      its own history says, and its events come in order. */
  lemma HistoryInEveryRun(env: Env, c: Configuration, host: Host, n: nat, i: nat)
    requires Acceptable(c, host) && i < |Plan(c.mappings)|
    ensures
      var r, s := Plan(c.mappings)[i], Rounds(env, c, n);
      var k := KeyOf(r);
      var tr := Project(s.log, k);
      && WellOrdered(r, tr) && EndsPass(tr)
      && Get(s.leases, k) == LastLease(tr)
      && Get(s.nextAt, k) == Scheduled(tr)
  {
    hide Replay;
    hide Project;
    hide Rounds;
    hide WellOrdered;
    hide LastLease;
    hide Scheduled;
    var r, s := Plan(c.mappings)[i], Rounds(env, c, n);
    PlanIsShaped(c, i);
    PerMappingRefinement(env, c, host, n, i);
    ScheduleInvariant(env, c, host, n);
    ProjectMine(s.log, KeyOf(r));
    HistorySays(r, Project(s.log, KeyOf(r)));
    assert KeyOf(r) in s.nextAt by { InPlan(Plan(c.mappings), i); }
  }

  lemma InPlan(plan: seq<Request>, i: nat)
    requires i < |plan|
    ensures KeyOf(plan[i]) in Keys(plan)
  {
  }

  /** The same at the end of a run. */
  lemma HistoryToTheEnd(env: Env, c: Configuration, host: Host, n: nat, i: nat)
    requires Acceptable(c, host) && i < |Plan(c.mappings)|
    ensures
      var r, s' := Plan(c.mappings)[i], ReleaseAll(env, Waited(Rounds(env, c, n)), c).0;
      var tr := Project(s'.log, KeyOf(r));
      WellOrdered(r, tr) && Get(s'.leases, KeyOf(r)) == LastLease(tr)
  {
    hide Replay;
    hide Project;
    hide Rounds;
    hide ReleaseAll;
    hide WellOrdered;
    hide LastLease;
    hide Sticky;
    hide Gated;
    hide LastGranted;
    var r, s' := Plan(c.mappings)[i], ReleaseAll(env, Waited(Rounds(env, c, n)), c).0;
    PlanIsShaped(c, i);
    EveryMappingClosed(env, c, host, n, i);
    HistorySays(r, Project(s'.log, KeyOf(r)));
  }

  // ---- The local address ----

  /** The tick at which the local address is derived for round m. */
  function AddressTick(env: Env, c: Configuration, m: nat): nat {
    if m == 0 then 0 else Waited(Rounds(env, c, m - 1)).tick
  }

  /** Round m was the latest to find an address. */
  predicate LatestFound(env: Env, c: Configuration, n: nat, m: nat, a: Addr) {
    && m <= n && env.localAddr(AddressTick(env, c, m)) == Some(a)
    && (forall j :: m < j <= n ==> env.localAddr(AddressTick(env, c, j)) == None)
  }

  /** A wake-up takes over the address it finds, and keeps the old one if it finds
      none. */
  lemma WakeupTakesAddress(env: Env, s: State, c: Configuration)
    ensures RenewDue(env, s, c).localIP == match env.localAddr(s.tick) case Some(a) => a case None => s.localIP
  {
    hide DuePass;
    hide Requests;
    var s1 := Refresh(env, s);
    var s2 := Tick(s1);
    DuePassKeepsAddress(env, Tick(s2), Requests(c, env.host(s2.tick)), env.now(s1.tick));
  }

  lemma StartTakesAddress(env: Env, c: Configuration)
    ensures Started(env, c).localIP == match env.localAddr(0) case Some(a) => a case None => Invalid
  {
    hide StartPass;
    hide Requests;
    StartPassKeepsAddress(env, Tick(Refresh(env, EMPTY)), Requests(c, env.host(1)));
  }

  /** In every run the daemon's local address is the latest one found, if any was, and
      the UPnP client advertises it if it is usable. */
  lemma {:induction false} LocalAddressIsLatest(env: Env, c: Configuration, n: nat)
    ensures
      var s := Rounds(env, c, n);
      || (exists m :: LatestFound(env, c, n, m, s.localIP))
      || (s.localIP == Invalid && forall j :: 0 <= j <= n ==> env.localAddr(AddressTick(env, c, j)) == None)
    ensures
      var s := Rounds(env, c, n);
      s.advertised ==
        if env.upnp && s.localIP.IsValid() && !s.localIP.IsUnspecified() then s.localIP else Invalid
  {
    hide Started;
    hide RenewDue;
    AdvertisesCurrentAddress(env, c, n);
    if n == 0 {
      StartTakesAddress(env, c);
      if env.localAddr(0).Some? { assert LatestFound(env, c, 0, 0, Rounds(env, c, 0).localIP); }
    } else {
      LocalAddressIsLatest(env, c, n - 1);
      WakeupTakesAddress(env, Waited(Rounds(env, c, n - 1)), c);
      NextRound(env, c, n - 1);
      LatestNext(env, c, n - 1, Rounds(env, c, n - 1).localIP, Rounds(env, c, n).localIP);
    }
  }

  /** Shutdown does not touch the address. */
  lemma {:induction false} ReleasePassKeepsAddress(env: Env, s: State, rs: seq<Request>)
    ensures
      var s' := ReleasePass(env, s, rs).0;
      s'.localIP == s.localIP && s'.advertised == s.advertised
  {
    if rs != [] { ReleasePassKeepsAddress(env, s, rs[..|rs| - 1]); }
  }

  lemma FinalAddress(env: Env, c: Configuration, n: nat)
    ensures
      var s, s' := Rounds(env, c, n), ReleaseAll(env, Waited(Rounds(env, c, n)), c).0;
      && s'.localIP == s.localIP
      && s'.advertised ==
        if env.upnp && s.localIP.IsValid() && !s.localIP.IsUnspecified() then s.localIP else Invalid
  {
    hide Rounds;
    hide ReleasePass;
    hide Requests;
    var s := Waited(Rounds(env, c, n));
    LocalAddressIsLatest(env, c, n);
    ReleasePassKeepsAddress(env, Tick(s), Requests(c, env.host(s.tick)));
  }

  lemma LatestNext(env: Env, c: Configuration, n: nat, before: Addr, after: Addr)
    requires after == match env.localAddr(AddressTick(env, c, n + 1)) case Some(a) => a case None => before
    ensures env.localAddr(AddressTick(env, c, n + 1)).Some? ==> LatestFound(env, c, n + 1, n + 1, after)
    ensures env.localAddr(AddressTick(env, c, n + 1)).None? ==>
      && after == before
      && forall m :: LatestFound(env, c, n, m, before) ==> LatestFound(env, c, n + 1, m, after)
  {
    hide AddressTick;
  }
}
