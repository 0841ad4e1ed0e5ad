/** The daemon as a class: its fields and the loops that update them
    (internal/daemon/daemon.go), each method proved to take the step that module
    Scheduler defines. */
module Daemon {
  import opened Prelude
  import opened Netip
  import opened Mapping
  import opened Config
  import opened Lifecycle
  import opened Scheduler
  import opened Wakeups
  import Detect
  import Netgw
  import Shutdown
  import Fidelity
  import Upnp

  /** The duration the timer is set to in state s: until the soonest wake-up, or a
      backoff if nothing is scheduled. */
  ghost predicate WaitsFor(env: Env, s: State, wait: Time) {
    if s.nextAt.Keys == {} then wait == RETRY_BACKOFF
    else exists t :: Soonest(s.nextAt, t) && wait == Max(t - env.now(s.tick), 0)
  }

  /** Probes of clients built for a gateway. */
  function At(probe: (Addr, Detect.Candidate, Duration) -> bool, gateway: Addr): (Detect.Candidate, Duration) -> bool {
    (c: Detect.Candidate, t: Duration) => probe(gateway, c, t)
  }

  class Daemon {
    const cfg: Configuration
    const env: Env
    const show: Addr -> string
    const igd: Upnp.Client
    var gateway: Addr
    var client: Option<Detect.Candidate>
    var leases: map<Key, Lease>
    var nextAt: map<Key, Time>
    var localIP: Addr
    var tick: nat                // the calls made to the environment so far
    ghost var advertised: Addr   // what igd advertises, before it is shown
    ghost var log: seq<Event>

    /** Whether the detected client is igd. */
    predicate IsUpnp()
      reads this`client
    {
      client.Some? && client.value.name == "upnp"
    }

    /** The environment with that client. */
    ghost function Wired(): Env
      reads this`client
    {
      env.(upnp := IsUpnp())
    }

    /** The UPnP client shows the advertised address. */
    ghost predicate Linked()
      reads this`advertised, igd
    {
      igd.internalClient == Upnp.Shown(advertised, show)
    }

    ghost function Abs(): State
      reads this
    {
      State(leases, nextAt, localIP, advertised, tick, log)
    }

    constructor (cfg: Configuration, env: Env, show: Addr -> string)
      ensures this.cfg == cfg && this.env == env && this.show == show
      ensures Abs() == EMPTY && client == None && Linked() && fresh(igd)
    {
      this.cfg, this.env, this.show := cfg, env, show;
      igd := new Upnp.Client();
      gateway, client := Invalid, None;
      leases, nextAt, localIP, advertised, tick, log := map[], map[], Invalid, Invalid, 0, [];
    }

    /** A clock reading. */
    method Now() returns (t: Time)
      modifies this`tick
      ensures t == env.now(old(tick)) && tick == old(tick) + 1
    {
      t := env.now(tick);
      tick := tick + 1;
    }

    method RefreshLocalAddr()
      requires Linked()
      modifies this`localIP, this`advertised, this`tick, igd`internalClient
      ensures Abs() == Refresh(Wired(), old(Abs())) && Linked()
    {
      var local := env.localAddr(tick);
      tick := tick + 1;
      if local.None? { return; }
      if local.value != localIP { localIP := local.value; }
      if IsUpnp() {
        igd.SetInternalClient(localIP, show);
        advertised := Upnp.Usable(localIP);
      }
    }

    /** The requests of this pass, with addresses resolved anew. */
    method CurrentRequests() returns (rs: seq<Request>)
      modifies this`tick
      ensures rs == Requests(cfg, env.host(old(tick))) && tick == old(tick) + 1
    {
      rs := ExpandRequests(cfg, env.host(tick));
      tick := tick + 1;
    }

    method ReleaseMapping(k: Key, r: Request)
      requires k == KeyOf(r)
      modifies this`leases, this`tick, this`log
      ensures Abs() == ReleaseOne(Wired(), old(Abs()), r)
    {
      if k !in leases { return; }
      var sent := ReleaseRequest(r, leases[k]);
      var ok := env.unmapOk(tick);
      tick, log := tick + 1, log + [Unmap(k, sent, ok)];
      leases := leases - {k};
    }

    method HasListener(k: Key, r: Request) returns (present: bool)
      requires k == KeyOf(r)
      modifies this`leases, this`nextAt, this`tick, this`log
      ensures present <==> env.presence(old(tick)) != Absent
      ensures
        var s := Emit(old(Abs()), Check(k, env.presence(old(tick))));
        Abs() == if present then s else Park(Wired(), s, r)
    {
      hide ReleaseRequest;
      var p := env.presence(tick);
      tick, log := tick + 1, log + [Check(k, p)];
      ghost var s := Abs();
      if p == CheckFailed { return true; }
      if p == Present { return true; }
      if k in leases { ReleaseMapping(k, r); }
      assert Abs() == ReleaseOne(Wired(), s, r);
      hide ReleaseOne;
      var now := Now();
      log := log + [Clock(k, now)];
      nextAt := nextAt[k := now + LISTENER_POLL];
      return false;
    }

    method Reconcile(r: Request)
      modifies this`leases, this`nextAt, this`tick, this`log
      ensures Abs() == ReconcileOne(Wired(), old(Abs()), r)
    {
      var k := KeyOf(r);
      if r.requireListener {
        var present := HasListener(k, r);
        if !present { return; }
      }
      var sent := MapRequest(r, Get(leases, k));
      var answer := env.mapAnswer(tick);
      tick, log := tick + 1, log + [Map(k, sent, answer)];
      if !GrantAccepted(sent, answer) {
        var now := Now();
        log := log + [Clock(k, now)];
        nextAt := nextAt[k := now + RETRY_BACKOFF];
        return;
      }
      leases := leases[k := answer.lease];
      nextAt := nextAt[k := answer.lease.RenewBefore()];
    }

    method ReconcileAll()
      modifies this`leases, this`nextAt, this`tick, this`log
      ensures
        var s := old(Abs());
        Abs() == StartPass(Wired(), Tick(s), Requests(cfg, env.host(s.tick)))
    {
      ghost var s := Tick(Abs());
      var rs := CurrentRequests();
      for i := 0 to |rs|
        invariant Abs() == StartPass(Wired(), s, rs[..i])
      {
        Grow(rs, i);
        log := log + [Wake(KeyOf(rs[i]), None)];
        Reconcile(rs[i]);
      }
      assert rs[..|rs|] == rs;
    }

    /** The wait until the soonest wake-up, whatever the order of the map. */
    method TimeUntilNext() returns (wait: Time, found: bool)
      modifies this`tick
      ensures found <==> nextAt.Keys != {}
      ensures found ==> exists t :: Soonest(nextAt, t) && wait == Max(t - env.now(old(tick)), 0)
      ensures Abs() == Waited(old(Abs()))
    {
      var soonest: Time := 0;
      found := false;
      var todo := nextAt.Keys;
      while todo != {}
        invariant todo <= nextAt.Keys
        invariant found <==> todo != nextAt.Keys
        invariant found ==> exists k :: k in nextAt.Keys - todo && nextAt[k] == soonest
        invariant found ==> forall k <- nextAt.Keys - todo :: soonest <= nextAt[k]
        decreases todo
      {
        var k :| k in todo;
        var at := nextAt[k];
        if !found || at < soonest {
          soonest := at;
          found := true;
        }
        assert nextAt.Keys - (todo - {k}) == nextAt.Keys - todo + {k};
        todo := todo - {k};
      }
      if !found { return 0, false; }
      assert Soonest(nextAt, soonest);
      var now := Now();
      wait := Max(soonest - now, 0);
    }

    method RenewDueMappings()
      requires Linked()
      modifies this`leases, this`nextAt, this`tick, this`log, this`localIP, this`advertised, igd`internalClient
      ensures Abs() == RenewDue(Wired(), old(Abs()), cfg) && Linked()
    {
      hide ReconcileOne;
      hide Requests;
      hide Refresh;
      hide Upnp.Shown;
      hide KeyOf;
      RefreshLocalAddr();
      var now := Now();
      var rs := CurrentRequests();
      ghost var s := Abs();
      for i := 0 to |rs|
        invariant Linked()
        invariant Abs() == DuePass(Wired(), s, rs[..i], now)
      {
        Grow(rs, i);
        var k := KeyOf(rs[i]);
        if k !in nextAt || nextAt[k] > now { continue; }
        log := log + [Wake(k, Some(now))];
        Reconcile(rs[i]);
      }
      assert rs[..|rs|] == rs;
    }

    /** Returns the errors of the failed releases, by their number. */
    method ReleaseEverything() returns (errs: nat)
      modifies this`leases, this`tick, this`log
      ensures (Abs(), errs) == ReleaseAll(Wired(), old(Abs()), cfg)
    {
      hide Requests;
      hide ReleaseRequest;
      hide KeyOf;
      errs := 0;
      if |leases| == 0 { return; }
      ghost var s := Tick(Abs());
      var rs := CurrentRequests();
      for i := 0 to |rs|
        invariant (Abs(), errs) == ReleasePass(Wired(), s, rs[..i])
      {
        Grow(rs, i);
        var k := KeyOf(rs[i]);
        if k !in leases { continue; }
        var sent := ReleaseRequest(rs[i], leases[k]);
        var ok := env.unmapOk(tick);
        tick, log := tick + 1, log + [Release(k, sent, ok)];
        if !ok {
          errs := errs + 1;
          continue;
        }
        leases := leases - {k};
      }
      assert rs[..|rs|] == rs;
    }

    /** The loop, cancelled after its timer fired the given number of times. Also
        returns the durations the timer was set to. */
    method RenewLoop(firings: nat) returns (errs: nat, waits: seq<Time>)
      requires Linked()
      modifies this`leases, this`nextAt, this`tick, this`log, this`localIP, this`advertised, igd`internalClient
      ensures Linked()
      ensures |waits| == firings + 1
      ensures forall i :: 0 <= i <= firings ==> WaitsFor(Wired(), RoundsFrom(Wired(), cfg, old(Abs()), i), waits[i])
      ensures (Abs(), errs) == ReleaseAll(Wired(), Waited(RoundsFrom(Wired(), cfg, old(Abs()), firings)), cfg)
    {
      hide RenewDue;
      hide ReleaseAll;
      hide WaitsFor;
      hide Waited;
      waits := [];
      ghost var s := Abs();
      var fired := 0;
      while true
        invariant Linked()
        invariant fired <= firings && |waits| == fired
        invariant Abs() == RoundsFrom(Wired(), cfg, s, fired)
        invariant forall i :: 0 <= i < fired ==> WaitsFor(Wired(), RoundsFrom(Wired(), cfg, s, i), waits[i])
        decreases firings - fired
      {
        var wait := NextWait();
        waits := waits + [wait];
        if fired == firings {
          errs := ReleaseEverything();
          return;
        }
        RenewDueMappings();
        fired := fired + 1;
      }
    }

    /** The duration the timer is set to. */
    method NextWait() returns (wait: Time)
      modifies this`tick
      ensures WaitsFor(Wired(), old(Abs()), wait) && Abs() == Waited(old(Abs()))
    {
      var hasNext;
      wait, hasNext := TimeUntilNext();
      if !hasNext { wait := RETRY_BACKOFF; }
    }

    /** Run; cancelled after the given number of timer firings. The routing table,
        the probes and the end of the context during detection are as given. */
    method Run(header: bool, rows: seq<seq<string>>, readOk: bool,
        probe: (Addr, Detect.Candidate, Duration) -> bool, cancelled: nat -> bool, firings: nat)
      returns (ran: bool, errs: nat, waits: seq<Time>)
      requires Abs() == EMPTY && client == None && Linked()
      modifies this, igd
      ensures Linked()
      ensures ran <==> !Netgw.NoGateway(header, rows, readOk) && SomeoneAnswers(probe, cancelled)
      ensures !Netgw.NoGateway(header, rows, readOk) ==> Netgw.IsBest(rows, gateway)
      ensures !ran ==> Abs() == EMPTY && client == None
      ensures ran ==>
        && client.Some?
        && Detect.Chosen(Detect.CANDIDATES, cfg.detect.order, Answering(probe), client.value)
        && |waits| == firings + 1
        && (forall i :: 0 <= i <= firings ==> WaitsFor(Wired(), Rounds(Wired(), cfg, i), waits[i]))
        && (Abs(), errs) == ReleaseAll(Wired(), Waited(Rounds(Wired(), cfg, firings)), cfg)
        && localIP == Rounds(Wired(), cfg, firings).localIP
        && igd.internalClient == (if IsUpnp() then Showing() else "")
    {
      hide StartPass;
      hide RoundsFrom;
      hide ReleaseAll;
      hide WaitsFor;
      hide Detect.Chosen;
      hide Detect.Ordering;
      hide Detect.SomeAnswer;
      hide Netgw.NoGateway;
      hide Netgw.IsBest;
      ran, errs, waits := false, 0, [];
      var found := Netgw.ParseDefaultGateway(header, rows, readOk);
      if found.None? { return; }
      gateway := found.value;
      var d := Detect.DefaultDetect(
        Detect.CANDIDATES, cfg.detect.order, cfg.detect.timeout, At(probe, gateway), cancelled);
      if !d.Found? { return; }
      client := Some(d.client);
      RefreshLocalAddr();
      ReconcileAll();
      errs, waits := RenewLoop(firings);
      Fidelity.FinalAddress(Wired(), cfg, firings);
      ran := true;
    }

    /** The local address as a string, if it is usable. */
    function Showing(): string
      reads this`localIP
    {
      if localIP.IsValid() && !localIP.IsUnspecified() then show(localIP) else ""
    }

    /** The candidates that answer at the gateway in the time they get. */
    function Answering(probe: (Addr, Detect.Candidate, Duration) -> bool): Detect.Candidate -> bool
      reads this`gateway
    {
      Detect.Answers(At(probe, gateway), if cfg.detect.timeout == 0 then 3 * SECOND else cfg.detect.timeout)
    }

    ghost predicate SomeoneAnswers(probe: (Addr, Detect.Candidate, Duration) -> bool, cancelled: nat -> bool)
      reads this`gateway
    {
      Detect.SomeAnswer(Detect.Ordering(Detect.CANDIDATES, cfg.detect.order), Answering(probe), cancelled)
    }
  }

  /** The program: load and validate the configuration, then run. It runs exactly if
      the configuration is acceptable, there is a gateway, and a protocol answers at
      it; then every mapping is accounted for, and success is reported exactly if no
      lease remains. */
  method Serve(c: Configuration, host: Host, env: Env, show: Addr -> string,
      header: bool, rows: seq<seq<string>>, readOk: bool,
      probe: (Addr, Detect.Candidate, Duration) -> bool, cancelled: nat -> bool, firings: nat)
    returns (d: Daemon, ran: bool, errs: nat)
    ensures fresh(d) && d.Linked()
    ensures ran <==>
      && Acceptable(c, host) && !Netgw.NoGateway(header, rows, readOk)
      && Netgw.IsBest(rows, d.gateway) && d.SomeoneAnswers(probe, cancelled)
    ensures ran ==>
      && d.client.Some?
      && Detect.Chosen(Detect.CANDIDATES, c.detect.order, d.Answering(probe), d.client.value)
      && (forall r <- Plan(c.mappings) ::
            Shutdown.AccountedFor(r, Waited(Rounds(d.Wired(), c, firings)), d.Abs()))
      && (errs == 0 <==> d.leases == map[])
      && d.localIP == Rounds(d.Wired(), c, firings).localIP
      && d.igd.internalClient == (if d.IsUpnp() then d.Showing() else "")
    ensures !ran ==> d.Abs() == EMPTY
  {
    hide Acceptable;
    hide Shutdown.AccountedFor;
    hide Rounds;
    hide Detect.Chosen;
    hide Detect.Ordering;
    hide Detect.SomeAnswer;
    hide Netgw.NoGateway;
    hide Netgw.IsBest;
    d := new Daemon(c, env, show);
    ran, errs := false, 0;
    var ok := Validate(c, host);
    if !ok { return; }
    var waits;
    ran, errs, waits := d.Run(header, rows, readOk, probe, cancelled, firings);
    Shutdown.ShutdownAccounting(d.Wired(), c, host, firings);
  }
}
