/** The daemon's shared state and its steps as functions on values
    (internal/daemon/daemon.go). Class Daemon implements them; the lemmas here and
    in Refinement are about every run of them.

    The environment is a stream of answers indexed by a tick that every call to it
    advances, so that quantifying over all environments covers every behaviour of
    the client, the listener check, the clock and the host. */
module Scheduler {
  import opened Prelude
  import opened Netip
  import opened Mapping
  import opened Config
  import opened Lifecycle
  import Upnp

  datatype Env = Env(
    now: nat -> Time,
    presence: nat -> Presence,
    mapAnswer: nat -> MapAnswer,
    unmapOk: nat -> bool,
    localAddr: nat -> Option<Addr>,
    host: nat -> Host,
    upnp: bool)                     // whether the detected client is the UPnP one

  /** leases, nextAt and localIP are the daemon's fields, advertised is the UPnP
      client's; tick and log record the environment's use. */
  datatype State = State(
    leases: map<Key, Lease>,
    nextAt: map<Key, Time>,
    localIP: Addr,
    advertised: Addr,
    tick: nat,
    log: seq<Event>)

  const EMPTY := State(map[], map[], Invalid, Invalid, 0, [])

  function Get<K, V>(m: map<K, V>, k: K): Option<V> {
    if k in m then Some(m[k]) else None
  }

  function Emit(s: State, e: Event): State { s.(tick := s.tick + 1, log := s.log + [e]) }

  function Tick(s: State): State { s.(tick := s.tick + 1) }

  function Refresh(env: Env, s: State): State {
    match env.localAddr(s.tick)
    case None => Tick(s)
    case Some(a) => Tick(s.(localIP := a, advertised := if env.upnp then Upnp.Usable(a) else s.advertised))
  }

  /** Reading the clock to reschedule a mapping. */
  function Reschedule(env: Env, s: State, k: Key, delay: Duration): State {
    var now := env.now(s.tick);
    Emit(s, Clock(k, now)).(nextAt := s.nextAt[k := now + delay])
  }

  function ReleaseOne(env: Env, s: State, r: Request): State {
    var k := KeyOf(r);
    if k !in s.leases then s
    else Emit(s, Unmap(k, ReleaseRequest(r, s.leases[k]), env.unmapOk(s.tick))).(leases := s.leases - {k})
  }

  /** The listener check said absent: release what is held and poll later. */
  function Park(env: Env, s: State, r: Request): State {
    Reschedule(env, ReleaseOne(env, s, r), KeyOf(r), LISTENER_POLL)
  }

  /** Map, then record the lease or schedule a retry. */
  function Attempt(env: Env, s: State, r: Request): State {
    var k := KeyOf(r);
    var sent := MapRequest(r, Get(s.leases, k));
    var answer := env.mapAnswer(s.tick);
    var s' := Emit(s, Map(k, sent, answer));
    if GrantAccepted(sent, answer)
    then s'.(leases := s.leases[k := answer.lease], nextAt := s.nextAt[k := answer.lease.RenewBefore()])
    else Reschedule(env, s', k, RETRY_BACKOFF)
  }

  function ReconcileOne(env: Env, s: State, r: Request): State {
    if !r.requireListener then Attempt(env, s, r)
    else
      var p := env.presence(s.tick);
      var s' := Emit(s, Check(KeyOf(r), p));
      if p == Absent then Park(env, s', r) else Attempt(env, s', r)
  }

  function WakeUp(s: State, k: Key, at: Option<Time>): State { s.(log := s.log + [Wake(k, at)]) }

  /** reconcileAll over the given requests. */
  function StartPass(env: Env, s: State, rs: seq<Request>): State {
    if rs == [] then s
    else StartStep(env, StartPass(env, s, rs[..|rs| - 1]), rs[|rs| - 1])
  }

  function StartStep(env: Env, s: State, r: Request): State {
    ReconcileOne(env, WakeUp(s, KeyOf(r), None), r)
  }

  predicate Due(s: State, k: Key, now: Time) { k in s.nextAt && s.nextAt[k] <= now }

  /** The loop of renewDue over the given requests. */
  function DuePass(env: Env, s: State, rs: seq<Request>, now: Time): State {
    if rs == [] then s
    else
      DueStep(env, DuePass(env, s, rs[..|rs| - 1], now), rs[|rs| - 1], now)
  }

  /** renewDue skips a mapping that is not scheduled or not due yet. */
  function DueStep(env: Env, s: State, r: Request, now: Time): State {
    if Due(s, KeyOf(r), now) then ReconcileOne(env, WakeUp(s, KeyOf(r), Some(now)), r) else s
  }

  function RenewDue(env: Env, s: State, c: Configuration): State {
    var s1 := Refresh(env, s);
    var s2 := Tick(s1);
    DuePass(env, Tick(s2), Requests(c, env.host(s2.tick)), env.now(s1.tick))
  }

  /** timeUntilNext reads the clock only if something is scheduled. */
  function Waited(s: State): State { if s.nextAt.Keys == {} then s else Tick(s) }

  /** Run up to the renew loop. */
  function Started(env: Env, c: Configuration): State {
    var s := Refresh(env, EMPTY);
    StartPass(env, Tick(s), Requests(c, env.host(s.tick)))
  }

  /** The state after n wake-ups of the renew loop entered in state s. */
  function RoundsFrom(env: Env, c: Configuration, s: State, n: nat): State {
    if n == 0 then s else RenewDue(env, Waited(RoundsFrom(env, c, s, n - 1)), c)
  }

  /** The state after n wake-ups of a run. */
  function Rounds(env: Env, c: Configuration, n: nat): State {
    RoundsFrom(env, c, Started(env, c), n)
  }

  /** One iteration of releaseAll. */
  function ReleaseStep(env: Env, before: (State, nat), r: Request): (State, nat) {
    var (s, errs) := before;
    var k := KeyOf(r);
    if k !in s.leases then (s, errs)
    else
      var ok := env.unmapOk(s.tick);
      var s' := Emit(s, Release(k, ReleaseRequest(r, s.leases[k]), ok));
      if ok then (s'.(leases := s.leases - {k}), errs) else (s', errs + 1)
  }

  /** The loop of releaseAll; also returns the number of failed releases. */
  function ReleasePass(env: Env, s: State, rs: seq<Request>): (State, nat) {
    if rs == [] then (s, 0) else ReleaseStep(env, ReleasePass(env, s, rs[..|rs| - 1]), rs[|rs| - 1])
  }

  function ReleaseAll(env: Env, s: State, c: Configuration): (State, nat) {
    if |s.leases| == 0 then (s, 0)
    else ReleasePass(env, Tick(s), Requests(c, env.host(s.tick)))
  }

  // ---- The configured mappings, whatever the host answers ----

  function Shapes(rs: seq<Request>): (r: seq<Request>)
    ensures |r| == |rs| && forall i :: 0 <= i < |rs| ==> r[i] == Shape(rs[i])
  {
    seq(|rs|, i requires 0 <= i < |rs| => Shape(rs[i]))
  }

  predicate DistinctKeys(rs: seq<Request>) {
    forall i, j :: 0 <= i < j < |rs| ==> KeyOf(rs[i]) != KeyOf(rs[j])
  }

  function Keys(rs: seq<Request>): set<Key> {
    set i | 0 <= i < |rs| :: KeyOf(rs[i])
  }

  /** The mappings of a configuration without addresses. */
  function Plan(ms: seq<PortMapping>): seq<Request> {
    if ms == [] then []
    else
      var m := ms[|ms| - 1];
      Plan(ms[..|ms| - 1])
        + seq(|Protocols(m)|, i requires 0 <= i < |Protocols(m)| => RequestFor(m, Protocols(m)[i], Invalid))
  }

  /** Re-resolving addresses never changes anything else. */
  lemma {:induction false} ShapesAreFixed(ms: seq<PortMapping>, defaultAddr: Addr, host: Host)
    ensures Shapes(Flatten(ms, defaultAddr, host)) == Plan(ms)
  {
    if ms != [] {
      ShapesAreFixed(ms[..|ms| - 1], defaultAddr, host);
      var init, last := Flatten(ms[..|ms| - 1], defaultAddr, host), MappingRequests(ms[|ms| - 1], defaultAddr, host);
      assert Shapes(init + last) == Shapes(init) + Shapes(last);
    }
  }

  lemma RequestsFollowPlan(c: Configuration, host: Host)
    ensures Shapes(Requests(c, host)) == Plan(c.mappings)
  {
    ShapesAreFixed(c.mappings, OrInvalid(DefaultAddress(c, host)), host);
  }

  lemma KeysOfShapes(rs: seq<Request>)
    ensures Keys(Shapes(rs)) == Keys(rs)
    ensures DistinctKeys(Shapes(rs)) <==> DistinctKeys(rs)
  {
    assert forall i :: 0 <= i < |rs| ==> KeyOf(Shapes(rs)[i]) == KeyOf(rs[i]);
  }

  /** A configuration that passed Validate on any host gives every mapping a key
      of its own, on every host, and a PCP nonce key of its own. */
  lemma ValidatedKeysDistinct(c: Configuration, host: Host)
    requires Acceptable(c, host)
    ensures Plan(c.mappings) != [] && DistinctKeys(Plan(c.mappings))
    ensures forall i, j :: 0 <= i < j < |Plan(c.mappings)| ==>
      (Plan(c.mappings)[i].protocol, Plan(c.mappings)[i].internalPort)
        != (Plan(c.mappings)[j].protocol, Plan(c.mappings)[j].internalPort)
  {
    var rs := Requests(c, host);
    RequestsFollowPlan(c, host);
    assert Plan(c.mappings) == Shapes(rs);
    assert forall i :: 0 <= i < |rs| ==>
      Shapes(rs)[i].protocol == rs[i].protocol && Shapes(rs)[i].internalPort == rs[i].internalPort;
    var m := c.mappings[|c.mappings| - 1];
    assert |Plan(c.mappings)| >= |Protocols(m)|;
  }
}
