/** The daemon's clock assumption holds of its three clients, whatever the network
    and the gateway do. */
module ClientLeases {
  import opened Prelude
  import opened Netip
  import opened Mapping
  import opened Config
  import opened Lifecycle
  import opened Scheduler
  import opened Wakeups
  import Exchange
  import NatPmpClient
  import PcpClient
  import PcpCodec
  import Upnp

  /** A Map call of one of the clients, with what the network answers. A UPnP call
      takes the given time. */
  datatype Call =
    | ViaNatPmp(c: NatPmpClient.Client, r: Request, io: NatPmpClient.Io, addressIo: NatPmpClient.Io)
    | ViaPcp(p: Exchange.Params, r: Request, nonce: PcpCodec.Nonce, client: Addr, net: Exchange.Net)
    | ViaUpnp(r: Request, externalIP: Option<Addr>, took: nat)

  /** The lease the call returns when it starts at the given time. */
  function LeaseOf(call: Call, start: Time): Result<Lease> {
    match call
    case ViaNatPmp(c, r, io, addressIo) => NatPmpClient.MapOutcome(c, r, io, addressIo, start).0
    case ViaPcp(p, r, nonce, client, net) =>
      var run := Exchange.ExchangeRun(net, p, start);
      PcpClient.LeaseFrom(r, PcpClient.Query(r, nonce, client, WireSeconds(r)), Exchange.AsResult(run.reply), run.end)
    case ViaUpnp(r, externalIP, took) =>
      if ValidRequest(r) && externalIP.Some? then Ok(Upnp.LeaseFor(r, externalIP.value, start + took))
      else Err(ErrOther)
  }

  /** The one client contract: a lease passes the daemon's check for its request,
      lasts one second up to the largest lease, and is dated within the call. */
  lemma Contract(call: Call, start: Time)
    requires LeaseOf(call, start).Ok?
    ensures
      var l := LeaseOf(call, start).value;
      ValidLease(call.r, l) && SECOND <= l.lifetime <= MAX_LEASE && start <= l.acquired
  {
    hide Exchange.ExchangeRun;
    match call
    case ViaNatPmp(c, r, io, addressIo) => NatPmpClient.LeaseContract(c, r, io, addressIo, start);
    case ViaPcp(p, r, nonce, client, net) =>
      var run := Exchange.ExchangeRun(net, p, start);
      Exchange.ExchangeKeepsPromise(net, p, start);
      PcpClient.LeaseContract(r, nonce, client, Exchange.AsResult(run.reply), run.end);
    case ViaUpnp(r, externalIP, took) => Upnp.LeaseContract(r, "", externalIP.value, start + took);
  }

  /** Every lease the daemon gets comes from a call that started at the clock's
      reading. */
  ghost predicate FromClients(env: Env, calls: nat -> Call) {
    forall i: nat :: env.mapAnswer(i).Granted? ==> LeaseOf(calls(i), env.now(i)) == Ok(env.mapAnswer(i).lease)
  }

  lemma ClientsShareClock(env: Env, calls: nat -> Call)
    requires Monotone(env) && FromClients(env, calls)
    ensures SharedClock(env)
  {
    hide LeaseOf;
    forall i: nat | env.mapAnswer(i).Granted?
      ensures env.now(i) <= env.mapAnswer(i).lease.acquired && 2 <= env.mapAnswer(i).lease.lifetime
    {
      Contract(calls(i), env.now(i));
    }
  }

  /** So with any of the clients no wake-up is missed and none is busy. */
  lemma NoBusyWakeups(env: Env, c: Configuration, host: Host, n: nat, calls: nat -> Call)
    requires Acceptable(c, host) && Monotone(env) && FromClients(env, calls)
    requires TimerHonest(env, Rounds(env, c, n))
    ensures
      var plan, s, s' := Plan(c.mappings), Rounds(env, c, n), Rounds(env, c, n + 1);
      var now := env.now(s.tick + 2);
      && SomeDue(plan, s.nextAt, now)
      && Wakes(s'.log) == Wakes(s.log) + DueOf(plan, s.nextAt, now)
      && AllLater(s', now)
  {
    hide Acceptable;
    hide Monotone;
    hide FromClients;
    hide TimerHonest;
    hide Rounds;
    hide Plan;
    hide SomeDue;
    hide Wakes;
    hide DueOf;
    hide AllLater;
    ClientsShareClock(env, calls);
    NoMissedNoBusyWakeups(env, c, host, n);
  }
}
