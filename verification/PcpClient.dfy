/** The PCP client and its nonce cache (internal/portmapper/pcp/pcp.go). */
module PcpClient {
  import opened Prelude
  import opened Wire
  import opened Netip
  import opened Mapping
  import opened Exchange
  import opened PcpCodec
  import Lifecycle

  const PORT: u16 := 5351
  const BUFFER: nat := 1100

  datatype NonceKey = NonceKey(protocol: Protocol, internalPort: u16)

  type Cache = map<NonceKey, Nonce>

  /** The answers a call gets: the client address if the socket opens, a fresh
      nonce if one can be made, and the network. */
  datatype Io = Io(dialed: Option<Addr>, newNonce: Option<Nonce>, net: Net)

  function NonceKeyOf(r: Request): NonceKey { NonceKey(r.protocol, r.internalPort) }

  const ANY_ADDRESS: Addr := V6(Zeros(16), "")

  /** The MAP request for r with a nonce and a lifetime. */
  function Query(r: Request, nonce: Nonce, client: Addr, secs: u32): MapRequest {
    MapRequest(nonce, r.protocol, r.internalPort, r.externalPort, ANY_ADDRESS, client, secs)
  }

  /** The cache after nonceFor, and the nonce it returns. */
  function NonceFor(cache: Cache, k: NonceKey, newNonce: Option<Nonce>): (Cache, Option<Nonce>) {
    if k in cache then (cache, Some(cache[k]))
    else if newNonce.None? then (cache, None)
    else (cache[k := newNonce.value], newNonce)
  }

  /** The cache and the request once everything before the exchange is done; no
      request if some step failed. */
  function Prepare(cache: Cache, r: Request, secs: u32, dialed: Option<Addr>, newNonce: Option<Nonce>)
    : (Cache, Option<MapRequest>)
  {
    if dialed.None? then (cache, None)
    else
      var (cache', nonce) := NonceFor(cache, NonceKeyOf(r), newNonce);
      if nonce.None? || !Encodable(Query(r, nonce.value, dialed.value, secs)) then (cache', None)
      else (cache', Some(Query(r, nonce.value, dialed.value, secs)))
  }

  /** The reply to a request, if it succeeds and echoes the request's fields. */
  function Echoed(q: MapRequest, reply: Result<seq<byte>>): Result<MapResponse> {
    match reply
    case Err(e) => Err(e)
    case Ok(b) =>
      match DecodeMapResponse(b)
      case Err(e) => Err(e)
      case Ok(m) =>
        if m.nonce != q.nonce || Some(m.protocol) != IpProtocol(q.protocol) || m.internalPort != q.internalPort
        then Err(ErrOther) else Ok(m)
  }

  /** The lease a Map returns for its reply. */
  function LeaseFrom(r: Request, q: MapRequest, reply: Result<seq<byte>>, at: Time): Result<Lease> {
    match Echoed(q, reply)
    case Err(e) => Err(e)
    case Ok(m) =>
      if m.externalPort == 0 || m.lifetimeSec == 0 then Err(ErrOther)
      else Ok(Lease(r.protocol, m.internalPort, m.externalPort, m.externalAddr, FromWireSeconds(m.lifetimeSec), at))
  }

  function Failure<T>(r: Result<T>): Option<Error> {
    match r case Ok(_) => None case Err(e) => Some(e)
  }

  /** The cache after an Unmap got its reply. */
  function AfterUnmap(cache: Cache, r: Request, q: MapRequest, reply: Result<seq<byte>>): Cache {
    if Echoed(q, reply).Ok? then cache - {NonceKeyOf(r)} else cache
  }

  function ParamsOf(gateway: Addr, initial: nat, maxAttempts: int, q: MapRequest): Params
    requires Encodable(q)
  {
    Params(Endpoint(gateway, PORT), PrintRequest(q), MESSAGE, BUFFER, initial, maxAttempts)
  }

  class Client {
    const gateway: Addr
    const initial: nat
    const maxAttempts: int
    var nonces: Cache

    constructor (gateway: Addr, initial: nat, maxAttempts: int)
      ensures nonces == map[]
      ensures this.gateway == gateway && this.initial == initial && this.maxAttempts == maxAttempts
    {
      this.gateway, this.initial, this.maxAttempts := gateway, initial, maxAttempts;
      nonces := map[];
    }

    /** The exchange of request q on a network. */
    function Asked(q: MapRequest, net: Net, start: Time): Run
      requires Encodable(q)
    {
      ExchangeRun(net, ParamsOf(gateway, initial, maxAttempts, q), start)
    }

    method CachedNonce(r: Request, newNonce: Option<Nonce>) returns (nonce: Option<Nonce>)
      modifies this
      ensures (nonces, nonce) == NonceFor(old(nonces), NonceKeyOf(r), newNonce)
    {
      var k := NonceKeyOf(r);
      if k in nonces { return Some(nonces[k]); }
      if newNonce.None? { return None; }
      nonces := nonces[k := newNonce.value];
      return newNonce;
    }

    method DeleteNonce(r: Request)
      modifies this
      ensures nonces == old(nonces) - {NonceKeyOf(r)}
    {
      nonces := nonces - {NonceKeyOf(r)};
    }

    method Ask(q: MapRequest, net: Net, start: Time) returns (reply: Result<seq<byte>>, end: Time)
      requires Encodable(q)
      ensures reply == AsResult(Asked(q, net, start).reply) && end == Asked(q, net, start).end
    {
      var bytes := EncodeMapRequest(q);
      var run := Exchange.Exchange(net, ParamsOf(gateway, initial, maxAttempts, q).(req := bytes.value), start);
      return AsResult(run.reply), run.end;
    }

    method Map(r: Request, io: Io, start: Time) returns (lease: Result<Lease>)
      modifies this
      ensures !ValidRequest(r) ==> lease == Err(ErrOther) && nonces == old(nonces)
      ensures ValidRequest(r) ==>
        var (cache, q) := Prepare(old(nonces), r, WireSeconds(r), io.dialed, io.newNonce);
        && nonces == cache
        && (q.None? ==> lease == Err(ErrOther))
        && (q.Some? ==>
              var run := Asked(q.value, io.net, start);
              lease == LeaseFrom(r, q.value, AsResult(run.reply), run.end))
    {
      if !ValidRequest(r) { return Err(ErrOther); }
      var lifetime := r.lease;
      if lifetime <= 0 { lifetime := HOUR; }
      if io.dialed.None? { return Err(ErrOther); }
      var nonce := CachedNonce(r, io.newNonce);
      if nonce.None? { return Err(ErrOther); }
      var q := Query(r, nonce.value, io.dialed.value, ToU32(lifetime / SECOND));
      if !Encodable(q) { return Err(ErrOther); }
      var reply, end := Ask(q, io.net, start);
      if reply.Err? { return Err(reply.error); }
      var decoded := DecodeMapResponse(reply.value);
      if decoded.Err? { return Err(decoded.error); }
      var m := decoded.value;
      if m.nonce != q.nonce { return Err(ErrOther); }
      if Some(m.protocol) != IpProtocol(r.protocol) { return Err(ErrOther); }
      if m.internalPort != r.internalPort { return Err(ErrOther); }
      if m.externalPort == 0 { return Err(ErrOther); }
      if m.lifetimeSec == 0 { return Err(ErrOther); }
      return Ok(Lease(r.protocol, m.internalPort, m.externalPort, m.externalAddr, FromWireSeconds(m.lifetimeSec), end));
    }

    method Unmap(r: Request, io: Io, start: Time) returns (error: Option<Error>)
      modifies this
      ensures !ValidRequest(r) ==> error == Some(ErrOther) && nonces == old(nonces)
      ensures ValidRequest(r) ==>
        var (cache, q) := Prepare(old(nonces), r, 0, io.dialed, io.newNonce);
        && (q.None? ==> error == Some(ErrOther) && nonces == cache)
        && (q.Some? ==>
              var reply := AsResult(Asked(q.value, io.net, start).reply);
              && nonces == AfterUnmap(cache, r, q.value, reply)
              && error == Failure(Echoed(q.value, reply)))
      ensures
        var k := NonceKey(r.protocol, r.internalPort);
        && nonces - {k} == old(nonces) - {k}
        && (error.None? ==> k !in nonces)
        && (k in old(nonces) && error.Some? ==> k in nonces && nonces[k] == old(nonces[k]))
    {
      if !ValidRequest(r) { return Some(ErrOther); }
      if io.dialed.None? { return Some(ErrOther); }
      var nonce := CachedNonce(r, io.newNonce);
      if nonce.None? { return Some(ErrOther); }
      var q := Query(r, nonce.value, io.dialed.value, 0);
      if !Encodable(q) { return Some(ErrOther); }
      var reply, end := Ask(q, io.net, start);
      if reply.Err? { return Some(reply.error); }
      var decoded := DecodeMapResponse(reply.value);
      if decoded.Err? { return Some(decoded.error); }
      var m := decoded.value;
      if m.nonce != q.nonce { return Some(ErrOther); }
      if Some(m.protocol) != IpProtocol(r.protocol) { return Some(ErrOther); }
      if m.internalPort != r.internalPort { return Some(ErrOther); }
      DeleteNonce(r);
      return None;
    }

    /** The probe: a MAP with internal port and lifetime zero and a nonce that is
        not cached. */
    method ExternalIP(io: Io, start: Time) returns (addr: Result<Addr>)
      ensures
        var q := PrepareProbe(io.dialed, io.newNonce);
        if q.None? then addr == Err(ErrOther)
        else
          match Echoed(q.value, AsResult(Asked(q.value, io.net, start).reply))
          case Ok(m) => addr == Ok(m.externalAddr)
          case Err(e) => addr == Err(e)
    {
      if io.dialed.None? { return Err(ErrOther); }
      if io.newNonce.None? { return Err(ErrOther); }
      var q := ProbeQuery(io.newNonce.value, io.dialed.value);
      if !Encodable(q) { return Err(ErrOther); }
      var reply, end := Ask(q, io.net, start);
      if reply.Err? { return Err(reply.error); }
      var decoded := DecodeMapResponse(reply.value);
      if decoded.Err? { return Err(decoded.error); }
      var m := decoded.value;
      if m.nonce != q.nonce { return Err(ErrOther); }
      if m.protocol != 6 { return Err(ErrOther); }
      if m.internalPort != 0 { return Err(ErrOther); }
      return Ok(m.externalAddr);
    }
  }

  /** The probe, if everything before its exchange succeeds. */
  function PrepareProbe(dialed: Option<Addr>, newNonce: Option<Nonce>): (q: Option<MapRequest>)
    ensures q.Some? ==> Encodable(q.value)
  {
    if dialed.None? || newNonce.None? || !Encodable(ProbeQuery(newNonce.value, dialed.value)) then None
    else Some(ProbeQuery(newNonce.value, dialed.value))
  }

  function ProbeQuery(nonce: Nonce, client: Addr): MapRequest {
    MapRequest(nonce, TCP, 0, 0, ANY_ADDRESS, client, 0)
  }

  /** Client contract: a lease returned without error is one the daemon accepts
      for its request and lasts between one second and the largest lease. */
  lemma LeaseContract(r: Request, nonce: Nonce, client: Addr, reply: Result<seq<byte>>, at: Time)
    requires LeaseFrom(r, Query(r, nonce, client, WireSeconds(r)), reply, at).Ok?
    ensures
      var l := LeaseFrom(r, Query(r, nonce, client, WireSeconds(r)), reply, at).value;
      Lifecycle.ValidLease(r, l) && SECOND <= l.lifetime <= MAX_LEASE && l.acquired == at
  {
    FromWireSecondsExact(Echoed(Query(r, nonce, client, WireSeconds(r)), reply).value.lifetimeSec);
  }

  /** An honest gateway, which echoes the request's nonce, protocol and internal
      port with a port and a lifetime, is accepted and its grant reported. */
  lemma HonestGatewayAccepted(r: Request, q: MapRequest, m: MapResponse, at: Time)
    requires ValidRequest(r) && q.protocol == r.protocol && q.internalPort == r.internalPort
    requires m.nonce == q.nonce && Some(m.protocol) == IpProtocol(r.protocol) && m.internalPort == r.internalPort
    requires m.externalPort != 0 && m.lifetimeSec != 0 && m.externalAddr.IsValid()
    ensures LeaseFrom(r, q, Ok(PrintResponse(0, m)), at) == Ok(Lease(
      r.protocol, r.internalPort, m.externalPort, m.externalAddr.Canonical(), m.lifetimeSec * SECOND, at))
  {
    PrintedUnreserved(0, m);
    DecodesWhatIsPrinted(PrintResponse(0, m), m);
    FromWireSecondsExact(m.lifetimeSec);
  }

  /** A reply counts as an answer to request q exactly if, reserved bytes aside, it
      begins with a printed success that echoes q's nonce, protocol and internal
      port. */
  lemma EchoedExactly(q: MapRequest, b: seq<byte>)
    ensures Echoed(q, Ok(b)).Ok? <==>
      exists m: MapResponse ::
        && |b| >= MESSAGE && m.externalAddr.IsValid() && Unreserved(b) == PrintResponse(0, m)
        && m.nonce == q.nonce && Some(m.protocol) == IpProtocol(q.protocol) && m.internalPort == q.internalPort
  {
    hide DecodeMapResponse;
    hide PrintResponse;
    hide Unreserved;
    if Echoed(q, Ok(b)).Ok? {
      var m := DecodeMapResponse(b).value;
      DecodedAddressValid(b);
      DecodesWhatIsPrinted(b, m);
    }
    if m: MapResponse :|
      && |b| >= MESSAGE && m.externalAddr.IsValid() && Unreserved(b) == PrintResponse(0, m)
      && m.nonce == q.nonce && Some(m.protocol) == IpProtocol(q.protocol) && m.internalPort == q.internalPort
    {
      DecodesWhatIsPrinted(b, m);
    }
  }

  lemma DecodedAddressValid(b: seq<byte>)
    requires DecodeMapResponse(b).Ok?
    ensures DecodeMapResponse(b).value.externalAddr.IsValid()
  {
    As16OfFrom16(b[44..60]);
  }

  /** The bytes of a MAP request, field by field: the client's own address, the
      protocol number, the ports, and no preference for an external address. */
  predicate Says(b: seq<byte>, secs: u32, client: Addr, nonce: Nonce, protocol: Protocol, internal: u16,
      external: u16)
  {
    ParseRequest(b) == Some(PcpCodec.Received.Received(
      secs, client.Canonical(), nonce, if protocol == "tcp" then 6 else 17, internal, external, V6(Zeros(16), "")))
  }

  /** Before its exchange a call caches a nonce only if it needs and gets one, and
      goes on exactly with a socket, a nonce and a valid address of its own. */
  lemma PrepareExactly(cache: Cache, r: Request, secs: u32, dialed: Option<Addr>, newNonce: Option<Nonce>)
    requires ValidRequest(r)
    ensures
      var k := NonceKey(r.protocol, r.internalPort);
      var (cache', q) := Prepare(cache, r, secs, dialed, newNonce);
      && cache' == (if dialed.Some? && k !in cache && newNonce.Some? then cache[k := newNonce.value] else cache)
      && (q.Some? <==> dialed.Some? && k in cache' && dialed.value.IsValid())
      && (q.Some? ==>
            && Encodable(q.value)
            && Says(PrintRequest(q.value), secs, dialed.value, cache'[k], r.protocol, r.internalPort, r.externalPort))
  {
    hide PrintRequest;
    hide ParseRequest;
    hide Says;
    var q := Prepare(cache, r, secs, dialed, newNonce).1;
    if q.Some? { QuerySays(q.value); }
  }

  lemma QuerySays(q: MapRequest)
    requires Encodable(q) && q.externalAddr == ANY_ADDRESS
    ensures Says(PrintRequest(q), q.lifetimeSec, q.clientAddr, q.nonce, q.protocol, q.internalPort, q.externalPort)
  {
    hide PrintRequest;
    hide ParseRequest;
    RequestRoundTrip(q);
    AnyIsZero();
  }

  lemma AnyIsZero()
    ensures ANY_ADDRESS.Canonical() == V6(Zeros(16), "")
  {
    assert Zeros(16)[..12][11] == 0 && MappedPrefix()[11] == 255;
  }

  /** Whatever the network does, everything a Map sends goes to the gateway's PCP port
      and creates, with the lifetime asked for; everything an Unmap or a probe sends
      has lifetime zero, and all of it names the client's own address. */
  lemma OnlyCreatesAndOnlyDeletes(gateway: Addr, initial: nat, maxAttempts: int, net: Net, start: Time,
      cache: Cache, r: Request, dialed: Option<Addr>, newNonce: Option<Nonce>)
    requires ValidRequest(r)
    ensures
      var (cache', q) := Prepare(cache, r, WireSeconds(r), dialed, newNonce);
      q.Some? ==>
        && WireSeconds(r) * SECOND == (if r.lease > 0 then r.lease else 3600 * SECOND)
        && forall a <- ExchangeRun(net, ParamsOf(gateway, initial, maxAttempts, q.value), start).attempts ::
             && a.server == Endpoint(gateway, 5351)
             && Says(a.sent, WireSeconds(r), dialed.value, cache'[NonceKey(r.protocol, r.internalPort)],
                  r.protocol, r.internalPort, r.externalPort)
    ensures
      var (cache', q) := Prepare(cache, r, 0, dialed, newNonce);
      q.Some? ==>
        forall a <- ExchangeRun(net, ParamsOf(gateway, initial, maxAttempts, q.value), start).attempts ::
          && a.server == Endpoint(gateway, 5351)
          && Says(a.sent, 0, dialed.value, cache'[NonceKey(r.protocol, r.internalPort)],
               r.protocol, r.internalPort, r.externalPort)
    ensures
      var q := PrepareProbe(dialed, newNonce);
      && (q.Some? <==> dialed.Some? && newNonce.Some? && dialed.value.IsValid())
      && (q.Some? ==>
            forall a <- ExchangeRun(net, ParamsOf(gateway, initial, maxAttempts, q.value), start).attempts ::
              && a.server == Endpoint(gateway, 5351)
              && Says(a.sent, 0, dialed.value, newNonce.value, "tcp", 0, 0))
  {
    hide ExchangeRun;
    hide PrintRequest;
    hide Says;
    hide Prepare;
    CreateNeverSentAsDelete(r);
    FromWireSecondsExact(WireSeconds(r));
    PrepareExactly(cache, r, WireSeconds(r), dialed, newNonce);
    PrepareExactly(cache, r, 0, dialed, newNonce);
    var q, q' := Prepare(cache, r, WireSeconds(r), dialed, newNonce).1, Prepare(cache, r, 0, dialed, newNonce).1;
    if q.Some? { AllSentAreTheRequest(net, ParamsOf(gateway, initial, maxAttempts, q.value), start); }
    if q'.Some? { AllSentAreTheRequest(net, ParamsOf(gateway, initial, maxAttempts, q'.value), start); }
    var probe := PrepareProbe(dialed, newNonce);
    if probe.Some? {
      QuerySays(probe.value);
      AllSentAreTheRequest(net, ParamsOf(gateway, initial, maxAttempts, probe.value), start);
    }
  }

  /** A refusal reaches the caller of Map and of Unmap as the error of its code. */
  lemma RefusalReachesCaller(r: Request, q: MapRequest, code: byte, m: MapResponse, at: Time)
    requires code != 0
    ensures
      var reply := Ok(PrintResponse(code, m));
      && LeaseFrom(r, q, reply, at).Err? && ErrorOf(code, LeaseFrom(r, q, reply, at).error)
      && Failure(Echoed(q, reply)).Some? && ErrorOf(code, Failure(Echoed(q, reply)).value)
  {
    hide DecodeMapResponse;
    hide PrintResponse;
    RefusalReported(code, m);
  }
}
