/** The NAT-PMP client (internal/portmapper/natpmp/natpmp.go). */
module NatPmpClient {
  import opened Prelude
  import opened Wire
  import opened Netip
  import opened Mapping
  import opened Exchange
  import opened NatPmpCodec
  import Hearing
  import Lifecycle

  const PORT: u16 := 5351
  const BUFFER: nat := 16

  datatype Client = Client(gateway: Addr, initial: nat, maxAttempts: int)

  /** Whether the socket opens, and how the network behaves on it. */
  datatype Io = Io(dialed: bool, net: Net)

  function ParamsOf(c: Client, req: seq<byte>, respLen: nat): Params {
    Params(Endpoint(c.gateway, PORT), req, respLen, BUFFER, c.initial, c.maxAttempts)
  }

  function Asked(c: Client, io: Io, req: seq<byte>, respLen: nat, start: Time): (Result<seq<byte>>, Time) {
    if !io.dialed then (Err(ErrOther), start)
    else
      var run := ExchangeRun(io.net, ParamsOf(c, req, respLen), start);
      (AsResult(run.reply), run.end)
  }

  method Ask(c: Client, io: Io, req: seq<byte>, respLen: nat, start: Time)
    returns (r: Result<seq<byte>>, end: Time)
    ensures (r, end) == Asked(c, io, req, respLen, start)
  {
    if !io.dialed { return Err(ErrOther), start; }
    var run := Exchange.Exchange(io.net, ParamsOf(c, req, respLen), start);
    return AsResult(run.reply), run.end;
  }

  /** The Map request that is sent for a valid request. */
  function MapBytes(r: Request): seq<byte>
    requires ValidRequest(r)
  {
    PrintRequest(MapRequest(MapOpcode(r.protocol).value, r.internalPort, r.externalPort, WireSeconds(r)))
  }

  function UnmapBytes(r: Request): seq<byte>
    requires ValidRequest(r)
  {
    PrintRequest(MapRequest(MapOpcode(r.protocol).value, r.internalPort, 0, 0))
  }

  /** The checks on the reply to a Map. */
  function Granted(r: Request, reply: Result<seq<byte>>): Result<MapResponse> {
    match reply
    case Err(e) => Err(e)
    case Ok(b) =>
      match DecodeMapResponse(b, r.protocol)
      case Err(e) => Err(e)
      case Ok(m) =>
        if m.internalPort != r.internalPort || m.externalPort == 0 || m.lifetimeSec == 0 then Err(ErrOther) else Ok(m)
  }

  function Address(reply: Result<seq<byte>>): Result<Addr> {
    match reply
    case Err(e) => Err(e)
    case Ok(b) =>
      match DecodeAddressResponse(b)
      case Err(e) => Err(e)
      case Ok(m) => Ok(V4(m.externalIP))
  }

  /** What a Map returns for the replies to its two queries. */
  function MapResult(r: Request, reply: Result<seq<byte>>, addressReply: Result<seq<byte>>, at: Time): Result<Lease> {
    match Granted(r, reply)
    case Err(e) => Err(e)
    case Ok(m) =>
      match Address(addressReply)
      case Err(e) => Err(e)
      case Ok(ip) => Ok(Lease(r.protocol, m.internalPort, m.externalPort, ip, FromWireSeconds(m.lifetimeSec), at))
  }

  /** Map on the network behaviours of its two exchanges, and when it returns. */
  function MapOutcome(c: Client, r: Request, io: Io, addressIo: Io, start: Time): (Result<Lease>, Time) {
    if !ValidRequest(r) then (Err(ErrOther), start)
    else
      var (reply, t) := Asked(c, io, MapBytes(r), 16, start);
      match Granted(r, reply)
      case Err(e) => (Err(e), t)
      case Ok(_) =>
        var (addressReply, t') := Asked(c, addressIo, ADDRESS_REQUEST, 12, t);
        (MapResult(r, reply, addressReply, t'), t')
  }

  method ExternalIP(c: Client, io: Io, start: Time) returns (r: Result<Addr>, end: Time)
    ensures r == Address(Asked(c, io, ADDRESS_REQUEST, 12, start).0)
    ensures end == Asked(c, io, ADDRESS_REQUEST, 12, start).1
  {
    var resp;
    resp, end := Ask(c, io, ADDRESS_REQUEST, 12, start);
    if resp.Err? { return Err(resp.error), end; }
    var decoded := DecodeAddressResponse(resp.value);
    if decoded.Err? { return Err(decoded.error), end; }
    return Ok(V4(decoded.value.externalIP)), end;
  }

  method Map(c: Client, r: Request, io: Io, addressIo: Io, start: Time) returns (lease: Result<Lease>, end: Time)
    ensures (lease, end) == MapOutcome(c, r, io, addressIo, start)
  {
    if !ValidRequest(r) { return Err(ErrOther), start; }
    var lifetime := r.lease;
    if lifetime <= 0 { lifetime := HOUR; }
    var req := EncodeMapRequest(r.protocol, r.internalPort, r.externalPort, ToU32(lifetime / SECOND));
    var resp;
    resp, end := Ask(c, io, req.value, 16, start);
    if resp.Err? { return Err(resp.error), end; }
    var decoded := DecodeMapResponse(resp.value, r.protocol);
    if decoded.Err? { return Err(decoded.error), end; }
    var m := decoded.value;
    if m.internalPort != r.internalPort { return Err(ErrOther), end; }
    if m.externalPort == 0 { return Err(ErrOther), end; }
    if m.lifetimeSec == 0 { return Err(ErrOther), end; }
    var ip;
    ip, end := ExternalIP(c, addressIo, end);
    if ip.Err? { return Err(ip.error), end; }
    return Ok(Lease(r.protocol, m.internalPort, m.externalPort, ip.value, FromWireSeconds(m.lifetimeSec), end)), end;
  }

  /** The checks on the reply to an Unmap. */
  function Released(r: Request, reply: Result<seq<byte>>): Option<Error> {
    match reply
    case Err(e) => Some(e)
    case Ok(b) =>
      match DecodeMapResponse(b, r.protocol)
      case Err(e) => Some(e)
      case Ok(m) => if m.internalPort != r.internalPort then Some(ErrOther) else None
  }

  method Unmap(c: Client, r: Request, io: Io, start: Time) returns (error: Option<Error>, end: Time)
    ensures !ValidRequest(r) ==> error == Some(ErrOther) && end == start
    ensures ValidRequest(r) ==>
      && error == Released(r, Asked(c, io, UnmapBytes(r), 16, start).0)
      && end == Asked(c, io, UnmapBytes(r), 16, start).1
  {
    if !ValidRequest(r) { return Some(ErrOther), start; }
    var req := EncodeMapRequest(r.protocol, r.internalPort, 0, 0);
    var resp;
    resp, end := Ask(c, io, req.value, 16, start);
    if resp.Err? { return Some(resp.error), end; }
    var decoded := DecodeMapResponse(resp.value, r.protocol);
    if decoded.Err? { return Some(decoded.error), end; }
    if decoded.value.internalPort != r.internalPort { return Some(ErrOther), end; }
    return None, end;
  }

  /** A Map's reply is taken as a grant exactly if it begins with a printed success
      for the protocol, for the requested internal port, with a port and a
      lifetime. */
  lemma GrantedExactly(r: Request, b: seq<byte>, m: MapResponse)
    requires ValidRequest(r)
    ensures Granted(r, Ok(b)) == Ok(m) <==>
      && |b| >= 16 && b[..16] == PrintResponse(MapOpcode(r.protocol).value, 0, m)
      && m.internalPort == r.internalPort && m.externalPort != 0 && m.lifetimeSec != 0
  {
    hide DecodeMapResponse;
    hide PrintResponse;
    DecodesWhatIsPrinted(b, r.protocol, m);
    if DecodeMapResponse(b, r.protocol).Ok? {
      DecodesWhatIsPrinted(b, r.protocol, DecodeMapResponse(b, r.protocol).value);
    }
  }

  /** Client contract: a lease returned without error is one the daemon accepts
      for its request, lasts between one second and the largest lease, and is dated
      within the call. */
  lemma LeaseContract(c: Client, r: Request, io: Io, addressIo: Io, start: Time)
    requires MapOutcome(c, r, io, addressIo, start).0.Ok?
    ensures
      var (result, end) := MapOutcome(c, r, io, addressIo, start);
      && Lifecycle.ValidLease(r, result.value)
      && SECOND <= result.value.lifetime <= MAX_LEASE
      && start <= result.value.acquired == end
  {
    var (reply, t) := Asked(c, io, MapBytes(r), 16, start);
    var m := Granted(r, reply).value;
    FromWireSecondsExact(m.lifetimeSec);
    AskedTakesTime(c, io, MapBytes(r), 16, start);
    AskedTakesTime(c, addressIo, ADDRESS_REQUEST, 12, t);
  }

  lemma AskedTakesTime(c: Client, io: Io, req: seq<byte>, respLen: nat, start: Time)
    ensures start <= Asked(c, io, req, respLen, start).1
  {
    ExchangeKeepsPromise(io.net, ParamsOf(c, req, respLen), start);
  }

  /** Whatever the network does, every datagram a Map sends asks for exactly the
      requested ports and a positive lifetime, the one asked for; every datagram an
      Unmap sends has lifetime and external port zero. */
  lemma OnlyCreatesAndOnlyDeletes(c: Client, r: Request, io: Io, start: Time)
    requires ValidRequest(r)
    ensures forall a <- ExchangeRun(io.net, ParamsOf(c, MapBytes(r), 16), start).attempts ::
      && a.server == Endpoint(c.gateway, 5351)
      && exists secs: u32 ::
           && secs > 0 && secs * SECOND == (if r.lease > 0 then r.lease else 3600 * SECOND)
           && ParseRequest(a.sent)
             == Some(MapRequest(if r.protocol == "tcp" then 2 else 1, r.internalPort, r.externalPort, secs))
    ensures forall a <- ExchangeRun(io.net, ParamsOf(c, UnmapBytes(r), 16), start).attempts ::
      && a.server == Endpoint(c.gateway, 5351)
      && ParseRequest(a.sent) == Some(MapRequest(if r.protocol == "tcp" then 2 else 1, r.internalPort, 0, 0))
    ensures forall a <- ExchangeRun(io.net, ParamsOf(c, ADDRESS_REQUEST, 12), start).attempts ::
      a.server == Endpoint(c.gateway, 5351) && a.sent == [0, 0]
  {
    hide ExchangeRun;
    hide ParseRequest;
    hide PrintRequest;
    CreateNeverSentAsDelete(r);
    var op := MapOpcode(r.protocol).value;
    RequestRoundTrip(MapRequest(op, r.internalPort, r.externalPort, WireSeconds(r)));
    RequestRoundTrip(MapRequest(op, r.internalPort, 0, 0));
    AllSentAreTheRequest(io.net, ParamsOf(c, MapBytes(r), 16), start);
    AllSentAreTheRequest(io.net, ParamsOf(c, UnmapBytes(r), 16), start);
    AllSentAreTheRequest(io.net, ParamsOf(c, ADDRESS_REQUEST, 12), start);
    FromWireSecondsExact(WireSeconds(r));
  }

  /** An honest gateway, which echoes the request's identifying fields with a port
      and a lifetime, and then its address, is accepted and its grant reported. */
  lemma HonestGatewayAccepted(c: Client, r: Request, io: Io, addressIo: Io, start: Time,
      m: MapResponse, a: AddressResponse)
    requires ValidRequest(r) && io.dialed && addressIo.dialed
    requires m.internalPort == r.internalPort && m.externalPort != 0 && m.lifetimeSec != 0
    requires
      var run := ExchangeRun(io.net, ParamsOf(c, MapBytes(r), 16), start);
      && run.reply == Got(PrintResponse(MapOpcode(r.protocol).value, 0, m))
      && ExchangeRun(addressIo.net, ParamsOf(c, ADDRESS_REQUEST, 12), run.end).reply == Got(PrintAddressResponse(a))
    ensures
      var (lease, end) := MapOutcome(c, r, io, addressIo, start);
      lease == Ok(Lease(r.protocol, r.internalPort, m.externalPort, V4(a.externalIP), m.lifetimeSec * SECOND, end))
  {
    hide ExchangeRun;
    var b, b' := PrintResponse(MapOpcode(r.protocol).value, 0, m), PrintAddressResponse(a);
    assert b[..16] == b && b'[..12] == b';
    DecodesWhatIsPrinted(b, r.protocol, m);
    AddressDecodesWhatIsPrinted(b', a);
    FromWireSecondsExact(m.lifetimeSec);
  }

  /** A grant is lost to the caller exactly if the address query after it fails. */
  lemma GrantLostExactly(c: Client, r: Request, io: Io, addressIo: Io, start: Time)
    requires ValidRequest(r) && Granted(r, Asked(c, io, MapBytes(r), 16, start).0).Ok?
    ensures
      var t := Asked(c, io, MapBytes(r), 16, start).1;
      && (MapOutcome(c, r, io, addressIo, start).0.Err? <==>
            Address(Asked(c, addressIo, ADDRESS_REQUEST, 12, t).0).Err?)
      && (!addressIo.dialed ==> MapOutcome(c, r, io, addressIo, start).0.Err?)
  {
  }

  /** A network that brings the given datagram from the server at the given time. */
  function Answering(server: Endpoint, data: seq<byte>, sent: nat, at: Time): Net {
    Net(_ => Some(sent), _ => true, _ => Datagram(data, server, at), _ => false, None)
  }

  /** It does happen: the gateway grants at once, then the socket for the address
      query does not open. */
  lemma GrantLost(c: Client, r: Request, m: MapResponse, start: Time)
    requires ValidRequest(r) && c.maxAttempts > 0
    requires m.internalPort == r.internalPort && m.externalPort != 0 && m.lifetimeSec != 0
    ensures
      var reply := PrintResponse(MapOpcode(r.protocol).value, 0, m);
      var net := Answering(Endpoint(c.gateway, PORT), reply, 12, start);
      && Granted(r, Asked(c, Io(true, net), MapBytes(r), 16, start).0) == Ok(m)
      && MapOutcome(c, r, Io(true, net), Io(false, net), start).0 == Err(ErrOther)
  {
    hide DecodeMapResponse;
    hide PrintResponse;
    hide PrintRequest;
    var reply := PrintResponse(MapOpcode(r.protocol).value, 0, m);
    var p := ParamsOf(c, MapBytes(r), 16);
    assert Kept(reply, BUFFER) == reply && reply[..16] == reply;
    GrantedExactly(r, reply, m);
    AnswerIsGot(p, reply, start);
  }

  lemma AnswerIsGot(p: Params, data: seq<byte>, start: Time)
    requires p.maxAttempts > 0 && p.respLen <= |Kept(data, p.bufSize)|
    ensures ExchangeRun(Answering(p.server, data, |p.req|, start), p, start).reply == Got(Kept(data, p.bufSize))
  {
  }

  /** An Unmap's reply counts as done exactly if it begins with a printed success for
      the protocol and the requested internal port. */
  lemma ReleasedExactly(r: Request, b: seq<byte>)
    requires ValidRequest(r)
    ensures Released(r, Ok(b)).None? <==>
      exists m: MapResponse ::
        && |b| >= 16 && b[..16] == PrintResponse(if r.protocol == "tcp" then 2 else 1, 0, m)
        && m.internalPort == r.internalPort
  {
    hide DecodeMapResponse;
    hide PrintResponse;
    if DecodeMapResponse(b, r.protocol).Ok? {
      DecodesWhatIsPrinted(b, r.protocol, DecodeMapResponse(b, r.protocol).value);
    }
    if m: MapResponse :|
      && |b| >= 16 && b[..16] == PrintResponse(if r.protocol == "tcp" then 2 else 1, 0, m)
      && m.internalPort == r.internalPort
    {
      DecodesWhatIsPrinted(b, r.protocol, m);
    }
  }

  /** A refusal reaches the caller of Map and of Unmap as the error of its code. */
  lemma RefusalReachesCaller(r: Request, code: u16, m: MapResponse)
    requires ValidRequest(r) && code != 0
    ensures
      var reply := Ok(PrintResponse(if r.protocol == "tcp" then 2 else 1, code, m));
      && Released(r, reply).Some? && ErrorOf(code, Released(r, reply).value)
      && Granted(r, reply).Err? && ErrorOf(code, Granted(r, reply).error)
  {
    hide DecodeMapResponse;
    hide PrintResponse;
    RefusalReported(r.protocol, code, m);
  }

  /** A gateway that answers a delete in some attempt makes Unmap succeed. */
  lemma HonestReleaseAccepted(c: Client, r: Request, io: Io, start: Time, n: nat, others: nat, m: MapResponse)
    requires ValidRequest(r) && io.dialed && n < c.maxAttempts && others < 16
    requires m.internalPort == r.internalPort
    requires
      var p := ParamsOf(c, UnmapBytes(r), 16);
      && Hearing.AnswersIn(io.net, p, start, n, others)
      && Hearing.Obliging(io.net, p, start + Budget(c.initial, n + 1))
      && io.net.arrival(n + others).data == PrintResponse(if r.protocol == "tcp" then 2 else 1, 0, m)
    ensures Released(r, Asked(c, io, UnmapBytes(r), 16, start).0) == None
  {
    var b := io.net.arrival(n + others).data;
    hide ExchangeRun;
    hide PrintRequest;
    hide PrintResponse;
    hide Hearing.AnswersIn;
    hide Hearing.Obliging;
    assert Kept(b, BUFFER) == b && b[..16] == b;
    Hearing.AnswerIsHeard(io.net, ParamsOf(c, UnmapBytes(r), 16), start, n, others);
    ReleasedExactly(r, b);
  }

  /** A gateway that grants a Map in some attempt is heard. */
  lemma HonestGrantHeard(c: Client, r: Request, io: Io, start: Time, n: nat, others: nat, m: MapResponse)
    requires ValidRequest(r) && io.dialed && n < c.maxAttempts && others < 16
    requires m.internalPort == r.internalPort && m.externalPort != 0 && m.lifetimeSec != 0
    requires
      var p := ParamsOf(c, MapBytes(r), 16);
      && Hearing.AnswersIn(io.net, p, start, n, others)
      && Hearing.Obliging(io.net, p, start + Budget(c.initial, n + 1))
      && io.net.arrival(n + others).data == PrintResponse(if r.protocol == "tcp" then 2 else 1, 0, m)
    ensures Granted(r, Asked(c, io, MapBytes(r), 16, start).0) == Ok(m)
  {
    var b := io.net.arrival(n + others).data;
    hide ExchangeRun;
    hide PrintRequest;
    hide PrintResponse;
    hide DecodeMapResponse;
    hide Hearing.AnswersIn;
    hide Hearing.Obliging;
    assert Kept(b, BUFFER) == b && b[..16] == b;
    Hearing.AnswerIsHeard(io.net, ParamsOf(c, MapBytes(r), 16), start, n, others);
    GrantedExactly(r, b, m);
  }
}
