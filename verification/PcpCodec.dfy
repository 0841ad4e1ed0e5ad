/** The PCP MAP wire format (internal/portmapper/pcp/codec.go; sections 7.1, 7.2,
    7.4 and 11.1 of RFC 6887). */
module PcpCodec {
  import opened Prelude
  import opened Wire
  import opened Netip
  import opened Mapping

  type Nonce = s: seq<byte> | |s| == 12 witness Zeros(12)

  const VERSION: byte := 2
  const OP_MAP: byte := 1
  const OP_MAP_RESPONSE: byte := 0x81
  const NOT_AUTHORIZED: byte := 2
  const ADDRESS_MISMATCH: byte := 12
  const MESSAGE: nat := 60

  function ResultError(code: byte): Option<Error> {
    match code
    case 0 => None
    case 2 => Some(ErrNotAuthorized)
    case 8 => Some(ErrNoResources)
    case 1 => Some(ErrUnsupported)
    case 4 => Some(ErrUnsupported)
    case _ => Some(ErrOther)
  }

  function IpProtocol(p: Protocol): Option<byte> {
    if p == TCP then Some(6) else if p == UDP then Some(17) else None
  }

  // ---- Requests ----

  datatype MapRequest = MapRequest(
    nonce: Nonce,
    protocol: Protocol,
    internalPort: u16,
    externalPort: u16,
    externalAddr: Addr,
    clientAddr: Addr,
    lifetimeSec: u32)

  predicate Encodable(q: MapRequest) {
    ValidProtocol(q.protocol) && q.clientAddr.IsValid() && q.externalAddr.IsValid()
  }

  /** The 60-byte form: the header of section 7.1, then the data of 11.1. */
  function PrintRequest(q: MapRequest): (b: seq<byte>)
    requires Encodable(q)
    ensures |b| == MESSAGE
  {
    [VERSION, OP_MAP, 0, 0] + Put32(q.lifetimeSec) + q.clientAddr.As16()
      + q.nonce + [IpProtocol(q.protocol).value, 0, 0, 0]
      + Put16(q.internalPort) + Put16(q.externalPort) + q.externalAddr.As16()
  }

  /** The fields a gateway reads from a request. */
  datatype Received = Received(
    lifetimeSec: u32,
    client: Addr,
    nonce: Nonce,
    protocol: byte,
    internalPort: u16,
    externalPort: u16,
    external: Addr)

  function ParseRequest(b: seq<byte>): Option<Received> {
    if |b| < MESSAGE || b[0] != VERSION || b[1] != OP_MAP then None
    else Some(Received(
      Get32(b, 4), From16(b[8..24]), b[24..36], b[36], Get16(b, 40), Get16(b, 42), From16(b[44..60])))
  }

  /** What reaches the gateway: everything, up to IPv4-mapped form and zone. */
  function AsReceived(q: MapRequest): Received
    requires Encodable(q)
  {
    Received(q.lifetimeSec, q.clientAddr.Canonical(), q.nonce, IpProtocol(q.protocol).value,
      q.internalPort, q.externalPort, q.externalAddr.Canonical())
  }

  /** Where the parts of a request lie, whatever they are. */
  lemma RequestSlices(head: seq<byte>, lifetime: seq<byte>, client: seq<byte>, nonce: seq<byte>, proto: seq<byte>,
      internal: seq<byte>, external: seq<byte>, address: seq<byte>)
    requires |head| == 4 && |lifetime| == 4 && |client| == 16 && |nonce| == 12
    requires |proto| == 4 && |internal| == 2 && |external| == 2 && |address| == 16
    ensures
      var b := head + lifetime + client + nonce + proto + internal + external + address;
      && |b| == MESSAGE
      && b[..4] == head && b[4..8] == lifetime && b[8..24] == client && b[24..36] == nonce
      && b[36..40] == proto && b[40..42] == internal && b[42..44] == external && b[44..60] == address
      && b[0] == head[0] && b[1] == head[1] && b[36] == proto[0]
  {
  }

  lemma RequestRoundTrip(q: MapRequest)
    requires Encodable(q)
    ensures ParseRequest(PrintRequest(q)) == Some(AsReceived(q))
  {
    hide Put16;
    hide Put32;
    hide From16;
    var b := PrintRequest(q);
    RequestSlices([VERSION, OP_MAP, 0, 0], Put32(q.lifetimeSec), q.clientAddr.As16(), q.nonce,
      [IpProtocol(q.protocol).value, 0, 0, 0], Put16(q.internalPort), Put16(q.externalPort), q.externalAddr.As16());
    Get32OfPut(b, 4, q.lifetimeSec);
    Get16OfPut(b, 40, q.internalPort);
    Get16OfPut(b, 42, q.externalPort);
    From16OfAs16(q.clientAddr);
    From16OfAs16(q.externalAddr);
  }

  /** Where sections 7.1 and 11.1 put the fields of a request. */
  lemma RequestLayout(q: MapRequest)
    requires Encodable(q)
    ensures
      var b := PrintRequest(q);
      && b[..4] == [2, 1, 0, 0] && Big32(b, 4, q.lifetimeSec) && b[8..24] == q.clientAddr.As16()
      && b[24..36] == q.nonce && b[36..40] == [if q.protocol == "tcp" then 6 else 17, 0, 0, 0]
      && Big16(b, 40, q.internalPort) && Big16(b, 42, q.externalPort) && b[44..60] == q.externalAddr.As16()
  {
    hide Put16;
    hide Put32;
    hide Big16;
    hide Big32;
    var b := PrintRequest(q);
    RequestSlices([VERSION, OP_MAP, 0, 0], Put32(q.lifetimeSec), q.clientAddr.As16(), q.nonce,
      [IpProtocol(q.protocol).value, 0, 0, 0], Put16(q.internalPort), Put16(q.externalPort), q.externalAddr.As16());
    PutIsBig32(b, 4, q.lifetimeSec);
    PutIsBig16(b, 40, q.internalPort);
    PutIsBig16(b, 42, q.externalPort);
  }

  /** Two requests have the same bytes exactly when they agree in every field, the
      addresses up to IPv4-mapped form and zone. */
  lemma RequestsInjective(q: MapRequest, q': MapRequest)
    requires Encodable(q) && Encodable(q')
    ensures PrintRequest(q) == PrintRequest(q') <==>
      && q.(clientAddr := q'.clientAddr, externalAddr := q'.externalAddr) == q'
      && q.clientAddr.Canonical() == q'.clientAddr.Canonical()
      && q.externalAddr.Canonical() == q'.externalAddr.Canonical()
  {
    SameAs16(q.clientAddr, q'.clientAddr);
    SameAs16(q.externalAddr, q'.externalAddr);
    if PrintRequest(q) == PrintRequest(q') {
      RequestRoundTrip(q);
      RequestRoundTrip(q');
    }
  }

  method EncodeMapRequest(q: MapRequest) returns (r: Option<seq<byte>>)
    ensures r.Some? <==> Encodable(q)
    ensures r.Some? ==> r.value == PrintRequest(q) && ParseRequest(r.value) == Some(AsReceived(q))
  {
    var proto := IpProtocol(q.protocol);
    if proto.None? { return None; }
    if !q.clientAddr.IsValid() { return None; }
    if !q.externalAddr.IsValid() { return None; }
    var b := new byte[60](_ => 0);
    var client, ext := q.clientAddr.As16(), q.externalAddr.As16();
    FillHeader(b, q.lifetimeSec, client);
    ghost var head := [VERSION, OP_MAP, 0, 0] + Put32(q.lifetimeSec) + client;
    FillData(b, head, q.nonce, proto.value, q.internalPort, q.externalPort, ext);
    RequestRoundTrip(q);
    return Some(b[..]);
  }

  /** The writes of encodeMapRequest into its zeroed buffer: the common header. */
  method FillHeader(b: array<byte>, lifetimeSec: u32, client: Octets16)
    requires b.Length == 60 && b[..] == Zeros(60)
    modifies b
    ensures b[..] == [VERSION, OP_MAP, 0, 0] + Put32(lifetimeSec) + client + Zeros(36)
  {
    b[0] := VERSION;
    b[1] := OP_MAP;
    assert b[..] == [VERSION, OP_MAP, 0, 0] + Zeros(56);
    PutUint32(b, 4, lifetimeSec);
    assert b[..] == [VERSION, OP_MAP, 0, 0] + Put32(lifetimeSec) + Zeros(52);
    CopyInto(b, 8, client);
  }

  /** The data of the MAP opcode, after the header. */
  method FillData(b: array<byte>, ghost head: seq<byte>, nonce: Nonce, proto: byte, internalPort: u16,
      externalPort: u16, ext: Octets16)
    requires b.Length == 60 && |head| == 24 && b[..] == head + Zeros(36)
    modifies b
    ensures b[..] == head + nonce + [proto, 0, 0, 0] + Put16(internalPort) + Put16(externalPort) + ext
  {
    CopyInto(b, 24, nonce);
    ghost var h := head + nonce;
    assert b[..] == h + Zeros(24);
    b[36] := proto;
    assert b[..] == h + [proto, 0, 0, 0] + Zeros(20);
    ghost var h' := h + [proto, 0, 0, 0];
    PutUint16(b, 40, internalPort);
    assert b[..] == h' + Put16(internalPort) + Zeros(18);
    PutUint16(b, 42, externalPort);
    assert b[..] == h' + Put16(internalPort) + Put16(externalPort) + Zeros(16);
    CopyInto(b, 44, ext);
  }

  // ---- Responses ----

  datatype MapResponse = MapResponse(
    lifetimeSec: u32,
    epoch: u32,
    nonce: Nonce,
    protocol: byte,
    internalPort: u16,
    externalPort: u16,
    externalAddr: Addr)

  /** A response around its reserved bytes, which are zero. */
  function Layout(head: seq<byte>, times: seq<byte>, data: seq<byte>, tail: seq<byte>): seq<byte> {
    head + times + Zeros(12) + data + Zeros(3) + tail
  }

  /** A response with the given result code: the header of section 7.2, then the
      data of 11.1, with the reserved bytes zero. */
  function PrintResponse(code: byte, m: MapResponse): (b: seq<byte>)
    ensures |b| == MESSAGE
  {
    Layout([VERSION, OP_MAP_RESPONSE, 0, code], Put32(m.lifetimeSec) + Put32(m.epoch),
      m.nonce + [m.protocol], Put16(m.internalPort) + Put16(m.externalPort) + m.externalAddr.As16())
  }

  /** The first 60 bytes with the reserved ones zeroed. */
  function Unreserved(b: seq<byte>): (r: seq<byte>)
    requires |b| >= MESSAGE
    ensures |r| == MESSAGE
  {
    Layout([b[0], b[1], 0, b[3]], b[4..12], b[24..37], b[40..60])
  }

  function DecodeMapResponse(b: seq<byte>): Result<MapResponse> {
    if |b| < MESSAGE then Err(ErrOther)
    else if b[0] != VERSION then Err(ErrOther)
    else if b[1] != OP_MAP_RESPONSE then Err(ErrOther)
    else
      match ResultError(b[3])
      case Some(e) => Err(e)
      case None => Ok(MapResponse(
        Get32(b, 4), Get32(b, 8), b[24..36], b[36], Get16(b, 40), Get16(b, 42), From16(b[44..60])))
  }

  /** Decoding accepts exactly the datagrams that, reserved bytes aside, begin with
      a printed success; it yields what was printed, with an IPv4-mapped address
      unmapped. */
  lemma DecodesWhatIsPrinted(b: seq<byte>, m: MapResponse)
    requires m.externalAddr.IsValid()
    ensures |b| >= MESSAGE && Unreserved(b) == PrintResponse(0, m) ==>
      DecodeMapResponse(b) == Ok(m.(externalAddr := m.externalAddr.Canonical()))
    ensures DecodeMapResponse(b) == Ok(m) ==>
      |b| >= MESSAGE && Unreserved(b) == PrintResponse(0, m) && m.externalAddr.Canonical() == m.externalAddr
  {
    if |b| >= MESSAGE && Unreserved(b) == PrintResponse(0, m) { PrintedIsDecoded(b, m); }
    if DecodeMapResponse(b) == Ok(m) { DecodedIsPrinted(b, m); }
  }

  predicate Meaningful(i: nat) {
    i < 2 || i == 3 || 4 <= i < 12 || 24 <= i < 37 || 40 <= i < MESSAGE
  }

  lemma UnreservedSlice(b: seq<byte>, lo: nat, hi: nat)
    requires |b| >= MESSAGE && lo <= hi <= MESSAGE
    requires forall i :: lo <= i < hi ==> Meaningful(i)
    ensures Unreserved(b)[lo..hi] == b[lo..hi]
  {
    forall i | lo <= i < hi ensures Unreserved(b)[i] == b[i] {
      assert Meaningful(i);
    }
  }

  lemma ResponseSlices(code: byte, m: MapResponse)
    ensures
      var t := PrintResponse(code, m);
      && t[0] == VERSION && t[1] == OP_MAP_RESPONSE && t[3] == code && t[36] == m.protocol
      && t[4..8] == Put32(m.lifetimeSec) && t[8..12] == Put32(m.epoch) && t[24..36] == m.nonce
      && t[40..42] == Put16(m.internalPort) && t[42..44] == Put16(m.externalPort)
      && t[44..60] == m.externalAddr.As16()
  {
  }

  /** Where sections 7.2 and 11.1 put the fields of a response. */
  lemma ResponseLayout(code: byte, m: MapResponse)
    ensures
      var b := PrintResponse(code, m);
      && b[0] == 2 && b[1] == 0x81 && b[3] == code && Big32(b, 4, m.lifetimeSec) && Big32(b, 8, m.epoch)
      && b[24..36] == m.nonce && b[36] == m.protocol
      && Big16(b, 40, m.internalPort) && Big16(b, 42, m.externalPort) && b[44..60] == m.externalAddr.As16()
  {
    hide PrintResponse;
    hide Big16;
    hide Big32;
    var b := PrintResponse(code, m);
    ResponseSlices(code, m);
    PutIsBig32(b, 4, m.lifetimeSec);
    PutIsBig32(b, 8, m.epoch);
    PutIsBig16(b, 40, m.internalPort);
    PutIsBig16(b, 42, m.externalPort);
  }

  /** A printed response has its reserved bytes zero. */
  lemma PrintedUnreserved(code: byte, m: MapResponse)
    ensures Unreserved(PrintResponse(code, m)) == PrintResponse(code, m)
  {
    var b := PrintResponse(code, m);
    ResponseSlices(code, m);
    assert b[4..12] == Put32(m.lifetimeSec) + Put32(m.epoch);
    assert b[24..37] == m.nonce + [m.protocol];
    assert b[40..60] == Put16(m.internalPort) + Put16(m.externalPort) + m.externalAddr.As16();
    assert [b[0], b[1], 0, b[3]] == [VERSION, OP_MAP_RESPONSE, 0, code];
  }

  /** The error of each refusal of section 7.4: unsupported version or opcode, not
      authorized, no resources; anything else has no name. */
  predicate ErrorOf(code: byte, e: Error) {
    match e
    case ErrUnsupported => code == 1 || code == 4
    case ErrNotAuthorized => code == 2
    case ErrNoResources => code == 8
    case ErrContext => false
    case ErrOther => code == 3 || 5 <= code <= 7 || code > 8
  }

  /** A printed refusal is reported as the error of its code. */
  lemma RefusalReported(code: byte, m: MapResponse)
    requires code != 0
    ensures
      var r := DecodeMapResponse(PrintResponse(code, m));
      r.Err? && ErrorOf(code, r.error)
  {
    ResponseSlices(code, m);
  }

  lemma PrintedIsDecoded(b: seq<byte>, m: MapResponse)
    requires m.externalAddr.IsValid()
    requires |b| >= MESSAGE && Unreserved(b) == PrintResponse(0, m)
    ensures DecodeMapResponse(b) == Ok(m.(externalAddr := m.externalAddr.Canonical()))
  {
    ResponseSlices(0, m);
    assert b[0] == Unreserved(b)[0] && b[1] == Unreserved(b)[1] && b[3] == Unreserved(b)[3];
    assert b[36] == Unreserved(b)[36];
    hide PrintResponse;
    hide Unreserved;
    hide Meaningful;
    UnreservedSlices(b);
    Get32OfPut(b, 4, m.lifetimeSec);
    Get32OfPut(b, 8, m.epoch);
    Get16OfPut(b, 40, m.internalPort);
    Get16OfPut(b, 42, m.externalPort);
    From16OfAs16(m.externalAddr);
  }

  lemma UnreservedSlices(b: seq<byte>)
    requires |b| >= MESSAGE
    ensures
      var s := Unreserved(b);
      && s[4..8] == b[4..8] && s[8..12] == b[8..12] && s[24..36] == b[24..36]
      && s[40..42] == b[40..42] && s[42..44] == b[42..44] && s[44..60] == b[44..60]
  {
    UnreservedSlice(b, 4, 8);
    UnreservedSlice(b, 8, 12);
    UnreservedSlice(b, 24, 36);
    UnreservedSlice(b, 40, 42);
    UnreservedSlice(b, 42, 44);
    UnreservedSlice(b, 44, 60);
  }

  lemma DecodedIsPrinted(b: seq<byte>, m: MapResponse)
    requires DecodeMapResponse(b) == Ok(m)
    ensures Unreserved(b) == PrintResponse(0, m) && m.externalAddr.Canonical() == m.externalAddr
  {
    PutOfGet32(b, 4);
    PutOfGet32(b, 8);
    PutOfGet16(b, 40);
    PutOfGet16(b, 42);
    As16OfFrom16(b[44..60]);
    hide Layout;
    hide Put16;
    hide Put32;
    hide From16;
    assert [b[0], b[1], 0, b[3]] == [VERSION, OP_MAP_RESPONSE, 0, 0];
    assert b[4..12] == b[4..8] + b[8..12];
    assert b[24..37] == b[24..36] + [b[36]];
    assert b[40..60] == b[40..42] + b[42..44] + b[44..60];
  }
}
