/** The NAT-PMP wire format (internal/portmapper/natpmp/codec.go; sections 3.2,
    3.3 and 3.5 of RFC 6886). */
module NatPmpCodec {
  import opened Prelude
  import opened Wire
  import opened Netip
  import opened Mapping

  const RESPONSE_FLAG: byte := 128

  /** A result code as an error; None for success. */
  function ResultError(code: u16): Option<Error> {
    match code
    case 0 => None
    case 2 => Some(ErrNotAuthorized)
    case 4 => Some(ErrNoResources)
    case 1 => Some(ErrUnsupported)
    case 5 => Some(ErrUnsupported)
    case _ => Some(ErrOther)
  }

  function MapOpcode(p: Protocol): Option<byte> {
    if p == UDP then Some(1) else if p == TCP then Some(2) else None
  }

  // ---- Mapping requests ----

  datatype MapRequest = MapRequest(opcode: byte, internalPort: u16, externalPort: u16, lifetimeSec: u32)

  /** The 12-byte form of section 3.3. */
  function PrintRequest(q: MapRequest): (b: seq<byte>)
    ensures |b| == 12
  {
    [0, q.opcode, 0, 0] + Put16(q.internalPort) + Put16(q.externalPort) + Put32(q.lifetimeSec)
  }

  /** What a gateway reads. */
  function ParseRequest(b: seq<byte>): Option<MapRequest> {
    if |b| < 12 || b[0] != 0 then None
    else Some(MapRequest(b[1], Get16(b, 4), Get16(b, 6), Get32(b, 8)))
  }

  /** An encoded request determines all its fields. */
  lemma RequestRoundTrip(q: MapRequest)
    ensures ParseRequest(PrintRequest(q)) == Some(q)
  {
    hide Put16;
    hide Put32;
    var b := PrintRequest(q);
    assert b[4..6] == Put16(q.internalPort);
    assert b[6..8] == Put16(q.externalPort);
    assert b[8..12] == Put32(q.lifetimeSec);
    Get16OfPut(b, 4, q.internalPort);
    Get16OfPut(b, 6, q.externalPort);
    Get32OfPut(b, 8, q.lifetimeSec);
  }

  /** Where section 3.3 puts the fields of a request. */
  lemma RequestLayout(q: MapRequest)
    ensures
      var b := PrintRequest(q);
      && b[0] == 0 && b[1] == q.opcode && b[2] == 0 && b[3] == 0
      && Big16(b, 4, q.internalPort) && Big16(b, 6, q.externalPort) && Big32(b, 8, q.lifetimeSec)
  {
    hide Put16;
    hide Put32;
    hide Big16;
    hide Big32;
    var b := PrintRequest(q);
    assert b[4..6] == Put16(q.internalPort);
    assert b[6..8] == Put16(q.externalPort);
    assert b[8..12] == Put32(q.lifetimeSec);
    PutIsBig16(b, 4, q.internalPort);
    PutIsBig16(b, 6, q.externalPort);
    PutIsBig32(b, 8, q.lifetimeSec);
  }

  lemma RequestsInjective(q: MapRequest, q': MapRequest)
    requires PrintRequest(q) == PrintRequest(q')
    ensures q == q'
  {
    RequestRoundTrip(q);
    RequestRoundTrip(q');
  }

  method EncodeMapRequest(p: Protocol, internalPort: u16, externalPort: u16, lifetimeSec: u32)
    returns (r: Option<seq<byte>>)
    ensures r.Some? <==> ValidProtocol(p)
    ensures r.Some? ==>
      && MapOpcode(p).Some?
      && ParseRequest(r.value) == Some(MapRequest(if p == "tcp" then 2 else 1, internalPort, externalPort, lifetimeSec))
      && r.value == PrintRequest(MapRequest(MapOpcode(p).value, internalPort, externalPort, lifetimeSec))
  {
    hide ParseRequest;
    hide Put16;
    hide Put32;
    var op := MapOpcode(p);
    if op.None? { return None; }
    var b := new byte[12](_ => 0);
    b[1] := op.value;
    ghost var head := [0, op.value, 0, 0];
    assert b[..] == head + Zeros(8);
    PutUint16(b, 4, internalPort);
    assert b[..] == head + Put16(internalPort) + Zeros(6);
    PutUint16(b, 6, externalPort);
    assert b[..] == head + Put16(internalPort) + Put16(externalPort) + Zeros(4);
    PutUint32(b, 8, lifetimeSec);
    assert b[..] == head + Put16(internalPort) + Put16(externalPort) + Put32(lifetimeSec);
    RequestRoundTrip(MapRequest(op.value, internalPort, externalPort, lifetimeSec));
    return Some(b[..]);
  }

  // ---- Mapping responses ----

  datatype MapResponse = MapResponse(epoch: u32, internalPort: u16, externalPort: u16, lifetimeSec: u32)

  /** The 16-byte response of section 3.3 with a result code. */
  function PrintResponse(opcode: byte, code: u16, m: MapResponse): (b: seq<byte>)
    requires opcode < 128
    ensures |b| == 16
  {
    [0, opcode + RESPONSE_FLAG] + Put16(code)
      + Put32(m.epoch) + Put16(m.internalPort) + Put16(m.externalPort) + Put32(m.lifetimeSec)
  }

  /** Where section 3.3 puts the fields of a response. */
  lemma ResponseLayout(opcode: byte, code: u16, m: MapResponse)
    requires opcode < 128
    ensures
      var b := PrintResponse(opcode, code, m);
      && b[0] == 0 && b[1] == 128 + opcode && Big16(b, 2, code) && Big32(b, 4, m.epoch)
      && Big16(b, 8, m.internalPort) && Big16(b, 10, m.externalPort) && Big32(b, 12, m.lifetimeSec)
  {
    hide Put16;
    hide Put32;
    hide Big16;
    hide Big32;
    var b := PrintResponse(opcode, code, m);
    assert b[2..4] == Put16(code) && b[4..8] == Put32(m.epoch);
    assert b[8..10] == Put16(m.internalPort) && b[10..12] == Put16(m.externalPort);
    assert b[12..16] == Put32(m.lifetimeSec);
    PutIsBig16(b, 2, code);
    PutIsBig32(b, 4, m.epoch);
    PutIsBig16(b, 8, m.internalPort);
    PutIsBig16(b, 10, m.externalPort);
    PutIsBig32(b, 12, m.lifetimeSec);
  }

  function DecodeMapResponse(b: seq<byte>, p: Protocol): Result<MapResponse> {
    if |b| < 16 then Err(ErrOther)
    else if b[0] != 0 then Err(ErrOther)
    else if MapOpcode(p).None? then Err(ErrOther)
    else if b[1] != MapOpcode(p).value + RESPONSE_FLAG then Err(ErrOther)
    else
      match ResultError(Get16(b, 2))
      case Some(e) => Err(e)
      case None => Ok(MapResponse(Get32(b, 4), Get16(b, 8), Get16(b, 10), Get32(b, 12)))
  }

  /** Decoding accepts exactly the datagrams that begin with a printed success for
      the protocol, and yields what was printed. */
  lemma DecodesWhatIsPrinted(b: seq<byte>, p: Protocol, m: MapResponse)
    ensures DecodeMapResponse(b, p) == Ok(m) <==>
      ValidProtocol(p) && |b| >= 16 && b[..16] == PrintResponse(MapOpcode(p).value, 0, m)
  {
    if ValidProtocol(p) && |b| >= 16 {
      if DecodeMapResponse(b, p) == Ok(m) {
        PutOfGet16(b, 2);
        PutOfGet32(b, 4);
        PutOfGet16(b, 8);
        PutOfGet16(b, 10);
        PutOfGet32(b, 12);
        assert b[..16] == b[..2] + b[2..4] + b[4..8] + b[8..10] + b[10..12] + b[12..16];
      }
      if b[..16] == PrintResponse(MapOpcode(p).value, 0, m) { ReadsBack(b, MapOpcode(p).value, 0, m); }
    }
  }

  lemma ZeroCode(b: seq<byte>)
    requires |b| >= 4 && ResultError(Get16(b, 2)).None?
    ensures b[2] == 0 && b[3] == 0
  {
  }

  /** The error of each refusal of section 3.5: unsupported version or opcode, not
      authorized, out of resources; anything else has no name. */
  predicate ErrorOf(code: u16, e: Error) {
    match e
    case ErrUnsupported => code == 1 || code == 5
    case ErrNotAuthorized => code == 2
    case ErrNoResources => code == 4
    case ErrContext => false
    case ErrOther => code == 3 || code > 5
  }

  /** A printed refusal is reported as the error of its code. */
  lemma RefusalReported(p: Protocol, code: u16, m: MapResponse)
    requires ValidProtocol(p) && code != 0
    ensures
      var r := DecodeMapResponse(PrintResponse(MapOpcode(p).value, code, m), p);
      r.Err? && ErrorOf(code, r.error)
  {
    var b := PrintResponse(MapOpcode(p).value, code, m);
    assert b[..16] == b;
    ReadsBack(b, MapOpcode(p).value, code, m);
  }

  lemma ReadsBack(b: seq<byte>, opcode: byte, code: u16, m: MapResponse)
    requires opcode < 128 && |b| >= 16 && b[..16] == PrintResponse(opcode, code, m)
    ensures b[0] == 0 && b[1] == opcode + RESPONSE_FLAG && Get16(b, 2) == code
    ensures m == MapResponse(Get32(b, 4), Get16(b, 8), Get16(b, 10), Get32(b, 12))
  {
    var s := b[..16];
    assert b[0] == s[0] && b[1] == s[1];
    assert b[2..4] == s[2..4] == Put16(code);
    assert b[4..8] == s[4..8] == Put32(m.epoch);
    assert b[8..10] == s[8..10] == Put16(m.internalPort);
    assert b[10..12] == s[10..12] == Put16(m.externalPort);
    assert b[12..16] == s[12..16] == Put32(m.lifetimeSec);
    Get16OfPut(b, 2, code);
    Get32OfPut(b, 4, m.epoch);
    Get16OfPut(b, 8, m.internalPort);
    Get16OfPut(b, 10, m.externalPort);
    Get32OfPut(b, 12, m.lifetimeSec);
  }

  // ---- External address ----

  const ADDRESS_REQUEST: seq<byte> := [0, 0]

  datatype AddressResponse = AddressResponse(epoch: u32, externalIP: Octets4)

  /** A successful 12-byte response of section 3.2. */
  function PrintAddressResponse(m: AddressResponse): (b: seq<byte>)
    ensures |b| == 12
  {
    [0, RESPONSE_FLAG, 0, 0] + Put32(m.epoch) + m.externalIP
  }

  /** Where section 3.2 puts the fields of a response. */
  lemma AddressLayout(m: AddressResponse)
    ensures
      var b := PrintAddressResponse(m);
      b[..4] == [0, 128, 0, 0] && Big32(b, 4, m.epoch) && b[8..12] == m.externalIP
  {
    hide Put32;
    hide Big32;
    var b := PrintAddressResponse(m);
    assert b[4..8] == Put32(m.epoch);
    PutIsBig32(b, 4, m.epoch);
  }

  function DecodeAddressResponse(b: seq<byte>): Result<AddressResponse> {
    if |b| < 12 then Err(ErrOther)
    else if b[0] != 0 then Err(ErrOther)
    else if b[1] != RESPONSE_FLAG then Err(ErrOther)
    else
      match ResultError(Get16(b, 2))
      case Some(e) => Err(e)
      case None => Ok(AddressResponse(Get32(b, 4), b[8..12]))
  }

  /** A refusal of the address query is reported as the error of its code. */
  lemma AddressRefusalReported(b: seq<byte>, code: u16)
    requires |b| >= 12 && b[0] == 0 && b[1] == 128 && b[2..4] == Put16(code) && code != 0
    ensures DecodeAddressResponse(b).Err? && ErrorOf(code, DecodeAddressResponse(b).error)
  {
    Get16OfPut(b, 2, code);
  }

  lemma AddressDecodesWhatIsPrinted(b: seq<byte>, m: AddressResponse)
    ensures DecodeAddressResponse(b) == Ok(m) <==> |b| >= 12 && b[..12] == PrintAddressResponse(m)
  {
    if |b| >= 12 {
      if DecodeAddressResponse(b) == Ok(m) {
        ZeroCode(b);
        PutOfGet32(b, 4);
        assert b[..12] == b[..4] + b[4..8] + b[8..12];
      }
      if b[..12] == PrintAddressResponse(m) {
        var s := b[..12];
        assert b[0] == s[0] && b[1] == s[1] && b[2] == s[2] && b[3] == s[3];
        assert b[4..8] == s[4..8] == Put32(m.epoch);
        assert b[8..12] == s[8..12] == m.externalIP;
        Get32OfPut(b, 4, m.epoch);
      }
    }
  }
}
