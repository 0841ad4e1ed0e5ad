/** The protocol-agnostic request and lease (internal/mapping/mapping.go). */
module Mapping {
  import opened Wire
  import opened Netip

  /** A transport protocol is a string in the program, and any string can reach
      Request.Validate from the configuration. */
  type Protocol = string

  const TCP: Protocol := "tcp"
  const UDP: Protocol := "udp"

  /** Nanoseconds, as a signed 64-bit integer. */
  type Duration = x: int | -0x8000_0000_0000_0000 <= x < 0x8000_0000_0000_0000

  /** A point in time, in nanoseconds. */
  type Time = int

  const SECOND: Duration := 1_000_000_000
  const HOUR: Duration := 3600 * SECOND
  const MAX_LEASE: Duration := 0xFFFF_FFFF * SECOND

  /** A 64-bit product: the mathematical value, wrapped around. */
  function Wrap64(x: int): Duration {
    (x + 0x8000_0000_0000_0000) % 0x1_0000_0000_0000_0000 - 0x8000_0000_0000_0000
  }

  predicate ValidProtocol(p: Protocol) { p == TCP || p == UDP }

  datatype Request = Request(
    protocol: Protocol,
    internalPort: u16,
    internalAddress: Addr,
    externalPort: u16,
    description: string,
    lease: Duration,
    requireListener: bool)

  /** Request.Validate returns nil. */
  predicate ValidRequest(r: Request) {
    && ValidProtocol(r.protocol)
    && r.internalPort != 0
    && !(r.internalAddress.IsValid() && r.internalAddress.IsUnspecified())
    && 0 <= r.lease <= MAX_LEASE
    && !(r.lease > 0 && r.lease % SECOND != 0)
  }

  datatype Lease = Lease(
    protocol: Protocol,
    internalPort: u16,
    externalPort: u16,
    externalIP: Addr,
    lifetime: Duration,
    acquired: Time)
  {
    function RenewBefore(): Time {
      if lifetime <= 0 then acquired else acquired + lifetime / 2
    }
  }

  /** The lifetime a client asks for: the request's, or one hour. */
  function LifetimeOf(r: Request): Duration {
    if r.lease <= 0 then HOUR else r.lease
  }

  /** The seconds a client puts on the wire: uint32(lifetime/time.Second). */
  function WireSeconds(r: Request): u32 {
    ToU32(LifetimeOf(r) / SECOND)
  }

  /** A granted lifetime read from the wire: time.Duration(secs) * time.Second. */
  function FromWireSeconds(secs: u32): Duration {
    Wrap64(secs * SECOND)
  }

  /** The product of seconds and nanoseconds never overflows 64 bits. */
  lemma FromWireSecondsExact(secs: u32)
    ensures FromWireSeconds(secs) == secs * SECOND
    ensures secs > 0 ==> SECOND <= FromWireSeconds(secs) <= MAX_LEASE
  {
    var ns := secs * SECOND;
    assert 0 <= ns < 0x8000_0000_0000_0000;
  }

  /** Validate lets through exactly TCP and UDP requests with an internal port, for
      no all-zero address, whose lease the wire can carry: a whole number of seconds
      in 32 bits. */
  lemma LeaseValidIffOnWire(r: Request)
    ensures ValidRequest(r) <==>
      && r.protocol in ["tcp", "udp"] && r.internalPort != 0
      && r.internalAddress != V4([0, 0, 0, 0]) && r.internalAddress != V6(Zeros(16), "")
      && exists secs: u32 :: r.lease == FromWireSeconds(secs)
  {
    if ValidRequest(r) {
      var secs: u32 := r.lease / SECOND;
      FromWireSecondsExact(secs);
      assert r.lease == FromWireSeconds(secs);
    }
    if secs: u32 :| r.lease == FromWireSeconds(secs) { FromWireSecondsExact(secs); }
  }

  /** A valid request is never sent with lifetime zero, which would delete the
      mapping, and what is sent is exactly the lifetime asked for. */
  lemma CreateNeverSentAsDelete(r: Request)
    requires ValidRequest(r)
    ensures 1 <= WireSeconds(r) <= 0xFFFF_FFFF
    ensures FromWireSeconds(WireSeconds(r)) == LifetimeOf(r)
  {
    var n := LifetimeOf(r);
    assert n == (n / SECOND) * SECOND && 1 <= n / SECOND <= 0xFFFF_FFFF;
    FromWireSecondsExact(WireSeconds(r));
  }
}
