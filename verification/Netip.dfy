/** The part of netip.Addr the program relies on: an invalid zero value, four
    octets, or sixteen octets with a zone. */
module Netip {
  import opened Wire

  type Octets4 = s: seq<byte> | |s| == 4 witness [0, 0, 0, 0]
  type Octets16 = s: seq<byte> | |s| == 16 witness seq(16, _ => 0)

  datatype Addr = Invalid | V4(octets: Octets4) | V6(octets16: Octets16, zone: string)
  {
    predicate IsValid() { !Invalid? }

    predicate IsUnspecified() {
      (V4? && octets == [0, 0, 0, 0]) || (V6? && octets16 == Zeros(16) && zone == "")
    }

    predicate Is4In6() { V6? && octets16[..12] == MappedPrefix() }

    function Unmap(): Addr {
      if Is4In6() then V4(octets16[12..]) else this
    }

    /** The 16-byte form: IPv4 goes into the IPv4-mapped range, a zone is lost. */
    function As16(): Octets16 {
      match this
      case Invalid => Zeros(16)
      case V4(o) => MappedPrefix() + o
      case V6(o, _) => o
    }

    /** What the 16-byte form keeps of an address. */
    function Canonical(): Addr {
      match this
      case Invalid => Invalid
      case V4(_) => this
      case V6(o, _) => V6(o, "").Unmap()
    }
  }

  function Zeros(n: nat): (r: seq<byte>)
    ensures |r| == n
  {
    seq(n, _ => 0)
  }

  function MappedPrefix(): (r: seq<byte>)
    ensures |r| == 12
  {
    Zeros(10) + [255, 255]
  }

  /** Reading a 16-byte form back, with IPv4-mapped addresses unmapped. */
  function From16(o: Octets16): Addr { V6(o, "").Unmap() }

  lemma From16OfAs16(a: Addr)
    requires a.IsValid()
    ensures From16(a.As16()) == a.Canonical()
  {
    if a.V4? {
      assert (MappedPrefix() + a.octets)[..12] == MappedPrefix();
      assert (MappedPrefix() + a.octets)[12..] == a.octets;
    }
  }

  lemma As16OfFrom16(o: Octets16)
    ensures From16(o).As16() == o
    ensures From16(o).IsValid() && From16(o).Canonical() == From16(o)
  {
    if V6(o, "").Is4In6() {
      assert o[..12] + o[12..] == o;
    }
  }

  /** The 16-byte form of an IPv4 address: ten zeros, two bytes 255, the octets. */
  lemma MappedForm(o: Octets4)
    ensures V4(o).As16() == [0, 0, 0, 0, 0, 0, 0, 0, 0, 0, 255, 255] + o
  {
    assert Zeros(10) == [0, 0, 0, 0, 0, 0, 0, 0, 0, 0];
  }

  /** Two valid addresses have the same 16-byte form exactly when they agree up
      to IPv4 versus IPv4-mapped form and zone. */
  lemma SameAs16(a: Addr, b: Addr)
    requires a.IsValid() && b.IsValid()
    ensures a.As16() == b.As16() <==> a.Canonical() == b.Canonical()
  {
    From16OfAs16(a);
    From16OfAs16(b);
    As16OfFrom16(a.As16());
    As16OfFrom16(b.As16());
  }
}
