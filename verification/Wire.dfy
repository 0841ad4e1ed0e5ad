/** Unsigned integers of fixed width and their big-endian wire form. */
module Wire {

  type byte = x: int | 0 <= x < 256
  type u16 = x: int | 0 <= x < 0x1_0000
  type u32 = x: int | 0 <= x < 0x1_0000_0000

  function Get16(b: seq<byte>, at: nat): (r: u16)
    requires at + 2 <= |b|
  {
    var hi: int, lo: int := b[at], b[at + 1];
    256 * hi + lo
  }

  function Get32(b: seq<byte>, at: nat): (r: u32)
    requires at + 4 <= |b|
  {
    var hi: int, lo: int := Get16(b, at), Get16(b, at + 2);
    0x1_0000 * hi + lo
  }

  function Put16(v: u16): (r: seq<byte>)
    ensures |r| == 2
  {
    [v / 256, v % 256]
  }

  function Put32(v: u32): (r: seq<byte>)
    ensures |r| == 4
  {
    Put16(v / 0x1_0000) + Put16(v % 0x1_0000)
  }

  /** A Go conversion uint32(x): the value modulo 2^32. */
  function ToU32(x: int): u32 { x % 0x1_0000_0000 }

  /** Numbers are big-endian. */
  predicate Big16(b: seq<byte>, at: nat, v: u16)
    requires at + 2 <= |b|
  {
    256 * (b[at] as int) + b[at + 1] == v
  }

  predicate Big32(b: seq<byte>, at: nat, v: u32)
    requires at + 4 <= |b|
  {
    0x100_0000 * (b[at] as int) + 0x1_0000 * (b[at + 1] as int) + 256 * (b[at + 2] as int) + b[at + 3] == v
  }

  lemma PutIsBig16(b: seq<byte>, at: nat, v: u16)
    requires at + 2 <= |b| && b[at..at + 2] == Put16(v)
    ensures Big16(b, at, v)
  {
    assert b[at] == b[at..at + 2][0] && b[at + 1] == b[at..at + 2][1];
  }

  lemma PutIsBig32(b: seq<byte>, at: nat, v: u32)
    requires at + 4 <= |b| && b[at..at + 4] == Put32(v)
    ensures Big32(b, at, v)
  {
    var s := b[at..at + 4];
    assert b[at..at + 2] == s[..2] == Put16(v / 0x1_0000);
    assert b[at + 2..at + 4] == s[2..] == Put16(v % 0x1_0000);
    PutIsBig16(b, at, v / 0x1_0000);
    PutIsBig16(b, at + 2, v % 0x1_0000);
  }

  /** Printing at an offset and reading back there gives the value. */
  lemma Get16OfPut(b: seq<byte>, at: nat, v: u16)
    requires at + 2 <= |b| && b[at..at + 2] == Put16(v)
    ensures Get16(b, at) == v
  {
    assert b[at] == b[at..at + 2][0] && b[at + 1] == b[at..at + 2][1];
  }

  lemma Get32OfPut(b: seq<byte>, at: nat, v: u32)
    requires at + 4 <= |b| && b[at..at + 4] == Put32(v)
    ensures Get32(b, at) == v
  {
    var s := b[at..at + 4];
    assert b[at..at + 2] == s[..2] == Put16(v / 0x1_0000);
    assert b[at + 2..at + 4] == s[2..] == Put16(v % 0x1_0000);
    Get16OfPut(b, at, v / 0x1_0000);
    Get16OfPut(b, at + 2, v % 0x1_0000);
  }

  /** Reading and printing again gives back the bytes. */
  lemma PutOfGet16(b: seq<byte>, at: nat)
    requires at + 2 <= |b|
    ensures Put16(Get16(b, at)) == b[at..at + 2]
  {
    var hi: int, lo: int := b[at], b[at + 1];
    assert (256 * hi + lo) / 256 == hi && (256 * hi + lo) % 256 == lo;
  }

  lemma PutOfGet32(b: seq<byte>, at: nat)
    requires at + 4 <= |b|
    ensures Put32(Get32(b, at)) == b[at..at + 4]
  {
    var hi: int, lo: int := Get16(b, at), Get16(b, at + 2);
    assert (0x1_0000 * hi + lo) / 0x1_0000 == hi && (0x1_0000 * hi + lo) % 0x1_0000 == lo;
    PutOfGet16(b, at);
    PutOfGet16(b, at + 2);
    assert b[at..at + 2] + b[at + 2..at + 4] == b[at..at + 4];
  }

  /** binary.BigEndian.PutUint16 into b[at..]. */
  method PutUint16(b: array<byte>, at: nat, v: u16)
    requires at + 2 <= b.Length
    modifies b
    ensures b[..] == old(b[..at]) + Put16(v) + old(b[at + 2..])
  {
    b[at], b[at + 1] := v / 256, v % 256;
  }

  /** binary.BigEndian.PutUint32 into b[at..]. */
  method PutUint32(b: array<byte>, at: nat, v: u32)
    requires at + 4 <= b.Length
    modifies b
    ensures b[..] == old(b[..at]) + Put32(v) + old(b[at + 4..])
  {
    PutUint16(b, at, v / 0x1_0000);
    PutUint16(b, at + 2, v % 0x1_0000);
  }

  /** copy(b[at:], data). */
  method CopyInto(b: array<byte>, at: nat, data: seq<byte>)
    requires at + |data| <= b.Length
    modifies b
    ensures b[..] == old(b[..at]) + data + old(b[at + |data|..])
  {
    forall i | 0 <= i < |data| { b[at + i] := data[i]; }
  }
}
