/** Choosing the default gateway from the routing table
    (internal/netgw/netgw.go), over rows already split into fields. */
module Netgw {
  import opened Prelude
  import opened Wire
  import opened Netip
  import opened Strconv

  const ALL_ZERO: string := "00000000"

  /** The octets of a number in little-endian order. */
  function LittleEndian(v: u32): Octets4 {
    [v % 256, v / 256 % 256, v / 256 / 256 % 256, v / 256 / 256 / 256]
  }

  function ParseHexAddr(hex: string): Option<Addr> {
    if |hex| != 8 then None
    else
      match ParseUint(hex, 16, 32)
      case None => None
      case Some(v) => if v < 0x1_0000_0000 then Some(V4(LittleEndian(v))) else None
  }

  // ---- parseHexAddr inverts the kernel's printing ----

  /** A hexadecimal digit in upper or lower case. */
  function HexDigit(d: nat, upper: bool): char
    requires d < 16
  {
    if d < 10 then ('0' as int + d) as char
    else if upper then ('A' as int + d - 10) as char
    else ('a' as int + d - 10) as char
  }

  /** A byte as two digits, each in either case. */
  function HexByte(b: byte, case1: bool, case2: bool): string {
    [HexDigit(b / 16, case1), HexDigit(b % 16, case2)]
  }

  /** Four octets printed in little-endian order. */
  function PrintHexAddr(o: Octets4, upper: seq<bool>): (s: string)
    requires |upper| == 8
    ensures |s| == 8
  {
    HexByte(o[3], upper[0], upper[1]) + HexByte(o[2], upper[2], upper[3])
      + HexByte(o[1], upper[4], upper[5]) + HexByte(o[0], upper[6], upper[7])
  }

  lemma ValueSnocByte(s: string, b: byte, case1: bool, case2: bool)
    requires IsNumeral(s, 16)
    ensures IsNumeral(s + HexByte(b, case1, case2), 16)
    ensures Value(s + HexByte(b, case1, case2), 16) == 256 * Value(s, 16) + b
  {
    var s1, s2 := s + [HexDigit(b / 16, case1)], s + HexByte(b, case1, case2);
    assert s1[..|s1| - 1] == s && s2[..|s2| - 1] == s1;
  }

  lemma ValueOfPrinted(o: Octets4, upper: seq<bool>)
    requires |upper| == 8
    ensures IsNumeral(PrintHexAddr(o, upper), 16)
    ensures Value(PrintHexAddr(o, upper), 16) == 256 * (256 * (256 * (o[3] as int) + o[2]) + o[1]) + o[0]
  {
    var b3, b2 := HexByte(o[3], upper[0], upper[1]), HexByte(o[2], upper[2], upper[3]);
    var b1, b0 := HexByte(o[1], upper[4], upper[5]), HexByte(o[0], upper[6], upper[7]);
    assert Value("", 16) == 0 && "" + b3 == b3;
    hide Value;
    hide IsNumeral;
    hide HexByte;
    ValueSnocByte("", o[3], upper[0], upper[1]);
    ValueSnocByte(b3, o[2], upper[2], upper[3]);
    ValueSnocByte(b3 + b2, o[1], upper[4], upper[5]);
    ValueSnocByte(b3 + b2 + b1, o[0], upper[6], upper[7]);
  }

  /** Every address is read back from its printed form, in either case. */
  lemma HexAddrRoundTrip(o: Octets4, upper: seq<bool>)
    requires |upper| == 8
    ensures ParseHexAddr(PrintHexAddr(o, upper)) == Some(V4(o))
  {
    hide LittleEndian;
    hide PrintHexAddr;
    hide Value;
    hide IsNumeral;
    hide Pow2;
    ValueOfPrinted(o, upper);
    Pow2Of32();
    LittleEndianOf(o);
  }

  lemma Pow2Of32()
    ensures Pow2(32) == 0x1_0000_0000
  {
    assert Pow2(8) == 256;
    assert Pow2(16) == 0x1_0000;
    assert Pow2(24) == 0x100_0000;
  }

  lemma LowByte(w: nat, b: byte)
    ensures (256 * w + b) % 256 == b && (256 * w + b) / 256 == w
  {
  }

  lemma LittleEndianOf(o: Octets4)
    ensures
      var v := 256 * (256 * (256 * (o[3] as int) + o[2]) + o[1]) + o[0];
      v < 0x1_0000_0000 && LittleEndian(v) == o
  {
    LowByte(256 * (256 * (o[3] as int) + o[2]) + o[1], o[0]);
    LowByte(256 * (o[3] as int) + o[2], o[1]);
    LowByte(o[3], o[2]);
  }

  predicate IsUpper(c: char) { 'A' <= c <= 'Z' }

  function Cases(hex: string): (r: seq<bool>)
    requires |hex| == 8
  {
    [IsUpper(hex[0]), IsUpper(hex[1]), IsUpper(hex[2]), IsUpper(hex[3]),
     IsUpper(hex[4]), IsUpper(hex[5]), IsUpper(hex[6]), IsUpper(hex[7])]
  }

  /** The byte two digits stand for. */
  function Pair(c1: char, c2: char): byte
    requires DigitValue(c1).Some? && DigitValue(c1).value < 16
    requires DigitValue(c2).Some? && DigitValue(c2).value < 16
  {
    var hi: int, lo: int := DigitValue(c1).value, DigitValue(c2).value;
    16 * hi + lo
  }

  /** Two hexadecimal digits are a printed byte. */
  lemma DigitsArePrinted(c1: char, c2: char)
    requires DigitValue(c1).Some? && DigitValue(c1).value < 16
    requires DigitValue(c2).Some? && DigitValue(c2).value < 16
    ensures HexByte(Pair(c1, c2), IsUpper(c1), IsUpper(c2)) == [c1, c2]
  {
  }

  lemma DigitsArePrintedAddr(hex: string)
    requires |hex| == 8 && IsNumeral(hex, 16)
    ensures PrintHexAddr(
      [Pair(hex[6], hex[7]), Pair(hex[4], hex[5]), Pair(hex[2], hex[3]), Pair(hex[0], hex[1])], Cases(hex)) == hex
  {
    DigitsArePrinted(hex[0], hex[1]);
    DigitsArePrinted(hex[2], hex[3]);
    DigitsArePrinted(hex[4], hex[5]);
    DigitsArePrinted(hex[6], hex[7]);
    hide HexByte;
    hide Pair;
    hide DigitValue;
    hide IsUpper;
    assert hex == [hex[0], hex[1]] + [hex[2], hex[3]] + [hex[4], hex[5]] + [hex[6], hex[7]];
  }

  /** Whatever is read as an address is a printed form of it. */
  lemma HexAddrOnlyPrinted(hex: string, o: Octets4)
    requires ParseHexAddr(hex) == Some(V4(o))
    ensures exists upper: seq<bool> :: |upper| == 8 && hex == PrintHexAddr(o, upper)
  {
    hide Value;
    hide Pow2;
    hide LittleEndian;
    hide PrintHexAddr;
    hide Pair;
    DigitsArePrintedAddr(hex);
    HexAddrRoundTrip(
      [Pair(hex[6], hex[7]), Pair(hex[4], hex[5]), Pair(hex[2], hex[3]), Pair(hex[0], hex[1])], Cases(hex));
  }

  // ---- The scan ----

  datatype Row = Skipped | Malformed | Route(gateway: Addr, metric: nat)

  /** What a row contributes: a malformed field of an up default gateway row is an
      error; a zero gateway is skipped. */
  function Classify(fields: seq<string>): Row {
    if |fields| < 8 || fields[1] != ALL_ZERO || fields[7] != ALL_ZERO then Skipped
    else
      var flags := ParseUint(fields[3], 16, 16);
      if flags.None? then Malformed
      else if flags.value % 4 != 3 then Skipped
      else
        var metric := ParseUint(fields[6], 10, 32);
        var addr := ParseHexAddr(fields[2]);
        if metric.None? || addr.None? then Malformed
        else if addr.value.IsUnspecified() then Skipped
        else Route(addr.value, metric.value)
  }

  /** Row i is the first route of least metric. */
  predicate BestRoute(rows: seq<seq<string>>, n: nat, i: nat)
    requires n <= |rows|
  {
    && i < n
    && Classify(rows[i]).Route?
    && (forall j :: 0 <= j < n && Classify(rows[j]).Route? ==> Classify(rows[i]).metric <= Classify(rows[j]).metric)
    && (forall j :: 0 <= j < i && Classify(rows[j]).Route? ==> Classify(rows[i]).metric < Classify(rows[j]).metric)
  }

  /** When there is no gateway: no header line, a read error, a malformed field, or
      no default route. */
  ghost predicate NoGateway(header: bool, rows: seq<seq<string>>, readOk: bool) {
    || !header || !readOk
    || (exists i :: 0 <= i < |rows| && Classify(rows[i]).Malformed?)
    || (forall i :: 0 <= i < |rows| ==> !Classify(rows[i]).Route?)
  }

  /** The gateway of the first route of least metric. */
  ghost predicate IsBest(rows: seq<seq<string>>, gateway: Addr) {
    exists i: nat :: i < |rows| && BestRoute(rows, |rows|, i) && gateway == Classify(rows[i]).gateway
  }

  /** parseDefaultGateway, given whether a header line was read and whether reading
      reached the end without error. */
  method ParseDefaultGateway(header: bool, rows: seq<seq<string>>, readOk: bool) returns (r: Option<Addr>)
    ensures r.None? <==> NoGateway(header, rows, readOk)
    ensures r.Some? ==> IsBest(rows, r.value)
  {
    hide ParseUint;
    hide ParseHexAddr;
    if !header { return None; }
    var best := Invalid;
    var bestMetric := 0;
    var found := false;
    ghost var at := 0;
    for i := 0 to |rows|
      invariant forall j :: 0 <= j < i ==> !Classify(rows[j]).Malformed?
      invariant !found ==> forall j :: 0 <= j < i ==> !Classify(rows[j]).Route?
      invariant found ==> BestRoute(rows, i, at)
      invariant found ==> best == Classify(rows[at]).gateway && bestMetric == Classify(rows[at]).metric
    {
      var fields := rows[i];
      if |fields| < 8 { continue; }
      if fields[1] != ALL_ZERO || fields[7] != ALL_ZERO { continue; }
      var flags := ParseUint(fields[3], 16, 16);
      if flags.None? { return None; }
      if flags.value % 4 != 3 { continue; }
      var metric := ParseUint(fields[6], 10, 32);
      if metric.None? { return None; }
      var addr := ParseHexAddr(fields[2]);
      if addr.None? { return None; }
      if addr.value.IsUnspecified() { continue; }
      if !found || metric.value < bestMetric {
        best, bestMetric, found := addr.value, metric.value, true;
        at := i;
      }
    }
    if !readOk { return None; }
    if found { return Some(best); }
    return None;
  }

  // ---- Rows as the kernel prints them ----

  /** A 16-bit number as four hexadecimal digits. */
  function HexWord(w: u16, upper: seq<bool>): string
    requires |upper| == 4
  {
    HexByte(w / 256, upper[0], upper[1]) + HexByte(w % 256, upper[2], upper[3])
  }

  /** A row of the routing table: Iface Destination Gateway Flags RefCnt Use Metric
      Mask and more. */
  function PrintRow(iface: string, destination: string, gateway: Octets4, flags: u16, refCnt: string, use: string,
      metric: u32, mask: string, more: seq<string>, upper: seq<bool>): seq<string>
    requires |upper| == 12
  {
    [iface, destination, PrintHexAddr(gateway, upper[..8]), HexWord(flags, upper[8..]), refCnt, use, Decimal(metric),
     mask] + more
  }

  lemma HexWordValue(w: u16, upper: seq<bool>)
    requires |upper| == 4
    ensures IsNumeral(HexWord(w, upper), 16) && Value(HexWord(w, upper), 16) == w
  {
    var hi, lo := HexByte(w / 256, upper[0], upper[1]), HexByte(w % 256, upper[2], upper[3]);
    assert Value("", 16) == 0 && "" + hi == hi;
    hide Value;
    hide IsNumeral;
    hide HexByte;
    ValueSnocByte("", w / 256, upper[0], upper[1]);
    ValueSnocByte(hi, w % 256, upper[2], upper[3]);
  }

  lemma HexWordRead(w: u16, upper: seq<bool>)
    requires |upper| == 4
    ensures ParseUint(HexWord(w, upper), 16, 16) == Some(w)
  {
    assert HexWord(w, upper) != "";
    hide HexWord;
    hide Value;
    hide IsNumeral;
    hide Pow2;
    HexWordValue(w, upper);
    Pow2Of16();
  }

  lemma Pow2Of16()
    ensures Pow2(16) == 0x1_0000
  {
    assert Pow2(8) == 256;
  }

  lemma MetricRead(metric: u32)
    ensures ParseUint(Decimal(metric), 10, 32) == Some(metric as nat)
  {
    hide Value;
    hide Pow2;
    ValueOfDecimal(metric);
    Pow2Of32();
  }

  /** A printed row counts exactly if it is a default route that is up, goes through a
      gateway, and names one; then with its gateway and its metric. */
  lemma RowRead(iface: string, destination: string, gateway: Octets4, flags: u16, refCnt: string, use: string,
      metric: u32, mask: string, more: seq<string>, upper: seq<bool>)
    requires |upper| == 12
    ensures
      Classify(PrintRow(iface, destination, gateway, flags, refCnt, use, metric, mask, more, upper)) ==
        if destination == "00000000" && mask == "00000000" && flags % 2 == 1 && flags / 2 % 2 == 1
           && gateway != [0, 0, 0, 0]
        then Route(V4(gateway), metric) else Skipped
  {
    hide ParseUint;
    hide ParseHexAddr;
    hide PrintHexAddr;
    hide HexWord;
    HexAddrRoundTrip(gateway, upper[..8]);
    HexWordRead(flags, upper[8..]);
    MetricRead(metric);
    assert flags % 4 == 3 <==> flags % 2 == 1 && flags / 2 % 2 == 1;
  }
}
