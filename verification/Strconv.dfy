/** Decimal printing and strconv.ParseUint. */
module Strconv {
  import opened Prelude

  predicate IsDigit(c: char) { '0' <= c <= '9' }

  function DigitChar(d: nat): (c: char)
    requires d < 10
    ensures IsDigit(c)
  {
    ('0' as int + d) as char
  }

  /** The value of a digit or letter, as ParseUint reads it in either case. */
  function DigitValue(c: char): Option<nat> {
    if '0' <= c <= '9' then Some(c as int - '0' as int)
    else if 'a' <= c <= 'z' then Some(c as int - 'a' as int + 10)
    else if 'A' <= c <= 'Z' then Some(c as int - 'A' as int + 10)
    else None
  }

  predicate IsNumeral(s: string, base: nat) {
    forall i :: 0 <= i < |s| ==> DigitValue(s[i]).Some? && DigitValue(s[i]).value < base
  }

  function Value(s: string, base: nat): nat
    requires IsNumeral(s, base)
  {
    if s == "" then 0
    else Value(s[..|s| - 1], base) * base + DigitValue(s[|s| - 1]).value
  }

  /** strconv.ParseUint(s, base, bits) for an explicit base. */
  function ParseUint(s: string, base: nat, bits: nat): Option<nat> {
    if s == "" || !IsNumeral(s, base) || Value(s, base) >= Pow2(bits) then None
    else Some(Value(s, base))
  }

  /** The verb %d on a non-negative number. */
  function Decimal(n: nat): (s: string)
    ensures s != "" && forall i :: 0 <= i < |s| ==> IsDigit(s[i])
  {
    if n < 10 then [DigitChar(n)] else Decimal(n / 10) + [DigitChar(n % 10)]
  }

  lemma {:induction false} ValueOfDecimal(n: nat)
    ensures IsNumeral(Decimal(n), 10) && Value(Decimal(n), 10) == n
  {
    var s := Decimal(n);
    forall i | 0 <= i < |s| ensures DigitValue(s[i]).Some? && DigitValue(s[i]).value < 10 {
      assert IsDigit(s[i]);
    }
    if n >= 10 {
      ValueOfDecimal(n / 10);
      assert s[..|s| - 1] == Decimal(n / 10);
    } else {
      assert s[..0] == "";
    }
  }

  /** The verb "%s/%d". */
  function KeyString(name: string, n: nat): string {
    name + "/" + Decimal(n)
  }

  /** Equal "%s/%d" strings come from equal arguments, whatever the name. */
  lemma KeyStringInjective(p: string, m: nat, q: string, n: nat)
    requires KeyString(p, m) == KeyString(q, n)
    ensures p == q && m == n
  {
    SlashPosition(p, m, q, n);
    SlashPosition(q, n, p, m);
    var s := KeyString(p, m);
    assert p == s[..|p|] == q;
    assert Decimal(m) == s[|p| + 1..] == Decimal(n);
    ValueOfDecimal(m);
    ValueOfDecimal(n);
  }

  /** The slash after the shorter name cannot lie among the digits. */
  lemma SlashPosition(p: string, m: nat, q: string, n: nat)
    requires KeyString(p, m) == KeyString(q, n)
    ensures |p| <= |q|
  {
    var s, d := KeyString(p, m), Decimal(n);
    assert |p| < |s| && s[|p|] == '/';
    forall i | |q| < i < |s| ensures IsDigit(s[i]) {
      assert s[i] == d[i - |q| - 1];
    }
  }
}
