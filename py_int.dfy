/** Python's `int(text)` in base 10 and `str(n)` for integers, the two
    conversions a vote goes through: the server turns the received line into
    an integer, and prints integers back into protocol lines. */
module PyInt {
  import opened Common
  import opened PyText

  predicate IsDigit(c: char)
  {
    '0' <= c <= '9'
  }

  function DigitValue(c: char): (d: nat)
    requires IsDigit(c)
    ensures d < 10
  {
    c as int - '0' as int
  }

  function DigitChar(d: nat): (c: char)
    requires d < 10
    ensures IsDigit(c) && DigitValue(c) == d
  {
    ('0' as int + d) as char
  }

  /** The digit part that `int()` accepts: ASCII digits, where a single
      underscore may stand between two digits. */
  predicate IsNumeral(s: string)
  {
    s != [] && IsDigit(s[0]) &&
    forall i :: 0 <= i < |s| ==> IsDigit(s[i]) || (s[i] == '_' && i + 1 < |s| && IsDigit(s[i + 1]))
  }

  /** Value of the digits of `s`, read left to right, underscores skipped. */
  function NumeralValue(s: string): nat
  {
    if s == [] then 0
    else if IsDigit(s[|s| - 1]) then NumeralValue(s[..|s| - 1]) * 10 + DigitValue(s[|s| - 1])
    else NumeralValue(s[..|s| - 1])
  }

  /** `int(t)` for a string `t` that has already been stripped. */
  function ParseStripped(t: string): (r: Option<int>)
  {
    if t == [] then None
    else if t[0] == '-' then
      if IsNumeral(t[1..]) then Some(-(NumeralValue(t[1..]) as int)) else None
    else if t[0] == '+' then
      if IsNumeral(t[1..]) then Some(NumeralValue(t[1..])) else None
    else if IsNumeral(t) then Some(NumeralValue(t))
    else None
  }

  /** Python's `int(s)`: surrounding whitespace is ignored, an optional sign
      may precede the digits, and a string it cannot read raises, which is
      None here. */
  function ParseInt(s: string): (r: Option<int>)
    ensures r.Some? ==> exists i :: 0 <= i < |s| && IsDigit(s[i])
  {
    var t := Strip(s);
    var r := ParseStripped(t);
    if r.Some? then
      var a := LeadingSpace(s);
      assert t == s[a..a + |t|];
      var k := if t[0] == '-' || t[0] == '+' then 1 else 0;
      assert IsDigit(t[k]);
      assert s[a + k] == t[k];
      r
    else r
  }

  /** Python's `str(n)` for a natural number: its decimal digits without
      leading zeros. */
  function NatToString(n: nat): (s: string)
    ensures s != [] && IsDigit(s[0]) && IsDigit(s[|s| - 1])
    ensures forall i :: 0 <= i < |s| ==> IsDigit(s[i])
  {
    if n < 10 then [DigitChar(n)] else NatToString(n / 10) + [DigitChar(n % 10)]
  }

  /** Python's `str(n)` for an integer: a minus sign exactly for a negative
      number, then the digits of its magnitude. */
  function IntToString(n: int): (s: string)
    ensures s != [] && (s[0] == '-' <==> n < 0)
    ensures forall i :: 0 < i < |s| ==> IsDigit(s[i])
  {
    if n < 0 then "-" + NatToString(-n) else NatToString(n)
  }

  lemma {:induction false} NatToStringValue(n: nat)
    ensures IsNumeral(NatToString(n)) && NumeralValue(NatToString(n)) == n
  {
    var s := NatToString(n);
    if n >= 10 {
      NatToStringValue(n / 10);
      assert s[..|s| - 1] == NatToString(n / 10);
    }
  }

  /** Reading back what `str` printed gives the same integer. */
  lemma ParseShow(n: int)
    ensures ParseInt(IntToString(n)) == Some(n)
  {
    var s := IntToString(n);
    NatToStringValue(if n < 0 then -n else n);
    StripNoop(s);
    if n < 0 {
      assert s[1..] == NatToString(-n);
    }
  }

  /** Leading and trailing whitespace around a printed integer is ignored. */
  lemma ParsePadded(w1: string, n: int, w2: string)
    requires AllSpace(w1) && AllSpace(w2)
    ensures ParseInt(w1 + IntToString(n) + w2) == Some(n)
  {
    var s := IntToString(n);
    StripPadded(w1, s, w2);
    ParseShow(n);
    StripNoop(s);
  }
}
