/** The counter in the wizard's header, "step/totalSteps", with both numbers
    written in decimal as the UI renders integers. A parser for the same
    text shows that the header always identifies the state it was drawn from. */
module StepHeader {

  datatype Option<T> = None | Some(value: T)

  predicate IsDigit(c: char) {
    '0' <= c <= '9'
  }

  predicate AllDigits(s: string) {
    forall i :: 0 <= i < |s| ==> IsDigit(s[i])
  }

  function DigitChar(d: nat): (c: char)
    requires d < 10
    ensures IsDigit(c) && c as int - '0' as int == d
  {
    ('0' as int + d) as char
  }

  function DigitValue(c: char): (d: nat)
    requires IsDigit(c)
    ensures d < 10
  {
    c as int - '0' as int
  }

  /** Decimal digits of n, most significant first, without leading zeros. */
  function NatToString(n: nat): (r: string)
    ensures |r| >= 1 && AllDigits(r)
    ensures n == 0 <==> r == "0"
    ensures n > 0 ==> r[0] != '0'
    decreases n
  {
    if n < 10 then [DigitChar(n)] else NatToString(n / 10) + [DigitChar(n % 10)]
  }

  /** An integer as text in canonical decimal: a minus sign before the
      digits of a negative one, and no leading zeros. */
  function IntToString(n: int): (r: string)
    ensures |r| >= 1 && '/' !in r
    ensures n < 0 <==> r[0] == '-'
    ensures n == 0 <==> r == "0"
    ensures n > 0 ==> r[0] != '0'
    ensures n < 0 ==> |r| >= 2 && r[1] != '0'
  {
    if n < 0 then "-" + NatToString(-n) else NatToString(n)
  }

  /** The value of a string of decimal digits (the empty string reads 0). */
  function DigitsValue(s: string): nat
    requires AllDigits(s)
    decreases |s|
  {
    if s == [] then 0 else DigitsValue(s[..|s| - 1]) * 10 + DigitValue(s[|s| - 1])
  }

  /** Reads an optionally signed decimal integer; anything else is rejected. */
  function ParseInt(s: string): Option<int> {
    if |s| >= 2 && s[0] == '-' && AllDigits(s[1..]) then
      var magnitude: int := DigitsValue(s[1..]);
      Some(-magnitude)
    else if |s| >= 1 && AllDigits(s) then Some(DigitsValue(s))
    else None
  }

  /** The position of the first c in s, or |s| when there is none. */
  function IndexOf(s: string, c: char): (i: nat)
    ensures i <= |s|
    ensures i < |s| ==> s[i] == c
    ensures forall j :: 0 <= j < i ==> s[j] != c
    decreases |s|
  {
    if s == [] then 0 else if s[0] == c then 0 else 1 + IndexOf(s[1..], c)
  }

  /** The header text for a wizard on step `step` of `totalSteps`: the
      first separator in it ends the step's digits, so the text splits into
      the two numbers in exactly one way. */
  function Header(step: int, totalSteps: int): (r: string)
    ensures IndexOf(r, '/') == |IntToString(step)| < |r|
    ensures r[..|IntToString(step)|] == IntToString(step)
    ensures r[|IntToString(step)| + 1..] == IntToString(totalSteps)
  {
    var a, b := IntToString(step), IntToString(totalSteps);
    var h := a + "/" + b;
    assert h[|a|] == '/';
    assert forall j :: 0 <= j < |a| ==> h[j] == a[j];
    assert h[..|a|] == a && h[|a| + 1..] == b;
    h
  }

  /** Reads a header back into the step and the total it shows. */
  function ParseHeader(h: string): Option<(int, int)> {
    var i := IndexOf(h, '/');
    if i == |h| then None
    else
      match (ParseInt(h[..i]), ParseInt(h[i + 1..]))
      case (Some(a), Some(b)) => Some((a, b))
      case _ => None
  }

  lemma {:induction false} NatRoundTrip(n: nat)
    ensures DigitsValue(NatToString(n)) == n
    decreases n
  {
    if n >= 10 {
      var r := NatToString(n);
      assert r[..|r| - 1] == NatToString(n / 10);
      NatRoundTrip(n / 10);
    }
  }

  lemma IntRoundTrip(n: int)
    ensures ParseInt(IntToString(n)) == Some(n)
  {
    var r := IntToString(n);
    if n < 0 {
      var digits := NatToString(-n);
      assert r == "-" + digits;
      assert r[1..] == digits;
      NatRoundTrip(-n);
    } else {
      assert r == NatToString(n);
      assert r[0] != '-';
      NatRoundTrip(n);
    }
  }

  /** The header always reads back as the step and total it was drawn from. */
  lemma HeaderRoundTrip(step: int, totalSteps: int)
    ensures ParseHeader(Header(step, totalSteps)) == Some((step, totalSteps))
  {
    IntRoundTrip(step);
    IntRoundTrip(totalSteps);
  }

  /** Two different (step, totalSteps) pairs never show the same header. */
  lemma HeaderInjective(s1: int, t1: int, s2: int, t2: int)
    requires Header(s1, t1) == Header(s2, t2)
    ensures s1 == s2 && t1 == t2
  {
    HeaderRoundTrip(s1, t1);
    HeaderRoundTrip(s2, t2);
  }
}
