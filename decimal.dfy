/**
  Decimal text of integers, as the quiz writes operands into a question with an
  f-string (`str(int)`: an optional minus sign followed by the digits, no leading
  zeros), together with the parser that reads such text back.
*/
module Decimal {
  import opened Wrappers

  predicate IsDigit(c: char) {
    '0' <= c <= '9'
  }

  predicate AllDigits(s: string) {
    forall i :: 0 <= i < |s| ==> IsDigit(s[i])
  }

  /** Digits as `str` writes a natural number: at least one, and no leading zero. */
  predicate CanonicalDigits(s: string) {
    s != [] && AllDigits(s) && (|s| > 1 ==> s[0] != '0')
  }

  /** Text as `str` writes an integer: canonical digits, after a minus sign unless zero. */
  predicate Canonical(s: string) {
    || CanonicalDigits(s)
    || (|s| > 1 && s[0] == '-' && CanonicalDigits(s[1..]) && s[1..] != "0")
  }

  function DigitChar(d: nat): (c: char)
    requires d < 10
    ensures IsDigit(c) && c as int - '0' as int == d
  {
    (d + '0' as int) as char
  }

  /** The digits of `n`, most significant first. */
  function NatToString(n: nat): (s: string)
    ensures |s| > 0 && AllDigits(s)
    ensures n >= 10 <==> |s| > 1
    ensures n == 0 <==> s == "0"
    ensures n > 0 ==> s[0] != '0'
    decreases n
  {
    if n < 10 then [DigitChar(n)] else NatToString(n / 10) + [DigitChar(n % 10)]
  }

  /** What `str(n)` yields for an integer `n`. */
  function IntToString(n: int): (s: string)
    ensures |s| > 0
    ensures forall i :: 0 <= i < |s| ==> IsDigit(s[i]) || s[i] == '-'
    ensures n < 0 <==> s[0] == '-'
    ensures Canonical(s)
  {
    if n < 0 then "-" + NatToString(-n) else NatToString(n)
  }

  /** The value of a string of digits. */
  function DigitsValue(s: string): nat
  {
    if s == [] then 0
    else
      var d := s[|s| - 1] as int - '0' as int;
      DigitsValue(s[..|s| - 1]) * 10 + (if 0 <= d < 10 then d else 0)
  }

  /** Reads back an integer written the way `str` writes one; any other text is refused. */
  function ParseInt(s: string): (r: Option<int>)
    ensures r.Some? <==> Canonical(s)
  {
    if |s| > 1 && s[0] == '-' && CanonicalDigits(s[1..]) && s[1..] != "0" then
      Some(0 - DigitsValue(s[1..]) as int)
    else if CanonicalDigits(s) then Some(DigitsValue(s))
    else None
  }

  lemma {:induction false} NatRoundTrip(n: nat)
    ensures DigitsValue(NatToString(n)) == n
    decreases n
  {
    var s := NatToString(n);
    if n >= 10 {
      var prefix := NatToString(n / 10);
      assert s[..|s| - 1] == prefix;
      NatRoundTrip(n / 10);
    }
  }

  /** Parsing the decimal text of any integer gives that integer back. */
  lemma IntRoundTrip(n: int)
    ensures ParseInt(IntToString(n)) == Some(n)
  {
    if n < 0 {
      var s := IntToString(n);
      assert s[1..] == NatToString(-n);
      NatRoundTrip(-n);
    } else {
      NatRoundTrip(n);
    }
  }

  /** Canonical digits are exactly the text of the number they denote. */
  lemma {:induction false} CanonicalDigitsUnique(s: string)
    requires CanonicalDigits(s)
    ensures NatToString(DigitsValue(s)) == s
    decreases |s|
  {
    var p, c := s[..|s| - 1], s[|s| - 1];
    var d := c as int - '0' as int;
    assert s == p + [c];
    if p == [] {
      assert DigitChar(d) == c;
    } else {
      assert p[0] == s[0];
      assert AllDigits(p) by {
        forall i | 0 <= i < |p| ensures IsDigit(p[i]) {
          assert p[i] == s[i];
        }
      }
      CanonicalDigitsUnique(p);
      var v := DigitsValue(p);
      assert v != 0;
      var n := v * 10 + d;
      assert DigitsValue(s) == n;
      assert n >= 10 && n / 10 == v && n % 10 == d;
      assert DigitChar(d) == c;
      assert NatToString(n) == NatToString(v) + [c];
    }
  }

  /** Text that parses is exactly the text of the integer it parses to. */
  lemma ParseIsCanonical(s: string, n: int)
    requires ParseInt(s) == Some(n)
    ensures s == IntToString(n)
  {
    if |s| > 1 && s[0] == '-' && CanonicalDigits(s[1..]) && s[1..] != "0" {
      CanonicalDigitsUnique(s[1..]);
      assert s == "-" + s[1..];
    } else {
      CanonicalDigitsUnique(s);
    }
  }
}
