/**
 * The countdown text a rest window shows (`RestWindow.update_display`):
 * `divmod(n, 60)` followed by Python's `{:02d}` on both parts, for every
 * integer `n`, negative ones included.  `ParseTime` reads such a text back
 * and is the inverse of `FormatTime` on non-negative counts.
 */
module TimeText {
  import opened Wrappers

  predicate IsDigit(c: char) {
    '0' <= c <= '9'
  }

  predicate AllDigits(s: string) {
    forall i :: 0 <= i < |s| ==> IsDigit(s[i])
  }

  function DigitValue(c: char): (d: int)
    requires IsDigit(c)
    ensures 0 <= d <= 9
  {
    c as int - '0' as int
  }

  function DigitChar(d: int): (c: char)
    requires 0 <= d <= 9
    ensures IsDigit(c) && DigitValue(c) == d
  {
    ('0' as int + d) as char
  }

  /** Python's `str(n)` for a non-negative `n`: decimal digits, no leading zero. */
  function Decimal(n: nat): (r: string)
    ensures AllDigits(r)
    ensures 1 <= |r|
    ensures |r| == 1 <==> n < 10
    ensures |r| > 1 ==> r[0] != '0'
  {
    if n < 10 then [DigitChar(n)] else Decimal(n / 10) + [DigitChar(n % 10)]
  }

  /** The value of a string of decimal digits (the empty string reads as 0). */
  function ParseDecimal(s: string): nat
    requires AllDigits(s)
  {
    if s == [] then 0 else ParseDecimal(s[..|s| - 1]) * 10 + DigitValue(s[|s| - 1])
  }

  lemma {:induction false} ParseDecimalOfDecimal(n: nat)
    ensures ParseDecimal(Decimal(n)) == n
  {
    if n >= 10 {
      var r := Decimal(n);
      assert r[..|r| - 1] == Decimal(n / 10);
      ParseDecimalOfDecimal(n / 10);
    }
  }

  /**
   * Python's `f"{x:02d}"`: at least two characters, zero-padded on the left
   * for 0..9; a negative number keeps its sign and is already two wide.
   */
  function Pad2(x: int): (r: string)
    ensures 2 <= |r|
    ensures 0 <= x ==> AllDigits(r)
    ensures 0 <= x < 100 ==> |r| == 2
    ensures x < 0 ==> r[0] == '-'
    ensures 10 <= x ==> r[0] != '0'
  {
    if 0 <= x < 10 then ['0', DigitChar(x)]
    else if 10 <= x then Decimal(x)
    else "-" + Decimal(-x)
  }

  lemma Pad2Value(x: nat)
    ensures ParseDecimal(Pad2(x)) == x
  {
    if x < 10 {
      var r := Pad2(x);
      assert r[..1] == ['0'] && r[..1][..0] == [];
      assert ParseDecimal(r[..1]) == 0;
    } else {
      ParseDecimalOfDecimal(x);
    }
  }

  /**
   * The text `update_display` puts on the time label.  Python's `divmod`
   * floors; for the positive divisor 60 that is exactly Dafny's `/` and `%`.
   */
  function FormatTime(n: int): (r: string)
    ensures 5 <= |r| && r[|r| - 3] == ':'
    ensures AllDigits(r[|r| - 2..]) && ParseDecimal(r[|r| - 2..]) < 60
    ensures 0 <= n ==> AllDigits(r[..|r| - 3])
    ensures 0 <= n < 6000 ==> |r| == 5
    ensures n < 0 ==> r[0] == '-'
  {
    var mins, secs := n / 60, n % 60;
    Pad2Value(secs);
    Pad2(mins) + ":" + Pad2(secs)
  }

  /** Reads an `MM:SS` text back into seconds; `None` for anything else. */
  function ParseTime(t: string): (r: Option<nat>)
  {
    if 5 <= |t| && t[|t| - 3] == ':' && AllDigits(t[..|t| - 3]) && AllDigits(t[|t| - 2..]) then
      Some(ParseDecimal(t[..|t| - 3]) * 60 + ParseDecimal(t[|t| - 2..]))
    else
      None
  }

  /** Every non-negative count reads back from its label. */
  lemma FormatTimeRoundTrip(n: nat)
    ensures ParseTime(FormatTime(n)) == Some(n)
  {
    var m, s := Pad2(n / 60), Pad2(n % 60);
    var r := FormatTime(n);
    assert r == m + ":" + s;
    assert r[..|r| - 3] == m;
    assert r[|r| - 2..] == s;
    Pad2Value(n / 60);
    Pad2Value(n % 60);
  }

  /** A negative count shows a minus sign and is no `MM:SS` text at all. */
  lemma FormatTimeNegative(n: int)
    requires n < 0
    ensures ParseTime(FormatTime(n)) == None
  {
    var r := FormatTime(n);
    assert !IsDigit(r[..|r| - 3][0]);
  }

  /** Two windows show the same text exactly when they hold the same count. */
  lemma FormatTimeInjective(a: nat, b: nat)
    ensures FormatTime(a) == FormatTime(b) <==> a == b
  {
    FormatTimeRoundTrip(a);
    FormatTimeRoundTrip(b);
  }

  lemma FormatTimeExamples()
    ensures FormatTime(125) == "02:05"
    ensures FormatTime(59) == "00:59"
    ensures FormatTime(0) == "00:00"
    ensures FormatTime(3659) == "60:59"
  {
  }
}
