/** The `MM:SS` text that `updateTimerDisplay` derives from the remaining seconds. */
module TimerDisplay {

  predicate IsDigit(c: char) {
    '0' <= c <= '9'
  }

  predicate AllDigits(s: string) {
    forall i :: 0 <= i < |s| ==> IsDigit(s[i])
  }

  function DigitValue(c: char): nat
    requires IsDigit(c)
  {
    c as int - '0' as int
  }

  function DigitChar(d: nat): (c: char)
    requires d < 10
    ensures IsDigit(c) && DigitValue(c) == d
  {
    (d + '0' as int) as char
  }

  /** The number a string of decimal digits denotes (leading zeros allowed). */
  function ValueOf(s: string): nat
    requires AllDigits(s)
  {
    if s == [] then 0 else ValueOf(s[..|s| - 1]) * 10 + DigitValue(s[|s| - 1])
  }

  /** `n.toString()` for a non-negative integer: its decimal digits, without leading zeros. */
  function Decimal(n: nat): (r: string)
    ensures 1 <= |r| && AllDigits(r) && ValueOf(r) == n
    ensures r[0] == '0' ==> n == 0
    ensures |r| == 1 <==> n < 10
    ensures |r| <= 2 <==> n < 100
  {
    if n < 10 then [DigitChar(n)]
    else
      var r := Decimal(n / 10) + [DigitChar(n % 10)];
      assert r[..|r| - 1] == Decimal(n / 10);
      r
  }

  /** `s.padStart(2, '0')`: zeros in front up to two characters; longer strings are kept whole. */
  function PadStart2(s: string): string {
    if |s| >= 2 then s else seq(2 - |s|, _ => '0') + s
  }

  /** The text shown for `seconds` left: whole minutes and remaining seconds, each padded to two digits. */
  function Display(seconds: nat): string {
    PadStart2(Decimal(seconds / 60)) + ":" + PadStart2(Decimal(seconds % 60))
  }

  /** Zeros written in front of a digit string do not change the number it denotes. */
  lemma {:induction false} LeadingZerosKeepValue(z: string, s: string)
    requires forall i :: 0 <= i < |z| ==> z[i] == '0'
    requires AllDigits(s)
    ensures AllDigits(z + s) && ValueOf(z + s) == ValueOf(s)
  {
    if s == [] {
      assert z + s == z;
      ZerosDenoteZero(z);
    } else {
      var s' := s[..|s| - 1];
      assert (z + s)[..|z + s| - 1] == z + s';
      LeadingZerosKeepValue(z, s');
    }
  }

  lemma {:induction false} ZerosDenoteZero(z: string)
    requires forall i :: 0 <= i < |z| ==> z[i] == '0'
    ensures AllDigits(z) && ValueOf(z) == 0
  {
    if z != [] {
      ZerosDenoteZero(z[..|z| - 1]);
    }
  }

  /** A number below 100 is shown as exactly two digits that denote it. */
  lemma TwoDigits(n: nat)
    requires n < 100
    ensures var p := PadStart2(Decimal(n)); |p| == 2 && AllDigits(p) && ValueOf(p) == n
  {
    var d := Decimal(n);
    if |d| < 2 {
      LeadingZerosKeepValue(seq(2 - |d|, _ => '0'), d);
    }
  }

  /**
   * For any time up to 99:59, in particular every value of a 30-minute session, the display is five
   * characters `MM:SS` whose two fields read back as minutes and seconds of the same time.
   */
  lemma DisplayReadsBack(seconds: nat)
    requires seconds < 6000
    ensures var d := Display(seconds);
      |d| == 5 && d[2] == ':' && AllDigits(d[..2]) && AllDigits(d[3..]) &&
      ValueOf(d[3..]) < 60 && ValueOf(d[..2]) * 60 + ValueOf(d[3..]) == seconds
  {
    var d := Display(seconds);
    var m := PadStart2(Decimal(seconds / 60));
    var s := PadStart2(Decimal(seconds % 60));
    TwoDigits(seconds / 60);
    TwoDigits(seconds % 60);
    assert d == m + ":" + s;
    assert d[..2] == m && d[3..] == s;
  }

  /** From 100 minutes on, `padStart` does not truncate: the display grows beyond five characters. */
  lemma LongTimesWiden(seconds: nat)
    requires seconds >= 6000
    ensures |Display(seconds)| > 5
  {
  }
}
