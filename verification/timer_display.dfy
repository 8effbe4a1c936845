/**
 * The clock face (src/components/timer/TimerDisplay.tsx): seconds left
 * rendered as `mm:ss`, both parts padded to two digits.
 */
module TimerDisplay {
  import opened Strings

  /** `formatTime`: `Math.floor(s / 60)` and `s % 60`, each `padStart(2, '0')`, around a colon. */
  function FormatTime(seconds: nat): (r: string)
    ensures |r| >= 5 && r[|r| - 3] == ':'
    ensures seconds < 6000 ==> |r| == 5
  {
    PadStart2(Decimal(seconds / 60)) + ":" + PadStart2(Decimal(seconds % 60))
  }

  /** The seconds a `mm:ss` text denotes: digits before the last colon are minutes, the two after are seconds. */
  function ClockValue(r: string): nat
    requires |r| >= 3 && AllDigits(r[..|r| - 3]) && AllDigits(r[|r| - 2..])
  {
    DigitsValue(r[..|r| - 3]) * 60 + DigitsValue(r[|r| - 2..])
  }

  /** The face reads back as the time it shows: minutes and a two-digit second below 60. */
  lemma FormatTimeRoundTrip(seconds: nat)
    ensures var r := FormatTime(seconds);
      && AllDigits(r[..|r| - 3]) && AllDigits(r[|r| - 2..])
      && DigitsValue(r[|r| - 2..]) == seconds % 60 < 60
      && ClockValue(r) == seconds
  {
    var m, s := PadStart2(Decimal(seconds / 60)), PadStart2(Decimal(seconds % 60));
    var r := FormatTime(seconds);
    PaddedDecimal(seconds / 60);
    PaddedDecimal(seconds % 60);
    assert r == m + ":" + s;
    assert |s| == 2;
    assert r[..|r| - 3] == m;
    assert r[|r| - 2..] == s;
  }

  /** Two different times never show the same face. */
  lemma FormatTimeInjective(a: nat, b: nat)
    requires FormatTime(a) == FormatTime(b)
    ensures a == b
  {
    FormatTimeRoundTrip(a);
    FormatTimeRoundTrip(b);
  }
}
