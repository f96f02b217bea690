/** The running clock shown while typing: elapsed seconds as zero-padded `MM:SS`. */
module TimerDisplay {
  import opened Types
  import opened Text

  /** `formatTime` of the timer: minutes and seconds, each padded to two digits. */
  function FormatClock(totalSeconds: nat): (r: string)
    ensures |r| >= 5 && r[|r| - 3] == ':'
  {
    PartWidth(totalSeconds % 60);
    PadStart(NatToString(totalSeconds / 60), 2, '0') + ":" + PadStart(NatToString(totalSeconds % 60), 2, '0')
  }

  /** Reads `MM:SS` back as a number of seconds. */
  function ParseClock(text: string): Option<nat>
  {
    ParseClockParts(Split(text, ':'))
  }

  /** Exactly two digit groups, read as minutes and seconds. */
  function ParseClockParts(parts: seq<string>): Option<nat>
  {
    if |parts| == 2 && AllDigits(parts[0]) && AllDigits(parts[1]) then
      Some(ParseDecimal(parts[0]) * 60 + ParseDecimal(parts[1]))
    else None
  }

  /** The minutes group, the colon and the seconds group, each group at least
      two digits and the seconds group a number below 60. */
  lemma ClockShape(totalSeconds: nat)
    ensures var parts := Split(FormatClock(totalSeconds), ':');
      && |parts| == 2
      && AllDigits(parts[0]) && |parts[0]| >= 2 && ParseDecimal(parts[0]) == totalSeconds / 60
      && AllDigits(parts[1]) && |parts[1]| == 2 && ParseDecimal(parts[1]) == totalSeconds % 60 < 60
  {
    var mm := PadStart(NatToString(totalSeconds / 60), 2, '0');
    var ss := PadStart(NatToString(totalSeconds % 60), 2, '0');
    PaddedNumberParses(totalSeconds / 60, 2);
    PaddedNumberParses(totalSeconds % 60, 2);
    assert ':' !in mm && ':' !in ss by {
      assert forall i :: 0 <= i < |mm| ==> IsDigit(mm[i]);
      assert forall i :: 0 <= i < |ss| ==> IsDigit(ss[i]);
    }
    SplitAtFirst(mm, ':', ss);
    SplitWithout(ss, ':');
  }

  /** Reading the display back gives the elapsed seconds: `m * 60 + s`. */
  lemma ClockRoundTrip(totalSeconds: nat)
    ensures ParseClock(FormatClock(totalSeconds)) == Some(totalSeconds)
  {
    var m, sec := totalSeconds / 60, totalSeconds % 60;
    ParsePaddedClock(m, sec);
    assert m * 60 + sec == totalSeconds;
  }

  /** Two padded numbers around a colon read back as minutes and seconds. */
  lemma ParsePaddedClock(m: nat, sec: nat)
    ensures ParseClock(PadStart(NatToString(m), 2, '0') + ":" + PadStart(NatToString(sec), 2, '0')) == Some(m * 60 + sec)
  {
    PaddedNumberParses(m, 2);
    PaddedNumberParses(sec, 2);
    ParseClockOf(PadStart(NatToString(m), 2, '0'), PadStart(NatToString(sec), 2, '0'), m, sec);
  }

  /** Two digit groups around a colon read back as minutes and seconds. */
  lemma ParseClockOf(mm: string, ss: string, m: nat, sec: nat)
    requires AllDigits(mm) && AllDigits(ss) && ParseDecimal(mm) == m && ParseDecimal(ss) == sec
    ensures ParseClock(mm + ":" + ss) == Some(m * 60 + sec)
  {
    DigitsHaveNoColon(mm);
    DigitsHaveNoColon(ss);
    SplitAtColon(mm, ss);
    ParseClockOfSplit(mm + ":" + ss, mm, ss, m, sec);
  }

  /** A digit string holds no colon. */
  lemma DigitsHaveNoColon(s: string)
    requires AllDigits(s)
    ensures ':' !in s
  {
    assert forall i :: 0 <= i < |s| ==> IsDigit(s[i]);
  }

  /** Colon-free groups split at the one colon between them. */
  lemma SplitAtColon(mm: string, ss: string)
    requires ':' !in mm && ':' !in ss
    ensures Split(mm + ":" + ss, ':') == [mm, ss]
  {
    assert mm + ":" + ss == mm + [':'] + ss;
    SplitPair(mm, ':', ss);
  }

  /** A text that splits into two digit groups reads as minutes and seconds. */
  lemma ParseClockOfSplit(text: string, mm: string, ss: string, m: nat, sec: nat)
    requires AllDigits(mm) && AllDigits(ss) && ParseDecimal(mm) == m && ParseDecimal(ss) == sec
    requires Split(text, ':') == [mm, ss]
    ensures ParseClock(text) == Some(m * 60 + sec)
  {
    ParseClockPartsOf(mm, ss, m, sec);
  }

  /** Two digit groups read as minutes and seconds. */
  lemma ParseClockPartsOf(mm: string, ss: string, m: nat, sec: nat)
    requires AllDigits(mm) && AllDigits(ss) && ParseDecimal(mm) == m && ParseDecimal(ss) == sec
    ensures ParseClockParts([mm, ss]) == Some(m * 60 + sec)
  {
  }

  /** A number below 100, padded, is exactly two characters. */
  lemma PartWidth(n: nat)
    requires n < 100
    ensures |PadStart(NatToString(n), 2, '0')| == 2
  {
  }

  /** Below 100 minutes the display is exactly five characters, `MM:SS`. */
  lemma ClockWidth(totalSeconds: nat)
    requires totalSeconds < 6000
    ensures |FormatClock(totalSeconds)| == 5 && FormatClock(totalSeconds)[2] == ':'
  {
    var m, sec := totalSeconds / 60, totalSeconds % 60;
    assert m < 100;
    PartWidth(m);
    PartWidth(sec);
    var mm := PadStart(NatToString(m), 2, '0');
    var ss := PadStart(NatToString(sec), 2, '0');
    assert FormatClock(totalSeconds) == mm + ":" + ss;
  }
}
