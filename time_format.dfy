/**
 * The elapsed-time formatter: whole seconds to "MM:SS". The source floors its
 * argument before formatting, so seconds are modelled as an integer.
 */
module TimeFormat {
  import opened Wrappers
  import opened JsBuiltins

  /**
   * `secondsToMinutesSeconds`: negative input gives "00:00"; otherwise the floored
   * minutes and the seconds past the minute, each padded to two digits.
   */
  function SecondsToMinutesSeconds(seconds: int): (r: string)
    ensures seconds < 0 ==> r == "00:00"
  {
    if seconds < 0 then "00:00" else Clock(seconds / 60, seconds % 60)
  }

  /** `n.toString().padStart(2, '0')`. */
  function Pad2(n: nat): string
  {
    PadStart(NatToString(n), 2, '0')
  }

  /** A zero-padded decimal keeps its digits and its value; it has two digits below 100. */
  lemma PaddedValue(n: nat)
    ensures AllDigits(Pad2(n)) && DigitsValue(Pad2(n)) == n
    ensures |Pad2(n)| >= 2 && (|Pad2(n)| == 2 <==> n < 100)
  {
    var d := NatToString(n);
    if |d| < 2 {
      assert PadStart(d, 2, '0') == seq(2 - |d|, _ => '0') + d;
      LeadingZeros(2 - |d|, d);
    }
  }

  /** Minutes and seconds, each padded, around a colon. */
  function Clock(mins: nat, secs: nat): string
  {
    Pad2(mins) + ":" + Pad2(secs)
  }

  /** The pieces of `m + ":" + s` for a two-character `s`. */
  lemma ColonParts(m: string, s: string, r: string)
    requires |s| == 2 && r == m + ":" + s
    ensures |r| - 3 == |m| && r[..|m|] == m && r[|m|] == ':' && r[|m| + 1..] == s
  {
    assert r[..|m|] == m;
    assert r[|m| + 1..] == s;
  }

  /**
   * For non-negative input the text is a minutes part, a colon and a two-digit
   * seconds part worth 0 to 59; the minutes part has at least two digits and more
   * exactly when there are 100 minutes or more (padding never truncates), and is
   * then the plain decimal text of the minutes, without a leading zero.
   */
  lemma FormatShape(seconds: int, r: string)
    requires seconds >= 0 && r == SecondsToMinutesSeconds(seconds)
    ensures |r| >= 5 && r[|r| - 3] == ':'
    ensures AllDigits(r[..|r| - 3]) && DigitsValue(r[..|r| - 3]) == seconds / 60
    ensures |r| == 5 <==> seconds < 6000
    ensures seconds >= 6000 ==> r[..|r| - 3] == NatToString(seconds / 60) && r[0] != '0'
    ensures AllDigits(r[|r| - 2..]) && DigitsValue(r[|r| - 2..]) == seconds % 60
    ensures DigitsValue(r[|r| - 2..]) <= 59
  {
    var mins, secs := seconds / 60, seconds % 60;
    var m, s := Pad2(mins), Pad2(secs);
    assert r == m + ":" + s;
    assert AllDigits(m) && DigitsValue(m) == mins && |m| >= 2 && (|m| == 2 <==> mins < 100) by {
      PaddedValue(mins);
    }
    assert AllDigits(s) && DigitsValue(s) == secs && |s| == 2 by {
      PaddedValue(secs);
    }
    ColonParts(m, s, r);
    assert |r| - 2 == |m| + 1;
    assert mins >= 100 ==> m == NatToString(mins);
  }

  /** Reads "M...:SS" back into seconds; the inverse of the formatter on its image. */
  function ParseClock(text: string): Option<int>
  {
    ClockValue(Split(text, ":"))
  }

  /** The seconds denoted by the colon-separated pieces of a clock text. */
  function ClockValue(parts: seq<string>): Option<int>
  {
    if |parts| == 2 && |parts[0]| >= 2 && |parts[1]| == 2 &&
       AllDigits(parts[0]) && AllDigits(parts[1]) && DigitsValue(parts[1]) < 60
    then Some(DigitsValue(parts[0]) * 60 + DigitsValue(parts[1]))
    else None
  }

  /** A digit string holds no colon. */
  lemma DigitsNoColon(d: string)
    requires AllDigits(d)
    ensures ':' !in d
  {
  }

  /** Two colon-free strings around a colon split back into the two. */
  lemma SplitColon(m: string, s: string, text: string)
    requires ':' !in m && ':' !in s && text == m + ":" + s
    ensures Split(text, ":") == [m, s]
  {
    assert text == m + [':'] + s;
    SplitAfterFirstChar(m, ':', s);
    SplitWithoutChar(s, ':');
  }

  /** The value of a well-formed pair of minutes and seconds digits. */
  lemma ClockValueOf(m: string, s: string)
    requires AllDigits(m) && AllDigits(s) && |m| >= 2 && |s| == 2 && DigitsValue(s) < 60
    ensures ClockValue([m, s]) == Some(DigitsValue(m) * 60 + DigitsValue(s))
  {
  }

  /** Two digit strings around a colon read back as minutes and seconds. */
  lemma ParseParts(m: string, s: string, text: string)
    requires AllDigits(m) && AllDigits(s) && |m| >= 2 && |s| == 2 && DigitsValue(s) < 60
    requires text == m + ":" + s
    ensures ParseClock(text) == Some(DigitsValue(m) * 60 + DigitsValue(s))
  {
    DigitsNoColon(m);
    DigitsNoColon(s);
    SplitColon(m, s, text);
    ClockValueOf(m, s);
  }

  /** A text with a colon at `n` is what precedes it, the colon, and what follows. */
  lemma CutAt(r: string, n: nat)
    requires n < |r| && r[n] == ':'
    ensures r == r[..n] + ":" + r[n + 1..]
  {
    assert r == r[..n] + [r[n]] + r[n + 1..];
  }

  /** Formatting a non-negative count and reading it back gives the count. */
  lemma ParseFormat(seconds: int)
    requires seconds >= 0
    ensures ParseClock(SecondsToMinutesSeconds(seconds)) == Some(seconds)
  {
    var r := SecondsToMinutesSeconds(seconds);
    FormatShape(seconds, r);
    var n := |r| - 3;
    var m, s := r[..n], r[n + 1..];
    assert s == r[|r| - 2..];
    CutAt(r, n);
    ParseParts(m, s, r);
    assert DigitsValue(m) * 60 + DigitsValue(s) == seconds / 60 * 60 + seconds % 60 == seconds;
  }

  /** Distinct non-negative counts are displayed differently. */
  lemma FormatInjective(a: int, b: int)
    requires a >= 0 && b >= 0
    requires SecondsToMinutesSeconds(a) == SecondsToMinutesSeconds(b)
    ensures a == b
  {
    ParseFormat(a);
    ParseFormat(b);
  }

  /** 125 seconds show as "02:05"; 6000 seconds need a third minutes digit. */
  lemma FormatExample()
    ensures SecondsToMinutesSeconds(125) == "02:05"
    ensures SecondsToMinutesSeconds(6000) == "100:00"
  {
    assert NatToString(2) == "2" && NatToString(5) == "5" && NatToString(0) == "0";
    assert NatToString(100) == "100";
  }
}
