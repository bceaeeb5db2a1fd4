/** The puzzle's clock display: the seconds elapsed shown as minutes and seconds. */
module PuzzleTime {

  import Decimal

  /** `formatTime(seconds)`: the minutes, a colon, and the seconds on two digits. */
  function FormatTime(seconds: nat): (r: string)
    ensures |r| >= 4 && r[|r| - 3] == ':'
    ensures Decimal.AllDigits(r[..|r| - 3]) && Decimal.AllDigits(r[|r| - 2..])
  {
    var minutes, secs := Decimal.Show(seconds / 60), Decimal.PadStart(Decimal.Show(seconds % 60), 2);
    TwoDigits(seconds % 60);
    ClockShape(minutes, secs);
    minutes + ":" + secs
  }

  /** Digits, a colon and two digits: the shape of every time shown. */
  lemma ClockShape(minutes: string, secs: string)
    requires |minutes| >= 1 && Decimal.AllDigits(minutes) && |secs| == 2 && Decimal.AllDigits(secs)
    ensures var t := minutes + ":" + secs;
      |t| >= 4 && t[|t| - 3] == ':' && Decimal.AllDigits(t[..|t| - 3]) && Decimal.AllDigits(t[|t| - 2..])
  {
    var t := minutes + ":" + secs;
    assert t[..|t| - 3] == minutes;
    assert t[|t| - 2..] == secs;
  }

  /** The time shown reads back as its minutes and seconds: the minutes before the colon,
      and the seconds, always two digits, after it. */
  lemma FormatTimeReadsBack(seconds: nat)
    ensures var r := FormatTime(seconds);
      Decimal.Parse(r[..|r| - 3]) == seconds / 60 && Decimal.Parse(r[|r| - 2..]) == seconds % 60
  {
    var q, m := seconds / 60, seconds % 60;
    var minutes, secs := Decimal.Show(q), Decimal.PadStart(Decimal.Show(m), 2);
    TwoDigits(m);
    Halves(FormatTime(seconds), minutes, secs);
    Decimal.ParseShow(q);
  }

  /** The text before and after the colon of "minutes:secs". */
  lemma Halves(r: string, minutes: string, secs: string)
    requires r == minutes + ":" + secs && |secs| == 2
    ensures r[..|r| - 3] == minutes && r[|r| - 2..] == secs
  {
  }

  /** Reading a shown time "m:ss" back as a number of seconds. */
  function ReadTime(r: string): nat
    requires |r| >= 4 && Decimal.AllDigits(r[..|r| - 3]) && Decimal.AllDigits(r[|r| - 2..])
  {
    60 * Decimal.Parse(r[..|r| - 3]) + Decimal.Parse(r[|r| - 2..])
  }

  /** Reading the shown time gives back the seconds elapsed. */
  lemma ReadFormatTime(seconds: nat)
    ensures var r := FormatTime(seconds);
      |r| >= 4 && Decimal.AllDigits(r[..|r| - 3]) && Decimal.AllDigits(r[|r| - 2..]) && ReadTime(r) == seconds
  {
    FormatTimeReadsBack(seconds);
  }

  /** Different times are shown differently. */
  lemma FormatTimeInjective(a: nat, b: nat)
    requires FormatTime(a) == FormatTime(b)
    ensures a == b
  {
    ReadFormatTime(a);
    ReadFormatTime(b);
  }

  /** A number below 60 padded to two digits reads back as itself. */
  lemma TwoDigits(n: nat)
    requires n < 60
    ensures var s := Decimal.PadStart(Decimal.Show(n), 2);
      |s| == 2 && Decimal.AllDigits(s) && Decimal.Parse(s) == n
  {
    var t := Decimal.Show(n);
    Decimal.ParseShow(n);
    if n < 10 {
      Decimal.ParseLeadingZero(t);
      assert Decimal.PadStart(t, 2) == "0" + t;
    } else {
      assert |t| == 2;
    }
  }
}
