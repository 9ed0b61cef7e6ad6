/**
 * Clock-style displays, "m:ss" and "h:mm:ss", as the recording timer and the
 * world-save countdown show them, and how such a display reads back as a
 * number of seconds.
 */
module Clock {
  import opened Wrappers
  import opened Text

  /** The seconds a list of digit fields stands for, each field worth 60 of the next. */
  function Sexagesimal(fields: seq<string>): nat
    requires forall k :: 0 <= k < |fields| ==> AllDigits(fields[k])
  {
    if fields == [] then 0
    else Sexagesimal(fields[..|fields| - 1]) * 60 + DigitsValue(fields[|fields| - 1])
  }

  /** Reading a clock display: colon-separated, non-empty digit fields. */
  function ReadClock(text: string): (r: Option<nat>)
    ensures r.Some? ==> forall k :: 0 <= k < |Split(text, ':')| ==> |Split(text, ':')[k]| > 0
  {
    var fields := Split(text, ':');
    if forall k :: 0 <= k < |fields| ==> |fields[k]| > 0 && AllDigits(fields[k])
    then Some(Sexagesimal(fields))
    else None
  }

  /** A number below 60 as two digits, `String(n).padStart(2, '0')`. */
  function TwoDigits(n: nat): (r: string)
    requires n < 60
    ensures |r| == 2 && AllDigits(r) && DigitsValue(r) == n
  {
    var s := NatToString(n);
    DigitsValueOfNatToString(n);
    if n < 10 then
      assert s == [DigitChar(n)];
      var r := PadStart2(s);
      assert r == "0" + s;
      assert r[..1] == "0";
      r
    else
      assert |NatToString(n / 10)| == 1;
      PadStart2(s)
  }

  function MinutesSeconds(minutes: nat, seconds: nat): string
    requires seconds < 60
  {
    NatToString(minutes) + ":" + TwoDigits(seconds)
  }

  function HoursMinutesSeconds(hours: nat, minutes: nat, seconds: nat): string
    requires minutes < 60 && seconds < 60
  {
    NatToString(hours) + ":" + TwoDigits(minutes) + ":" + TwoDigits(seconds)
  }

  /** A digit field holds no colon. */
  lemma DigitsFree(s: string)
    requires AllDigits(s)
    ensures Free(s, ':')
  {
  }

  /** The digit fields of a clock display read back as their sexagesimal value. */
  lemma ReadFields(text: string, fields: seq<string>)
    requires Split(text, ':') == fields
    requires forall k :: 0 <= k < |fields| ==> |fields[k]| > 0 && AllDigits(fields[k])
    ensures ReadClock(text) == Some(Sexagesimal(fields))
  {
  }

  /** "m:ss" splits into its two fields. */
  lemma MinutesSecondsFields(minutes: nat, seconds: nat)
    requires seconds < 60
    ensures Split(MinutesSeconds(minutes, seconds), ':') == [NatToString(minutes), TwoDigits(seconds)]
  {
    var fields := [NatToString(minutes), TwoDigits(seconds)];
    DigitsFree(fields[0]);
    DigitsFree(fields[1]);
    assert Join(fields, ":") == MinutesSeconds(minutes, seconds) by {
      assert fields[1..] == [TwoDigits(seconds)];
    }
    SplitJoin(fields, ':');
  }

  /** "m:ss" has two fields and reads back as m * 60 + ss. */
  lemma ReadMinutesSeconds(minutes: nat, seconds: nat)
    requires seconds < 60
    ensures Split(MinutesSeconds(minutes, seconds), ':') == [NatToString(minutes), TwoDigits(seconds)]
    ensures ReadClock(MinutesSeconds(minutes, seconds)) == Some(minutes * 60 + seconds)
  {
    var fields := [NatToString(minutes), TwoDigits(seconds)];
    MinutesSecondsFields(minutes, seconds);
    assert fields[..1] == [NatToString(minutes)];
    assert fields[..1][..0] == [];
    DigitsValueOfNatToString(minutes);
    assert Sexagesimal(fields[..1]) == minutes;
    assert Sexagesimal(fields) == minutes * 60 + seconds;
    ReadFields(MinutesSeconds(minutes, seconds), fields);
  }

  /** "h:mm:ss" splits into its three fields. */
  lemma HoursMinutesSecondsFields(hours: nat, minutes: nat, seconds: nat)
    requires minutes < 60 && seconds < 60
    ensures Split(HoursMinutesSeconds(hours, minutes, seconds), ':')
      == [NatToString(hours), TwoDigits(minutes), TwoDigits(seconds)]
  {
    var fields := [NatToString(hours), TwoDigits(minutes), TwoDigits(seconds)];
    DigitsFree(fields[0]);
    DigitsFree(fields[1]);
    DigitsFree(fields[2]);
    assert Join(fields, ":") == HoursMinutesSeconds(hours, minutes, seconds) by {
      var rest := [TwoDigits(minutes), TwoDigits(seconds)];
      assert fields[1..] == rest;
      assert rest[1..] == [TwoDigits(seconds)];
      assert Join(rest, ":") == TwoDigits(minutes) + ":" + TwoDigits(seconds);
    }
    SplitJoin(fields, ':');
  }

  /** "h:mm:ss" has three fields and reads back as h * 3600 + mm * 60 + ss. */
  lemma ReadHoursMinutesSeconds(hours: nat, minutes: nat, seconds: nat)
    requires minutes < 60 && seconds < 60
    ensures Split(HoursMinutesSeconds(hours, minutes, seconds), ':')
      == [NatToString(hours), TwoDigits(minutes), TwoDigits(seconds)]
    ensures ReadClock(HoursMinutesSeconds(hours, minutes, seconds)) == Some(hours * 3600 + minutes * 60 + seconds)
  {
    var fields := [NatToString(hours), TwoDigits(minutes), TwoDigits(seconds)];
    HoursMinutesSecondsFields(hours, minutes, seconds);
    assert fields[..2] == [NatToString(hours), TwoDigits(minutes)];
    assert fields[..2][..1] == [NatToString(hours)];
    assert fields[..2][..1][..0] == [];
    DigitsValueOfNatToString(hours);
    assert Sexagesimal(fields[..2][..1]) == hours;
    assert Sexagesimal(fields[..2]) == hours * 60 + minutes;
    assert Sexagesimal(fields) == (hours * 60 + minutes) * 60 + seconds;
    ReadFields(HoursMinutesSeconds(hours, minutes, seconds), fields);
  }
}
