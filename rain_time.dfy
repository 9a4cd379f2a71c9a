/** The playback label of a frame: the last four digits of its id, `HHMM`,
    shown as a twelve-hour clock time `h:mm AM` or `h:mm PM`. */
module RainTime {
  import opened Ids

  /** The id matches `/\d{4}$/`. */
  predicate EndsInFourDigits(id: string) {
    |id| >= 4 && AllDigits(id[|id| - 4..])
  }

  /** The four digits the label is built from. */
  function LastFour(id: string): (d: string)
    requires EndsInFourDigits(id)
    ensures |d| == 4 && AllDigits(d)
  {
    id[|id| - 4..]
  }

  /** `parseInt(m1, 10)` of the first two of the four digits. */
  function HourField(d: string): (h: nat)
    requires |d| == 4 && AllDigits(d)
    ensures h < 100
  {
    10 * DigitValue(d[0]) + DigitValue(d[1])
  }

  /** The hour as shown: 0 becomes 12 and hours above 12 lose 12. */
  function ClockHour(h: nat): nat {
    if h == 0 then 12 else if h > 12 then h - 12 else h
  }

  function Meridiem(h: nat): string {
    if h >= 12 then "PM" else "AM"
  }

  /** `convertRainID2Time(id)`; the empty id and ids not ending in four
      digits give the empty label. Hours and minutes are not range-checked. */
  function TimeLabel(id: string): (text: string)
    ensures text == "" <==> !EndsInFourDigits(id)
    ensures EndsInFourDigits(id) ==>
      var d := LastFour(id);
      var h := HourField(d);
      && text == NatToString(ClockHour(h)) + ":" + d[2..] + " " + Meridiem(h)
      && (h <= 23 ==> 1 <= ClockHour(h) <= 12)
  {
    if id == "" || !EndsInFourDigits(id) then ""
    else
      var d := LastFour(id);
      var h := HourField(d);
      NatToString(ClockHour(h)) + ":" + d[2..] + " " + Meridiem(h)
  }

  /** Only the final four digits matter. */
  lemma LabelOfLastFour(a: string, b: string)
    requires EndsInFourDigits(a) && EndsInFourDigits(b) && LastFour(a) == LastFour(b)
    ensures TimeLabel(a) == TimeLabel(b)
  {
  }

  /** Two-digit fields with the same value are the same digits. */
  lemma TwoDigitsInjective(d: string, e: string)
    requires |d| == 4 && AllDigits(d) && |e| == 4 && AllDigits(e)
    requires HourField(d) == HourField(e)
    ensures d[..2] == e[..2]
  {
    assert DigitValue(d[1]) == HourField(d) % 10;
    assert DigitValue(e[1]) == HourField(e) % 10;
    assert d[0] == e[0] && d[1] == e[1];
  }

  /** For clock hours 00 to 23 the label determines the four digits it was
      made from: the hour is recovered from `h` and AM/PM, the minutes are
      copied verbatim. */
  lemma {:induction false} LabelInjective(a: string, b: string)
    requires EndsInFourDigits(a) && EndsInFourDigits(b)
    requires HourField(LastFour(a)) <= 23 && HourField(LastFour(b)) <= 23
    requires TimeLabel(a) == TimeLabel(b)
    ensures LastFour(a) == LastFour(b)
  {
    var da, db := LastFour(a), LastFour(b);
    var ha, hb := HourField(da), HourField(db);
    var sa, sb := NatToString(ClockHour(ha)), NatToString(ClockHour(hb));
    var la, lb := TimeLabel(a), TimeLabel(b);
    NatToStringLength(ClockHour(ha));
    NatToStringLength(ClockHour(hb));
    assert |la| == |sa| + 6 && |lb| == |sb| + 6;
    assert |sa| == |sb|;
    var n := |sa|;
    assert sa == la[..n] && sb == lb[..n];
    NatToStringInjective(ClockHour(ha), ClockHour(hb));
    assert da[2..] == la[n + 1..n + 3] && db[2..] == lb[n + 1..n + 3];
    assert Meridiem(ha) == la[n + 4..] && Meridiem(hb) == lb[n + 4..];
    assert (ha >= 12) == (hb >= 12);
    assert ha == hb;
    TwoDigitsInjective(da, db);
    assert da == da[..2] + da[2..] && db == db[..2] + db[2..];
  }

  /** A mid id whose neighbours' ids have an odd sum ends in ".5", so its label is empty. */
  lemma MidIdHasNoLabel(a: string, b: string)
    requires AllDigits(a) && AllDigits(b)
    requires (DigitsValue(a) + DigitsValue(b)) % 2 == 1
    ensures TimeLabel(MidId(a, b)) == ""
  {
    var s := MidId(a, b);
    MidIdOddSum(a, b);
    if |s| >= 4 {
      assert !IsDigit(s[|s| - 4..][2]) by { assert s[|s| - 4..][2] == s[|s| - 2]; }
    }
  }

  /** Worked example: a capture at 18:05 is shown as an afternoon time. */
  lemma LabelAfternoon()
    ensures TimeLabel("202006101805") == "6:05 PM"
  {
    assert LastFour("202006101805") == "1805";
    assert HourField("1805") == 18;
    assert NatToString(6) == "6";
  }

  /** Worked example: hour 00 is shown as 12 AM. */
  lemma LabelMidnight()
    ensures TimeLabel("202006100030") == "12:30 AM"
  {
    assert LastFour("202006100030") == "0030";
    assert HourField("0030") == 0;
    assert NatToString(12) == "12" by { assert NatToString(1) == "1"; }
  }

  /** Worked example: hour 12 stays 12 and is PM. */
  lemma LabelNoon()
    ensures TimeLabel("202006101200") == "12:00 PM"
  {
    assert LastFour("202006101200") == "1200";
    assert HourField("1200") == 12;
    assert NatToString(12) == "12" by { assert NatToString(1) == "1"; }
  }

  /** Worked example: fields out of clock range are passed through. */
  lemma LabelOutOfRange()
    ensures TimeLabel("2575") == "13:75 PM"
  {
    var id := "2575";
    assert AllDigits(id[|id| - 4..]) by { assert id[|id| - 4..] == id; }
    assert LastFour(id) == id;
    assert HourField(id) == 25;
    assert ClockHour(25) == 13;
    assert id[2..] == "75";
    assert NatToString(13) == "13" by { assert NatToString(1) == "1"; }
  }
}
