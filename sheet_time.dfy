/** `formatTimeForSheet`: the "HH:MM" value of a time input, rewritten on a 12-hour clock
    as "H:MM AM" or "H:MM PM" for the spreadsheet. */
module SheetTime {
  import opened Wrappers
  import opened Decimal
  import Text

  /** `hour24 === 0 ? 12 : hour24 > 12 ? hour24 - 12 : hour24` */
  function Hour12(h24: int): (h: int)
    ensures 0 <= h24 <= 23 ==> 1 <= h <= 12 && h % 12 == h24 % 12
  {
    if h24 == 0 then 12 else if h24 > 12 then h24 - 12 else h24
  }

  /** `hour24 >= 12 ? 'PM' : 'AM'` */
  function Meridiem(h24: int): (m: string)
    ensures m == "AM" || m == "PM"
    ensures m == "PM" <==> h24 >= 12
  {
    if h24 >= 12 then "PM" else "AM"
  }

  /** What the template prints for `hour12`, given the hours text: `NaN` when `parseInt`
      finds no number, since `NaN` is neither 0 nor above 12. */
  function HourField(hours: string): (f: string)
    ensures ParseInt(hours).None? ==> f == "NaN"
  {
    match ParseInt(hours)
    case None => "NaN"
    case Some(h24) => IntText(Hour12(h24))
  }

  /** For an hour 0 to 23 the printed 12-hour hour reads back as that 12-hour hour. */
  lemma HourFieldReadsBack(hours: string)
    requires ParseInt(hours).Some? && 0 <= ParseInt(hours).value <= 23
    ensures ParseInt(HourField(hours)) == Some(Hour12(ParseInt(hours).value))
  {
    ParseIntOfNatText(Hour12(ParseInt(hours).value));
  }

  /** The suffix for the hours text; `NaN >= 12` is false, so `NaN` gives "AM". */
  function MeridiemField(hours: string): (m: string)
    ensures m == "AM" || m == "PM"
    ensures m == "PM" <==> ParseInt(hours).Some? && ParseInt(hours).value >= 12
  {
    match ParseInt(hours)
    case None => "AM"
    case Some(h24) => Meridiem(h24)
  }

  /** `formatTimeForSheet(timeString)`: "" stays ""; otherwise the text before the first
      ':' is the hour and the text between the first and second ':' the minutes (the
      string "undefined" when there is no ':'). */
  function FormatTime(s: string): (r: string)
    ensures r == "" <==> s == ""
  {
    if s == "" then ""
    else
      var parts := Text.Split(s, ':');
      var minutes := if |parts| > 1 then parts[1] else "undefined";
      HourField(parts[0]) + ":" + minutes + " " + MeridiemField(parts[0])
  }

  /** The minutes are copied verbatim, and the hour and suffix depend on the hours text
      alone. */
  lemma MinutesVerbatim(hours: string, minutes: string)
    requires ':' !in hours && ':' !in minutes
    ensures FormatTime(hours + ":" + minutes) ==
            HourField(hours) + ":" + minutes + " " + MeridiemField(hours)
  {
    Text.SplitPrefix(hours, ':', minutes);
    Text.SplitWithout(minutes, ':');
  }

  /** The value an `<input type="time">` holds once filled in: "HH:MM", 00 to 23 hours. */
  predicate ValidTime(s: string)
  {
    |s| == 5 && s[2] == ':' &&
    IsDigit(s[0]) && IsDigit(s[1]) && IsDigit(s[3]) && IsDigit(s[4]) &&
    10 * DigitValue(s[0]) + DigitValue(s[1]) <= 23 && DigitValue(s[3]) <= 5
  }

  function HourOf(s: string): (h: nat)
    requires ValidTime(s)
    ensures h <= 23
  {
    10 * DigitValue(s[0]) + DigitValue(s[1])
  }

  /** On a filled-in time the hours text is read as the hour it shows. */
  lemma FormatValidTimeShape(s: string)
    requires ValidTime(s)
    ensures FormatTime(s) == NatText(Hour12(HourOf(s))) + ":" + s[3..] + " " + Meridiem(HourOf(s))
  {
    var hours, mm := s[..2], s[3..];
    assert s == hours + ":" + mm;
    assert ':' !in hours && ':' !in mm;
    MinutesVerbatim(hours, mm);
    TwoDigitValue(hours);
    assert ParseInt(hours) == Some(HourOf(s));
    assert HourField(hours) == NatText(Hour12(HourOf(s)));
    assert MeridiemField(hours) == Meridiem(HourOf(s));
  }

  /** On a filled-in time: hour 0 is "12 … AM", 1 to 11 stay as they are with "AM" and no
      leading zero, 12 is "12 … PM", 13 to 23 lose 12 and get "PM"; the minutes are
      copied. */
  lemma FormatValidTime(s: string)
    requires ValidTime(s)
    ensures HourOf(s) == 0 ==> FormatTime(s) == "12:" + s[3..] + " AM"
    ensures 1 <= HourOf(s) <= 11 ==> FormatTime(s) == NatText(HourOf(s)) + ":" + s[3..] + " AM"
    ensures HourOf(s) == 12 ==> FormatTime(s) == "12:" + s[3..] + " PM"
    ensures 13 <= HourOf(s) ==> FormatTime(s) == NatText(HourOf(s) - 12) + ":" + s[3..] + " PM"
    ensures FormatTime(s)[0] != '0'
  {
    FormatValidTimeShape(s);
    TwelveHourLayout(HourOf(s), s[3..]);
  }

  /** The four cases of the 12-hour layout, for an hour 0 to 23 and any minutes text. */
  lemma TwelveHourLayout(h: nat, mm: string)
    requires h <= 23
    ensures var r := NatText(Hour12(h)) + ":" + mm + " " + Meridiem(h);
      (h == 0 ==> r == "12:" + mm + " AM") &&
      (1 <= h <= 11 ==> r == NatText(h) + ":" + mm + " AM") &&
      (h == 12 ==> r == "12:" + mm + " PM") &&
      (13 <= h ==> r == NatText(h - 12) + ":" + mm + " PM") &&
      r[0] != '0'
  {
    if h == 0 || h == 12 {
      TwelveText();
    }
  }

  lemma TwelveText()
    ensures NatText(12) == "12"
  {
    assert NatText(1) == "1";
  }

  /** Two-digit, zero-padded text of an hour. */
  function TwoDigits(n: nat): (t: string)
    requires n < 100
    ensures |t| == 2 && AllDigits(t)
  {
    [DigitChar(n / 10), DigitChar(n % 10)]
  }

  /** An inverse of the conversion: reads "H:MM AM" or "H:MM PM" back into "HH:MM". */
  function ToTwentyFour(r: string): Option<string>
  {
    if |r| < 7 then None
    else
      var n := |r|;
      var hourText := r[..n - 6];
      if r[n - 6] != ':' || r[n - 3] != ' ' || !AllDigits(hourText) then None
      else
        var h := DigitsValue(hourText);
        var mm, suffix := r[n - 5..n - 3], r[n - 2..];
        if !(1 <= h <= 12) then None
        else if suffix == "AM" then Some(TwoDigits(h % 12) + ":" + mm)
        else if suffix == "PM" then Some(TwoDigits(h % 12 + 12) + ":" + mm)
        else None
  }

  lemma DigitRoundTrip(ch: char)
    requires IsDigit(ch)
    ensures DigitChar(DigitValue(ch)) == ch
  {
  }

  /** How `ToTwentyFour` reads a string laid out as the conversion lays it out. */
  lemma ToTwentyFourOfLayout(ht: string, mm: string, suffix: string)
    requires |ht| >= 1 && AllDigits(ht) && |mm| == 2 && |suffix| == 2
    ensures var h := DigitsValue(ht);
            ToTwentyFour(ht + ":" + mm + " " + suffix) ==
              if !(1 <= h <= 12) then None
              else if suffix == "AM" then Some(TwoDigits(h % 12) + ":" + mm)
              else if suffix == "PM" then Some(TwoDigits(h % 12 + 12) + ":" + mm)
              else None
  {
    var r := ht + ":" + mm + " " + suffix;
    var n := |r|;
    assert r[..n - 6] == ht;
    assert r[n - 6] == ':' && r[n - 3] == ' ';
    assert r[n - 5..n - 3] == mm;
    assert r[n - 2..] == suffix;
  }

  /** The zero-padded text of the hour of a filled-in time is its hours text. */
  lemma TwoDigitsOfHour(s: string)
    requires ValidTime(s)
    ensures TwoDigits(HourOf(s)) == s[..2]
  {
    DigitRoundTrip(s[0]);
    DigitRoundTrip(s[1]);
  }

  lemma HourBack(h: nat)
    requires h <= 23
    ensures Meridiem(h) == (if h < 12 then "AM" else "PM")
    ensures 1 <= Hour12(h) <= 12
    ensures (if h < 12 then Hour12(h) % 12 else Hour12(h) % 12 + 12) == h
  {
  }

  /** Reading back the 12-hour layout of a filled-in time gives the time. */
  lemma ReadBackLayout(s: string, r: string)
    requires ValidTime(s)
    requires r == NatText(Hour12(HourOf(s))) + ":" + s[3..] + " " + Meridiem(HourOf(s))
    ensures ToTwentyFour(r) == Some(s)
  {
    var h, mm := HourOf(s), s[3..];
    var h12 := Hour12(h);
    var ht := NatText(h12);
    ToTwentyFourOfLayout(ht, mm, Meridiem(h));
    DigitsValueOfNatText(h12);
    assert DigitsValue(ht) == h12;
    HourBack(h);
    TwoDigitsOfHour(s);
    assert s == s[..2] + ":" + mm;
    if h < 12 {
      assert ToTwentyFour(r) == Some(TwoDigits(h12 % 12) + ":" + mm);
      assert h12 % 12 == h;
    } else {
      assert ToTwentyFour(r) == Some(TwoDigits(h12 % 12 + 12) + ":" + mm);
      assert h12 % 12 + 12 == h;
    }
  }

  /** The conversion loses nothing: a filled-in time can be read back from its sheet form. */
  lemma FormatTimeRoundTrip(s: string)
    requires ValidTime(s)
    ensures ToTwentyFour(FormatTime(s)) == Some(s)
  {
    FormatValidTimeShape(s);
    ReadBackLayout(s, FormatTime(s));
  }

  lemma FormatMidnight()
    ensures FormatTime("00:00") == "12:00 AM"
  {
    assert ValidTime("00:00") && HourOf("00:00") == 0;
    FormatValidTime("00:00");
  }

  lemma FormatNoon()
    ensures FormatTime("12:00") == "12:00 PM"
  {
    assert ValidTime("12:00") && HourOf("12:00") == 12;
    FormatValidTime("12:00");
  }

  lemma FormatAfternoon()
    ensures FormatTime("13:30") == "1:30 PM"
  {
    assert ValidTime("13:30") && HourOf("13:30") == 13;
    FormatValidTime("13:30");
    assert NatText(1) == "1";
  }
}
