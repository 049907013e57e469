/** The two things the booking screen does with the value of a date input: compare an
    arrival with a return, and hand a date to the spreadsheet. */
module BookingDate {
  import opened Wrappers
  import opened Decimal

  /** A calendar day, compared by year, then month, then day. */
  datatype Day = Day(year: nat, month: nat, day: nat)

  predicate Earlier(a: Day, b: Day)
  {
    a.year < b.year ||
    (a.year == b.year && (a.month < b.month || (a.month == b.month && a.day < b.day)))
  }

  /** The day that "YYYY-MM-DD" (what a filled-in `<input type="date">` holds) names;
      `None` for anything else, which `new Date` turns into `Invalid Date`. */
  function ParseIsoDate(s: string): (d: Option<Day>)
    ensures d.Some? ==> |s| == 10 && s[4] == '-' && s[7] == '-'
    ensures d.Some? ==> 1 <= d.value.month <= 12 && 1 <= d.value.day <= 31
  {
    if |s| == 10 && s[4] == '-' && s[7] == '-' &&
       AllDigits(s[..4]) && AllDigits(s[5..7]) && AllDigits(s[8..])
    then
      var y, m, dd := DigitsValue(s[..4]), DigitsValue(s[5..7]), DigitsValue(s[8..]);
      if 1 <= m <= 12 && 1 <= dd <= 31 then Some(Day(y, m, dd)) else None
    else None
  }

  /** `new Date(arrivalDate) > new Date(returnDate)`: true only when both are dates and the
      return day comes first; every comparison with `Invalid Date` is false. */
  function ArrivalAfterReturn(arrival: string, ret: string): (later: bool)
    ensures later ==> ParseIsoDate(arrival).Some? && ParseIsoDate(ret).Some?
    ensures arrival == ret ==> !later
    ensures ParseIsoDate(arrival).None? || ParseIsoDate(ret).None? ==> !later
  {
    match (ParseIsoDate(arrival), ParseIsoDate(ret))
    case (Some(a), Some(r)) => Earlier(r, a)
    case _ => false
  }

  /** Of two different days, exactly one comes after the other; the same day, or a pair
      in which either date does not parse, passes in both directions. */
  lemma ArrivalAfterReturnOrder(a: string, b: string)
    ensures !(ArrivalAfterReturn(a, b) && ArrivalAfterReturn(b, a))
    ensures ParseIsoDate(a).Some? && ParseIsoDate(b).Some? && ParseIsoDate(a) != ParseIsoDate(b) ==>
              ArrivalAfterReturn(a, b) || ArrivalAfterReturn(b, a)
  {
  }

  /** How a "YYYY-MM-DD" string is read, once its three digit groups are given. */
  lemma ParseIsoLayout(y: string, m: string, d: string)
    requires |y| == 4 && |m| == 2 && |d| == 2 && AllDigits(y) && AllDigits(m) && AllDigits(d)
    ensures var mv, dv := DigitsValue(m), DigitsValue(d);
            ParseIsoDate(y + "-" + m + "-" + d) ==
              if 1 <= mv <= 12 && 1 <= dv <= 31 then Some(Day(DigitsValue(y), mv, dv)) else None
  {
    var s := y + "-" + m + "-" + d;
    assert s[..4] == y;
    assert s[5..7] == m;
    assert s[8..] == d;
  }

  /** A date string as its three digit groups and the two dashes between them. */
  lemma IsoPieces(s: string)
    requires ParseIsoDate(s).Some?
    ensures s == s[..4] + ("-" + (s[5..7] + ("-" + s[8..])))
  {
  }

  /** An arrival five days after the return is refused. */
  lemma ReturnBeforeArrivalExample()
    ensures ArrivalAfterReturn("2025-06-10", "2025-06-05")
    ensures !ArrivalAfterReturn("2025-06-05", "2025-06-10")
  {
    FourDigitValue("2025");
    TwoDigitValue("06");
    TwoDigitValue("10");
    TwoDigitValue("05");
    assert "2025-06-10" == "2025" + "-" + "06" + "-" + "10";
    assert "2025-06-05" == "2025" + "-" + "06" + "-" + "05";
    ParseIsoLayout("2025", "06", "10");
    ParseIsoLayout("2025", "06", "05");
  }

  // ---- the same order, read off the strings ----

  /** `x < y` on two strings: code unit by code unit, a proper prefix first. */
  predicate StringBefore(x: string, y: string)
  {
    if x == [] then y != []
    else if y == [] then false
    else x[0] < y[0] || (x[0] == y[0] && StringBefore(x[1..], y[1..]))
  }

  /** Comparing two strings whose heads have the same length: the heads decide, unless they
      are equal. */
  lemma {:induction false} StringBeforeAppend(x: string, y: string, s: string, t: string)
    requires |x| == |y|
    ensures StringBefore(x + s, y + t) == (StringBefore(x, y) || (x == y && StringBefore(s, t)))
  {
    if x == [] {
      assert x + s == s && y + t == t;
    } else {
      assert (x + s)[0] == x[0] && (x + s)[1..] == x[1..] + s;
      assert (y + t)[0] == y[0] && (y + t)[1..] == y[1..] + t;
      StringBeforeAppend(x[1..], y[1..], s, t);
      assert x == y <==> x[0] == y[0] && x[1..] == y[1..];
    }
  }

  /** For digit strings of one length, string order is numeric order, and equal text is an
      equal value. */
  lemma {:induction false} DigitsOrder(x: string, y: string)
    requires |x| == |y| && AllDigits(x) && AllDigits(y)
    ensures StringBefore(x, y) <==> DigitsValue(x) < DigitsValue(y)
    ensures x == y <==> DigitsValue(x) == DigitsValue(y)
    decreases |x|
  {
    if x != [] {
      var n := |x|;
      var x0, y0 := x[..n - 1], y[..n - 1];
      var cx, cy := x[n - 1], y[n - 1];
      assert AllDigits(x0) && AllDigits(y0);
      DigitsOrder(x0, y0);
      assert x == x0 + [cx] && y == y0 + [cy];
      StringBeforeAppend(x0, y0, [cx], [cy]);
      assert StringBefore([cx], [cy]) <==> cx < cy by {
        assert [cx][1..] == [] && [cy][1..] == [];
      }
      assert x == y <==> x0 == y0 && cx == cy;
      var vx, vy := DigitsValue(x0), DigitsValue(y0);
      assert DigitsValue(x) == 10 * vx + DigitValue(cx);
      assert DigitsValue(y) == 10 * vy + DigitValue(cy);
    }
  }

  /** A reference for the date check: on two filled-in dates, `new Date(arrival) > new
      Date(ret)` holds exactly when the return date sorts before the arrival date as text. */
  lemma ArrivalAfterReturnIsStringOrder(arrival: string, ret: string)
    requires ParseIsoDate(arrival).Some? && ParseIsoDate(ret).Some?
    ensures ArrivalAfterReturn(arrival, ret) <==> StringBefore(ret, arrival)
  {
    var a, r := arrival, ret;
    IsoPieces(a);
    IsoPieces(r);
    DigitsOrder(r[..4], a[..4]);
    DigitsOrder(r[5..7], a[5..7]);
    DigitsOrder(r[8..], a[8..]);
    var ta := "-" + (a[5..7] + ("-" + a[8..]));
    var tr := "-" + (r[5..7] + ("-" + r[8..]));
    StringBeforeAppend(r[..4], a[..4], tr, ta);
    StringBeforeAppend("-", "-", r[5..7] + ("-" + r[8..]), a[5..7] + ("-" + a[8..]));
    StringBeforeAppend(r[5..7], a[5..7], "-" + r[8..], "-" + a[8..]);
    StringBeforeAppend("-", "-", r[8..], a[8..]);
    assert !StringBefore("-", "-") by { assert "-"[1..] == []; }
  }

  /** `formatDateForSheet(dateString)`: "" for an empty date; otherwise the day/month/year
      text the JavaScript runtime's en-GB locale renders for the date, which stands here as
      the date it renders. */
  datatype SheetDate = Blank | LocaleRendering(iso: string)

  function FormatDate(s: string): (d: SheetDate)
    ensures d == Blank <==> s == ""
    ensures d.LocaleRendering? ==> d.iso == s
  {
    if s == "" then Blank else LocaleRendering(s)
  }
}
