/** The date picker's conversion from a picked calendar date to the `YYYY-MM-DD`
    text the rest of the application stores: the calendar date, complete
    representation, extended format of ISO 8601:2004 section 4.1.2.2. */
module CustomDatePicker {
  import opened Wrappers
  import opened JsStrings

  /** What `formatDate` reads from a picked `Date`: `getFullYear()`, the zero-based
      `getMonth()` and `getDate()`, all in local time. */
  datatype PickedDate = PickedDate(year: int, monthIndex: int, day: int)

  /** `String(n).padStart(2, "0")`. */
  function TwoDigits(n: int): string {
    PadStart(IntString(n), 2, '0')
  }

  /** A number below one hundred renders as exactly two digits that read back as the number. */
  lemma TwoDigitsExact(n: int)
    requires 0 <= n < 100
    ensures |TwoDigits(n)| == 2
    ensures AllDigits(TwoDigits(n))
    ensures DecimalValue(TwoDigits(n)) == n
  {
    var digits := NatString(n);
    if n < 10 {
      NatStringLength(n, 1);
    } else {
      NatStringLength(n, 2);
    }
    NatStringRoundTrip(n);
    LeadingZerosValue(2 - |digits|, digits);
    if |digits| < 2 {
      assert TwoDigits(n) == Repeat('0', 2 - |digits|) + digits;
    } else {
      assert TwoDigits(n) == Repeat('0', 0) + digits;
    }
  }

  /** `formatDate`: `null` for a cleared picker, otherwise year, month number
      (index plus one) and day, joined by hyphens, month and day zero-padded to two. */
  function FormatDate(date: Option<PickedDate>): (r: Option<string>)
    ensures r.None? <==> date.None?
  {
    match date
    case None => None
    case Some(d) => Some(IntString(d.year) + "-" + TwoDigits(d.monthIndex + 1) + "-" + TwoDigits(d.day))
  }

  /** The three groups of a hyphen-joined date text are where they should be. */
  lemma SplitGroups(y: string, m: string, d: string)
    requires |y| == 4 && |m| == 2 && |d| == 2
    ensures var s := y + "-" + m + "-" + d;
      && |s| == 10 && s[4] == '-' && s[7] == '-'
      && s[..4] == y && s[5..7] == m && s[8..] == d
  {
    var s := y + "-" + m + "-" + d;
    assert s[..4] == y;
    assert s[5..7] == m;
    assert s[8..] == d;
  }

  /** For a four-digit year and a real month and day, the text is the ten-character
      `YYYY-MM-DD` form, and its three digit groups read back as year, month number and day. */
  lemma FormatDateIsIsoCalendarDate(year: int, monthIndex: int, day: int)
    requires 1000 <= year <= 9999 && 0 <= monthIndex <= 11 && 1 <= day <= 31
    ensures var s := FormatDate(Some(PickedDate(year, monthIndex, day))).value;
      && |s| == 10 && s[4] == '-' && s[7] == '-'
      && AllDigits(s[..4]) && AllDigits(s[5..7]) && AllDigits(s[8..])
      && DecimalValue(s[..4]) == year
      && DecimalValue(s[5..7]) == monthIndex + 1
      && DecimalValue(s[8..]) == day
  {
    var y := IntString(year);
    var m := TwoDigits(monthIndex + 1);
    var d := TwoDigits(day);
    assert Pow10(3) == 1000 && Pow10(4) == 10000;
    NatStringLength(year, 4);
    NatStringRoundTrip(year);
    TwoDigitsExact(monthIndex + 1);
    TwoDigitsExact(day);
    SplitGroups(y, m, d);
    var s := FormatDate(Some(PickedDate(year, monthIndex, day))).value;
    assert s == y + "-" + m + "-" + d;
    assert s[..4] == y;
  }

  /** Two real dates with four-digit years never share a text: the key derived
      from a picked date identifies the date. */
  lemma FormatDateInjective(a: PickedDate, b: PickedDate)
    requires 1000 <= a.year <= 9999 && 0 <= a.monthIndex <= 11 && 1 <= a.day <= 31
    requires 1000 <= b.year <= 9999 && 0 <= b.monthIndex <= 11 && 1 <= b.day <= 31
    requires FormatDate(Some(a)) == FormatDate(Some(b))
    ensures a == b
  {
    var s := FormatDate(Some(a)).value;
    FormatDateIsIsoCalendarDate(a.year, a.monthIndex, a.day);
    FormatDateIsIsoCalendarDate(b.year, b.monthIndex, b.day);
    assert a.year == DecimalValue(s[..4]) == b.year;
    assert a.monthIndex + 1 == DecimalValue(s[5..7]) == b.monthIndex + 1;
    assert a.day == DecimalValue(s[8..]) == b.day;
  }

  /** `handleChange`: what the picker forwards to its `onChange` for a picked value. */
  method HandleChange(picked: Option<PickedDate>) returns (forwarded: Option<string>)
    ensures forwarded == FormatDate(picked)
    ensures picked.None? ==> forwarded.None?
  {
    forwarded := FormatDate(picked);
  }
}
