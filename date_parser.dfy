/**
  * The date-range grammar of the command line: `YYYY-MM-DD - YYYY-MM-DD`, `YYYY-MM` or
  * `YYYY-MM-DD`, and the two ranges computed from the current time, which is a
  * parameter here.
  */
module DateParser {
  import opened Wrappers
  import opened Text
  import opened Calendar

  datatype DateRange = DateRange(start: Date, end: Date)

  const InvalidFormat: string := "Invalid date format. Use 'YYYY-MM-DD', 'YYYY-MM', or 'YYYY-MM-DD - YYYY-MM-DD'"
  const InvalidDate: string := "time data does not match format '%Y-%m-%d'"
  const InvalidMonth: string := "invalid year or month"

  /** The first and last day of a month, when `datetime(year, month, 1)` accepts them. */
  function MonthRange(year: int, month: int): (r: Result<DateRange>)
    ensures r.Ok? <==> 1 <= year <= 9999 && 1 <= month <= 12
    ensures r.Ok? ==> (r.value == DateRange(Date(year, month, 1), Date(year, month, DaysInMonth(year, month)))
      && ValidDate(r.value.start) && ValidDate(r.value.end))
  {
    if 1 <= year <= 9999 && 1 <= month <= 12 then
      Ok(DateRange(Date(year, month, 1), Date(year, month, DaysInMonth(year, month))))
    else Err(InvalidMonth)
  }

  /** `parse_date_range`: the stripped input is classified by shape, in this order. */
  function ParseDateRange(input: string): (r: Result<DateRange>)
    ensures r.Ok? ==> ValidDate(r.value.start) && ValidDate(r.value.end)
  {
    var t := Strip(input);
    if Contains(t, " - ") then
      var parts := SplitOnce(t, " - ");
      match (Strptime(Strip(parts[0])), Strptime(Strip(parts[1])))
      case (Some(a), Some(b)) => Ok(DateRange(a, b))
      case _ => Err(InvalidDate)
    else if |t| == 7 && CountChar(t, '-') == 1 then
      var parts := Split(t, "-");
      if |parts| != 2 then Err(InvalidFormat)
      else
        match (ParseInt(parts[0]), ParseInt(parts[1]))
        case (Some(y), Some(m)) => MonthRange(y, m)
        case _ => Err(InvalidMonth)
    else if |t| == 10 && CountChar(t, '-') == 2 then
      match Strptime(t)
      case Some(d) => Ok(DateRange(d, d))
      case None => Err(InvalidDate)
    else Err(InvalidFormat)
  }

  /** Surrounding whitespace never matters: the input is stripped before it is classified. */
  lemma StrippedFirst(input: string)
    ensures ParseDateRange(input) == ParseDateRange(Strip(input))
  {
    assert Strip(Strip(input)) == Strip(input);
  }

  /** No shape but the three is read: anything else is an invalid format. */
  lemma OtherShapesRejected(input: string)
    requires !Contains(Strip(input), " - ")
    requires !(|Strip(input)| == 7 && CountChar(Strip(input), '-') == 1)
    requires !(|Strip(input)| == 10 && CountChar(Strip(input), '-') == 2)
    ensures ParseDateRange(input) == Err(InvalidFormat)
  {
  }

  /** A single day reads as a range of that one day. */
  lemma SingleDayRoundTrip(d: Date)
    requires ValidDate(d)
    ensures ParseDateRange(Format(d)) == Ok(DateRange(d, d))
  {
    FormatShape(d);
    ShapeFacts(Format(d), [4, 7]);
    FormatDashCount(d);
    StrptimeOfFormat(d);
  }

  /** An explicit range reads back as its two dates; start after end is not rejected. */
  lemma RangeRoundTrip(a: Date, b: Date)
    requires ValidDate(a) && ValidDate(b)
    ensures ParseDateRange(Format(a) + " - " + Format(b)) == Ok(DateRange(a, b))
  {
    var fa := Format(a);
    var fb := Format(b);
    FormatShape(a);
    FormatShape(b);
    ShapeFacts(fa, [4, 7]);
    ShapeFacts(fb, [4, 7]);
    RangeSplits(fa, fb);
    StrptimeOfFormat(a);
    StrptimeOfFormat(b);
  }

  /** The joined range is already stripped and splits back into the two dates. */
  lemma RangeSplits(fa: string, fb: string)
    requires |fa| == 10 && |fb| == 10 && NoBlank(fa) && Strip(fa) == fa && Strip(fb) == fb
    ensures var s := fa + " - " + fb;
      Strip(s) == s && Contains(s, " - ") && SplitOnce(s, " - ") == [fa, fb]
  {
    var s := fa + " - " + fb;
    assert s[0] == fa[0] && s[|s| - 1] == fb[9];
    assert Strip(s) == s;
    SplitAtFirstSeparator(fa, fb);
  }

  /** `"{year:04}-{month:02}"`, the month form. */
  function MonthText(year: int, month: int): (s: string)
    requires 1 <= year <= 9999 && 1 <= month <= 12
    ensures |s| == 7
  {
    Pad4(year) + "-" + Pad2(month)
  }

  /** A month reads as its first to its last day, February of a leap year included. */
  lemma MonthRoundTrip(year: int, month: int)
    requires 1 <= year <= 9999 && 1 <= month <= 12
    ensures ParseDateRange(MonthText(year, month)) == MonthRange(year, month)
    ensures ParseDateRange(MonthText(year, month)).value.end.day == DaysInMonth(year, month)
  {
    var s := MonthText(year, month);
    var y := Pad4(year);
    var m := Pad2(month);
    MonthShape(year, month);
    ShapeFacts(s, [4]);
    MonthDashCount(year, month);
    MonthSplits(y, m);
    FourDigitValue(year);
    TwoDigitValue(month);
  }

  lemma MonthSplits(y: string, m: string)
    requires |y| == 4 && AllDigits(y) && AllDigits(m)
    ensures Split(y + "-" + m, "-") == [y, m]
  {
    var s := y + "-" + m;
    assert "-" <= s[4..];
    forall j | 0 <= j < 4 ensures !("-" <= s[j..]) { assert s[j..][0] == y[j]; }
    assert Find(s, "-") == Some(4);
    assert s[..4] == y && s[5..] == m;
    NoDashNotContained(m);
    assert Split(m, "-") == [m];
  }

  /** No character of `s` is a blank. */
  predicate NoBlank(s: string) {
    forall i :: 0 <= i < |s| ==> s[i] != ' '
  }

  /** Digits everywhere except at the positions in `dashes`, which hold `-`. */
  predicate DigitsAndDashes(s: string, dashes: seq<nat>) {
    (forall i :: 0 <= i < |s| && i !in dashes ==> IsDigit(s[i]))
    && (forall i :: i in dashes ==> i < |s| && s[i] == '-')
  }

  /** What such a string is: stripped, blank-free and not a range. */
  lemma ShapeFacts(s: string, dashes: seq<nat>)
    requires |s| >= 2 && DigitsAndDashes(s, dashes) && 0 !in dashes && |s| - 1 !in dashes
    ensures Strip(s) == s && NoBlank(s) && !Contains(s, " - ")
  {
    assert IsDigit(s[0]) && IsDigit(s[|s| - 1]);
    forall i | 0 <= i <= |s| ensures !(" - " <= s[i..]) {
      if i < |s| { assert s[i..][0] == s[i]; }
    }
  }

  /** A run of digits has no `-` in it. */
  lemma NoDashIn(s: string)
    requires AllDigits(s)
    ensures CountChar(s, '-') == 0
  {
    assert forall i :: 0 <= i < |s| ==> s[i] != '-';
  }

  lemma FormatDashCount(d: Date)
    requires ValidDate(d)
    ensures CountChar(Format(d), '-') == 2
  {
    var y := Pad4(d.year);
    var m := Pad2(d.month);
    var dd := Pad2(d.day);
    assert Format(d) == y + "-" + m + "-" + dd;
    assert multiset(Format(d)) == multiset(y) + multiset{'-'} + multiset(m) + multiset{'-'} + multiset(dd);
    NoDashIn(y);
    NoDashIn(m);
    NoDashIn(dd);
  }

  lemma MonthDashCount(year: int, month: int)
    requires 1 <= year <= 9999 && 1 <= month <= 12
    ensures CountChar(MonthText(year, month), '-') == 1
  {
    var y := Pad4(year);
    var m := Pad2(month);
    assert multiset(MonthText(year, month)) == multiset(y) + multiset{'-'} + multiset(m);
    NoDashIn(y);
    NoDashIn(m);
  }

  lemma NoDashNotContained(s: string)
    requires AllDigits(s)
    ensures !Contains(s, "-")
  {
    forall i | 0 <= i <= |s| ensures !("-" <= s[i..]) {
      if i < |s| { assert s[i..][0] == s[i]; }
    }
  }

  /** `int()` of a run of digits is its value. */
  lemma ParseIntOfDigits(s: string)
    requires s != [] && AllDigits(s)
    ensures ParseInt(s) == Some(DigitsValue(s))
  {
    assert IsDigit(s[0]) && IsDigit(s[|s| - 1]);
    assert Strip(s) == s;
  }

  lemma FourDigitValue(year: int)
    requires 0 <= year < 10000
    ensures ParseInt(Pad4(year)) == Some(year)
  {
    var s := Pad4(year);
    ParseIntOfDigits(s);
    assert s[..3][..2] == s[..2] && s[..2][..1] == s[..1] && s[..1][..0] == [];
    assert DigitsValue(s[..1]) == Digit(s[0]);
    assert DigitsValue(s[..2]) == 10 * Digit(s[0]) + Digit(s[1]);
    assert DigitsValue(s[..3]) == 100 * Digit(s[0]) + 10 * Digit(s[1]) + Digit(s[2]);
  }

  lemma TwoDigitValue(month: int)
    requires 0 <= month < 100
    ensures ParseInt(Pad2(month)) == Some(month)
  {
    var s := Pad2(month);
    ParseIntOfDigits(s);
    assert s[..1][..0] == [];
    assert DigitsValue(s[..1]) == Digit(s[0]);
  }

  /** The ISO form of a date: digits with dashes at positions 4 and 7. */
  lemma FormatShape(d: Date)
    requires ValidDate(d)
    ensures |Format(d)| == 10 && DigitsAndDashes(Format(d), [4, 7])
  {
    var s := Format(d);
    var y := Pad4(d.year);
    var m := Pad2(d.month);
    var dd := Pad2(d.day);
    assert s == y + "-" + m + "-" + dd;
    assert forall i :: 0 <= i < 4 ==> s[i] == y[i];
    assert forall i :: 5 <= i < 7 ==> s[i] == m[i - 5];
    assert forall i :: 8 <= i < 10 ==> s[i] == dd[i - 8];
  }

  /** The month form: digits with a dash at position 4. */
  lemma MonthShape(year: int, month: int)
    requires 1 <= year <= 9999 && 1 <= month <= 12
    ensures DigitsAndDashes(MonthText(year, month), [4])
  {
    var s := MonthText(year, month);
    var y := Pad4(year);
    var m := Pad2(month);
    assert forall i :: 0 <= i < 4 ==> s[i] == y[i];
    assert forall i :: 5 <= i < 7 ==> s[i] == m[i - 5];
  }

  /** Two ISO dates joined by `" - "` split back at that separator. */
  lemma SplitAtFirstSeparator(fa: string, fb: string)
    requires |fa| == 10 && NoBlank(fa)
    ensures Find(fa + " - " + fb, " - ") == Some(10)
    ensures SplitOnce(fa + " - " + fb, " - ") == [fa, fb]
  {
    var s := fa + " - " + fb;
    assert " - " <= s[10..];
    forall j | 0 <= j < 10 ensures !(" - " <= s[j..]) { assert s[j..][0] == fa[j]; }
    assert s[..10] == fa && s[13..] == fb;
  }

  /** `parse_days_back(days)`: from `days` days before `now` to `now` (times in seconds). */
  function DaysBack(now: int, days: int): (r: (int, int))
    ensures r.1 == now && r.1 - r.0 == days * 86400
  {
    (now - days * 86400, now)
  }

  /** The range is in order exactly when `days` is not negative. */
  lemma DaysBackOrdered(now: int, days: int)
    ensures DaysBack(now, days).0 <= DaysBack(now, days).1 <==> days >= 0
  {
  }

  /** `get_current_month()` with the current date as a parameter. */
  function CurrentMonth(today: Date): (r: DateRange)
    requires ValidDate(today)
    ensures r.start == Date(today.year, today.month, 1)
    ensures r.end == Date(today.year, today.month, DaysInMonth(today.year, today.month))
    ensures r.start.day <= today.day <= r.end.day
  {
    MonthRange(today.year, today.month).value
  }

  /** The current month is the range the month form of today's month reads as. */
  lemma CurrentMonthIsItsMonthForm(today: Date)
    requires ValidDate(today)
    ensures ParseDateRange(MonthText(today.year, today.month)) == Ok(CurrentMonth(today))
  {
    MonthRoundTrip(today.year, today.month);
  }
}
