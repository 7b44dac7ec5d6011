/**
  * Gregorian dates: leap years and month lengths as `calendar.monthrange` gives them,
  * the strict `YYYY-MM-DD` form that `date.fromisoformat` reads, and the
  * `datetime.strptime(s, "%Y-%m-%d")` parser with the alternations it compiles the
  * directives to.
  */
module Calendar {
  import opened Wrappers
  import opened Text

  datatype Date = Date(year: int, month: int, day: int)

  predicate IsLeap(y: int) {
    y % 4 == 0 && (y % 100 != 0 || y % 400 == 0)
  }

  /** The second component of `calendar.monthrange(y, m)`. */
  function DaysInMonth(y: int, m: int): (n: int)
    requires 1 <= m <= 12
    ensures 28 <= n <= 31
  {
    if m == 2 then (if IsLeap(y) then 29 else 28)
    else if m == 4 || m == 6 || m == 9 || m == 11 then 30
    else 31
  }

  /** What `datetime(year, month, day)` accepts without raising `ValueError`. */
  predicate ValidDate(d: Date) {
    1 <= d.year <= 9999 && 1 <= d.month <= 12 && 1 <= d.day <= DaysInMonth(d.year, d.month)
  }

  /** February has 29 days exactly in leap years. */
  lemma FebruaryLength(y: int)
    ensures DaysInMonth(y, 2) == 29 <==> IsLeap(y)
    ensures ValidDate(Date(y, 2, 29)) <==> 1 <= y <= 9999 && IsLeap(y)
  {
  }

  function Digit(c: char): int { c as int - '0' as int }

  function Pad2(n: int): (s: string)
    requires 0 <= n < 100
    ensures |s| == 2 && AllDigits(s) && 10 * Digit(s[0]) + Digit(s[1]) == n
  {
    [DigitChar(n / 10), DigitChar(n % 10)]
  }

  function Pad4(n: int): (s: string)
    requires 0 <= n < 10000
    ensures |s| == 4 && AllDigits(s)
    ensures 1000 * Digit(s[0]) + 100 * Digit(s[1]) + 10 * Digit(s[2]) + Digit(s[3]) == n
  {
    var tens := n / 10;
    var hundreds := tens / 10;
    [DigitChar(hundreds / 10), DigitChar(hundreds % 10), DigitChar(tens % 10), DigitChar(n % 10)]
  }

  /** `date.isoformat()`: four-digit year, two-digit month and day. */
  function Format(d: Date): (s: string)
    requires ValidDate(d)
    ensures |s| == 10
  {
    Pad4(d.year) + "-" + Pad2(d.month) + "-" + Pad2(d.day)
  }

  /** `date.fromisoformat(s)` on the extended calendar form `YYYY-MM-DD`. */
  function IsoDate(s: string): (r: Option<Date>)
    ensures r.Some? ==> ValidDate(r.value)
  {
    if |s| == 10 && s[4] == '-' && s[7] == '-' && AllDigits(s[..4]) && AllDigits(s[5..7])
      && AllDigits(s[8..])
    then
      assert IsDigit(s[..4][0]) && IsDigit(s[..4][1]) && IsDigit(s[..4][2]) && IsDigit(s[..4][3]);
      assert IsDigit(s[5..7][0]) && IsDigit(s[5..7][1]) && IsDigit(s[8..][0]) && IsDigit(s[8..][1]);
      var d := Date(1000 * Digit(s[0]) + 100 * Digit(s[1]) + 10 * Digit(s[2]) + Digit(s[3]),
                    10 * Digit(s[5]) + Digit(s[6]), 10 * Digit(s[8]) + Digit(s[9]));
      if ValidDate(d) then Some(d) else None
    else None
  }

  /** A valid date read back from its ISO form is the same date. */
  lemma IsoDateOfFormat(d: Date)
    requires ValidDate(d)
    ensures IsoDate(Format(d)) == Some(d)
  {
    var s := Format(d);
    assert s[..4] == Pad4(d.year) && s[5..7] == Pad2(d.month) && s[8..] == Pad2(d.day);
  }

  /** The ISO form of a date is the only string `IsoDate` reads as that date. */
  lemma FormatOfIsoDate(s: string)
    requires IsoDate(s).Some?
    ensures Format(IsoDate(s).value) == s
  {
    var d := IsoDate(s).value;
    var f := Format(d);
    assert IsDigit(s[..4][0]) && IsDigit(s[..4][1]) && IsDigit(s[..4][2]) && IsDigit(s[..4][3]);
    assert IsDigit(s[5..7][0]) && IsDigit(s[5..7][1]) && IsDigit(s[8..][0]) && IsDigit(s[8..][1]);
    assert f[..4] == Pad4(d.year) && f[5..7] == Pad2(d.month) && f[8..] == Pad2(d.day);
    forall k | 0 <= k < 10 ensures f[k] == s[k] {
      DigitsOfValue(s, f, k);
    }
  }

  lemma TwoDigitsUnique(a: int, b: int, c: int, d: int)
    requires 0 <= a <= 9 && 0 <= b <= 9 && 0 <= c <= 9 && 0 <= d <= 9
    requires 10 * a + b == 10 * c + d
    ensures a == c && b == d
  {
  }

  lemma FourDigitsUnique(a: int, b: int, c: int, d: int, e: int, f: int, g: int, h: int)
    requires 0 <= a <= 9 && 0 <= b <= 9 && 0 <= c <= 9 && 0 <= d <= 9
    requires 0 <= e <= 9 && 0 <= f <= 9 && 0 <= g <= 9 && 0 <= h <= 9
    requires 1000 * a + 100 * b + 10 * c + d == 1000 * e + 100 * f + 10 * g + h
    ensures a == e && b == f && c == g && d == h
  {
    TwoDigitsUnique(c, d, g, h);
    TwoDigitsUnique(a, b, e, f);
  }

  lemma DigitsOfValue(s: string, f: string, k: nat)
    requires |s| == 10 && |f| == 10 && k < 10
    requires forall i :: 0 <= i < 10 && i != 4 && i != 7 ==> IsDigit(s[i]) && IsDigit(f[i])
    requires s[4] == f[4] == '-' && s[7] == f[7] == '-'
    requires 1000 * Digit(s[0]) + 100 * Digit(s[1]) + 10 * Digit(s[2]) + Digit(s[3])
          == 1000 * Digit(f[0]) + 100 * Digit(f[1]) + 10 * Digit(f[2]) + Digit(f[3])
    requires 10 * Digit(s[5]) + Digit(s[6]) == 10 * Digit(f[5]) + Digit(f[6])
    requires 10 * Digit(s[8]) + Digit(s[9]) == 10 * Digit(f[8]) + Digit(f[9])
    ensures f[k] == s[k]
  {
    assert IsDigit(s[0]) && IsDigit(s[1]) && IsDigit(s[2]) && IsDigit(s[3]);
    assert IsDigit(f[0]) && IsDigit(f[1]) && IsDigit(f[2]) && IsDigit(f[3]);
    assert IsDigit(s[5]) && IsDigit(s[6]) && IsDigit(s[8]) && IsDigit(s[9]);
    assert IsDigit(f[5]) && IsDigit(f[6]) && IsDigit(f[8]) && IsDigit(f[9]);
    FourDigitsUnique(Digit(s[0]), Digit(s[1]), Digit(s[2]), Digit(s[3]),
                     Digit(f[0]), Digit(f[1]), Digit(f[2]), Digit(f[3]));
    TwoDigitsUnique(Digit(s[5]), Digit(s[6]), Digit(f[5]), Digit(f[6]));
    TwoDigitsUnique(Digit(s[8]), Digit(s[9]), Digit(f[8]), Digit(f[9]));
  }

  /** The `%m` directive, `1[0-2]|0[1-9]|[1-9]`: value and length of the alternative that matches first. */
  function MonthDirective(t: string): (r: Option<(int, nat)>)
    ensures r.Some? ==> 1 <= r.value.0 <= 12 && 1 <= r.value.1 <= 2 && r.value.1 <= |t|
  {
    if |t| >= 2 && t[0] == '1' && '0' <= t[1] <= '2' then Some((10 + Digit(t[1]), 2))
    else if |t| >= 2 && t[0] == '0' && '1' <= t[1] <= '9' then Some((Digit(t[1]), 2))
    else if |t| >= 1 && '1' <= t[0] <= '9' then Some((Digit(t[0]), 1))
    else None
  }

  /** The `%d` directive, `3[01]|[12]\d|0[1-9]|[1-9]| [1-9]`: value and length of the first alternative that matches. */
  function DayDirective(t: string): (r: Option<(int, nat)>)
    ensures r.Some? ==> 1 <= r.value.0 <= 31 && 1 <= r.value.1 <= 2 && r.value.1 <= |t|
  {
    if |t| >= 2 && t[0] == '3' && '0' <= t[1] <= '1' then Some((30 + Digit(t[1]), 2))
    else if |t| >= 2 && '1' <= t[0] <= '2' && IsDigit(t[1]) then Some((10 * Digit(t[0]) + Digit(t[1]), 2))
    else if |t| >= 2 && t[0] == '0' && '1' <= t[1] <= '9' then Some((Digit(t[1]), 2))
    else if |t| >= 1 && '1' <= t[0] <= '9' then Some((Digit(t[0]), 1))
    else if |t| >= 2 && t[0] == ' ' && '1' <= t[1] <= '9' then Some((Digit(t[1]), 2))
    else None
  }

  /**
    * `datetime.strptime(s, "%Y-%m-%d")`: the compiled pattern must match at the start,
    * leave no unconverted data, and denote a valid date; otherwise `ValueError` (`None`).
    */
  function Strptime(s: string): (r: Option<Date>)
    ensures r.Some? ==> ValidDate(r.value)
  {
    if |s| < 5 || !AllDigits(s[..4]) || s[4] != '-' then None
    else
      var y := 1000 * Digit(s[0]) + 100 * Digit(s[1]) + 10 * Digit(s[2]) + Digit(s[3]);
      match MonthDirective(s[5..])
      case None => None
      case Some((m, ml)) =>
        var i := 5 + ml;
        if i >= |s| || s[i] != '-' then None
        else
          match DayDirective(s[i + 1..])
          case None => None
          case Some((d, dl)) =>
            if i + 1 + dl != |s| then None
            else if ValidDate(Date(y, m, d)) then Some(Date(y, m, d))
            else None
  }

  /** `strptime` reads the ISO form of every valid date back as that date. */
  lemma StrptimeOfFormat(d: Date)
    requires ValidDate(d)
    ensures Strptime(Format(d)) == Some(d)
  {
    var s := Format(d);
    assert s[..4] == Pad4(d.year);
    assert s[5..] == Pad2(d.month) + "-" + Pad2(d.day);
    assert s[8..] == Pad2(d.day);
    assert MonthDirective(s[5..]) == Some((d.month, 2));
    assert s[7] == '-';
    assert DayDirective(s[8..]) == Some((d.day, 2));
  }

  /** Every string `fromisoformat` accepts, `strptime` accepts as the same date. */
  lemma StrptimeAgreesWithIsoDate(s: string)
    requires IsoDate(s).Some?
    ensures Strptime(s) == IsoDate(s)
  {
    FormatOfIsoDate(s);
    StrptimeOfFormat(IsoDate(s).value);
  }

  /** `strptime` is more lenient: single-digit months and days are accepted. */
  lemma StrptimeAcceptsShortForm()
    ensures Strptime("2025-9-1") == Some(Date(2025, 9, 1))
    ensures IsoDate("2025-9-1") == None
  {
    var s := "2025-9-1";
    assert s[..4] == "2025" && s[5..] == "9-1" && s[7..] == "1";
  }
}
