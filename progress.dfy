/**
  * The values returned by the command-line progress display: the verdicts of the
  * configuration and connectivity checks and the label of a time range.  What the
  * display prints is not modelled.
  */
module Progress {
  import opened Wrappers
  import opened Text
  import opened Dicts
  import opened Calendar
  import DateParser
  import AppConfig

  /** `validate_config(errors)`: true exactly when there is no error. */
  function ValidateConfig(errors: seq<string>): (ok: bool)
    ensures ok <==> |errors| == 0
  {
    if errors != [] then false else true
  }

  /** The verdict on a configuration is the one `validate` returns with its list. */
  lemma ValidateConfigAgrees(c: AppConfig.Config)
    requires AppConfig.Readable(c)
    ensures ValidateConfig(AppConfig.Validate(c).value.1) == AppConfig.Validate(c).value.0
  {
  }

  /** One service's connectivity result; `error` is absent on some successes. */
  datatype ApiResult = ApiResult(success: bool, error: Option<string>)

  /**
    * The messages for the failed services in `services`, in order, as
    * `"<service>: <error>"`; a failed result without an error raises `KeyError`.
    */
  function FailureMessages(results: map<string, ApiResult>, services: seq<string>): (r: Result<seq<string>>)
    requires forall s :: s in services ==> s in results
    ensures r.Ok? ==> |r.value| <= |services|
    decreases |services|
  {
    if services == [] then Ok([])
    else
      var last := services[|services| - 1];
      match FailureMessages(results, services[..|services| - 1])
      case Err(e) => Err(e)
      case Ok(ms) =>
        var res := results[last];
        if res.success then Ok(ms)
        else if res.error.None? then Err("KeyError: 'error'")
        else Ok(ms + [last + ": " + res.error.value])
  }

  /** No message is produced exactly when every listed service succeeded. */
  lemma {:induction false} NoMessagesIffAllSucceed(results: map<string, ApiResult>, services: seq<string>)
    requires forall s :: s in services ==> s in results
    requires FailureMessages(results, services).Ok?
    ensures FailureMessages(results, services).value == [] <==> forall s :: s in services ==> results[s].success
    decreases |services|
  {
    if services != [] {
      var init := services[..|services| - 1];
      assert forall s :: s in init ==> s in services;
      NoMessagesIffAllSucceed(results, init);
      assert forall s :: s in services ==> s in init || s == services[|services| - 1] by {
        forall s | s in services ensures s in init || s == services[|services| - 1] {
          var k :| 0 <= k < |services| && services[k] == s;
          if k < |services| - 1 { assert init[k] == s; }
        }
      }
    }
  }

  /** A failure that comes with an error never raises. */
  lemma {:induction false} ErrorsGivenNeverRaise(results: map<string, ApiResult>, services: seq<string>)
    requires forall s :: s in services ==> s in results
    requires forall s :: s in services && !results[s].success ==> results[s].error.Some?
    ensures FailureMessages(results, services).Ok?
    decreases |services|
  {
    if services != [] {
      var init := services[..|services| - 1];
      assert forall s :: s in init ==> s in services;
      ErrorsGivenNeverRaise(results, init);
    }
  }

  /** `validate_apis(api_results)`: true exactly when every service succeeded. */
  method ValidateApis(apiResults: Dict<string, ApiResult>) returns (r: Result<bool>)
    requires apiResults.Valid()
    ensures r == (match FailureMessages(apiResults.entries, apiResults.order)
                  case Err(e) => Err(e)
                  case Ok(ms) => Ok(ms == []))
  {
    var allGood := true;
    var errorMessages := [];
    var i := 0;
    while i < |apiResults.order|
      invariant 0 <= i <= |apiResults.order|
      invariant FailureMessages(apiResults.entries, apiResults.order[..i]) == Ok(errorMessages)
      invariant allGood <==> errorMessages == []
    {
      var service := apiResults.order[i];
      var result := apiResults.entries[service];
      assert apiResults.order[..i + 1][..i] == apiResults.order[..i];
      if !result.success {
        if result.error.None? {
          assert FailureMessages(apiResults.entries, apiResults.order[..i + 1]).Err?;
          FailureStops(apiResults.entries, apiResults.order, i + 1);
          return Err("KeyError: 'error'");
        }
        allGood := false;
        errorMessages := errorMessages + [service + ": " + result.error.value];
      }
      i := i + 1;
    }
    assert apiResults.order[..i] == apiResults.order;
    return Ok(allGood);
  }

  /** A raise over a prefix of the services is the raise of the whole run. */
  lemma {:induction false} FailureStops(results: map<string, ApiResult>, services: seq<string>, n: nat)
    requires forall s :: s in services ==> s in results
    requires n <= |services|
    requires forall s :: s in services[..n] ==> s in results
    requires FailureMessages(results, services[..n]).Err?
    ensures FailureMessages(results, services) == FailureMessages(results, services[..n])
    decreases |services| - n
  {
    if n < |services| {
      assert services[..n + 1][..n] == services[..n];
      FailureStops(results, services, n + 1);
    } else {
      assert services[..n] == services;
    }
  }

  /**
    * `format_time_range(from, to)`: the date when both are equal; `YYYY-MM` when both
    * split into three parts with equal year and month, the first day is `01` and the last
    * is at least 28; `<from>..<to>` otherwise.  A last day `int()` rejects raises.
    */
  function FormatTimeRange(from: string, to: string): (r: Result<string>)
    ensures from == to ==> r == Ok(from)
    ensures r.Err? <==> from != to && MonthShaped(from, to) && ParseInt(Split(to, "-")[2]).None?
    ensures r.Ok? && from != to && r.value != from + ".." + to ==>
      MonthShaped(from, to) && r.value == Split(from, "-")[0] + "-" + Split(from, "-")[1]
  {
    if from == to then Ok(from)
    else
      var fp := Split(from, "-");
      var tp := Split(to, "-");
      if MonthShaped(from, to) then
        match ParseInt(tp[2])
        case None => Err("ValueError: invalid literal for int()")
        case Some(last) => Ok(if last >= 28 then fp[0] + "-" + fp[1] else from + ".." + to)
      else Ok(from + ".." + to)
  }

  /**
    * Both dates split at `-` into three parts with the same year and month, and the first
    * day is `01`: the shape `format_time_range` checks before reading the last day.
    */
  predicate MonthShaped(from: string, to: string) {
    var fp := Split(from, "-");
    var tp := Split(to, "-");
    |fp| == 3 && |tp| == 3 && fp[0] == tp[0] && fp[1] == tp[1] && fp[2] == "01"
  }

  /** A month-shaped pair whose last day reads below 28 is shown as `<from>..<to>`. */
  lemma ShortMonthShowsBothEnds(from: string, to: string, n: int)
    requires from != to && MonthShaped(from, to)
    requires ParseInt(Split(to, "-")[2]) == Some(n) && n < 28
    ensures FormatTimeRange(from, to) == Ok(from + ".." + to)
  {
  }

  /** A month-shaped pair whose last day `int()` rejects raises `ValueError`. */
  lemma UnreadableLastDayRaises(from: string, to: string)
    requires from != to && MonthShaped(from, to)
    requires ParseInt(Split(to, "-")[2]).None?
    ensures FormatTimeRange(from, to).Err?
  {
  }

  /** Anything but a month-shaped pair of distinct dates is shown as `<from>..<to>`. */
  lemma OtherRangesShowBothEnds(from: string, to: string)
    requires from != to
    requires var fp := Split(from, "-");
             var tp := Split(to, "-");
             !(|fp| == 3 && |tp| == 3 && fp[0] == tp[0] && fp[1] == tp[1] && fp[2] == "01")
    ensures FormatTimeRange(from, to) == Ok(from + ".." + to)
  {
  }

  /** Digits followed by a dash split off as the first part. */
  lemma SplitAfterDigits(a: string, rest: string)
    requires a != [] && AllDigits(a)
    ensures Split(a + "-" + rest, "-") == [a] + Split(rest, "-")
  {
    var s := a + "-" + rest;
    assert "-" <= s[|a|..];
    forall j | 0 <= j < |a| ensures !("-" <= s[j..]) { assert s[j..][0] == a[j]; }
    assert Find(s, "-") == Some(|a|);
    assert s[..|a|] == a && s[|a| + 1..] == rest;
  }

  /** The ISO form of a date splits into its year, month and day. */
  lemma FormatSplits(d: Date)
    requires ValidDate(d)
    ensures Split(Format(d), "-") == [Pad4(d.year), Pad2(d.month), Pad2(d.day)]
  {
    var y := Pad4(d.year);
    var m := Pad2(d.month);
    var dd := Pad2(d.day);
    assert Format(d) == y + "-" + (m + "-" + dd);
    SplitAfterDigits(y, m + "-" + dd);
    SplitAfterDigits(m, dd);
    DateParser.NoDashNotContained(dd);
    assert Split(dd, "-") == [dd];
  }

  /** The label of two distinct dates whose parts are known. */
  lemma MonthShapedLabel(from: string, to: string, y: string, m: string, last: string, n: int)
    requires from != to && Split(from, "-") == [y, m, "01"] && Split(to, "-") == [y, m, last]
    requires ParseInt(last) == Some(n) && n >= 28
    ensures FormatTimeRange(from, to) == Ok(y + "-" + m)
  {
  }

  /** From the first of a month to a day from the 28th on, the label is the month form. */
  lemma FullMonthLabel(year: int, month: int, last: int)
    requires ValidDate(Date(year, month, 1)) && ValidDate(Date(year, month, last)) && last >= 28
    ensures FormatTimeRange(Format(Date(year, month, 1)), Format(Date(year, month, last)))
            == Ok(DateParser.MonthText(year, month))
  {
    var first := Date(year, month, 1);
    var end := Date(year, month, last);
    FormatSplits(first);
    FormatSplits(end);
    assert Pad2(1) == "01";
    assert Format(first) != Format(end) by {
      assert Format(first)[8..] == Pad2(1);
      assert Format(end)[8..] == Pad2(last);
      assert Pad2(last) != Pad2(1);
    }
    DateParser.TwoDigitValue(last);
    MonthShapedLabel(Format(first), Format(end), Pad4(year), Pad2(month), Pad2(last), last);
  }

  /** The current month's range is labelled with the month form. */
  lemma CurrentMonthLabel(today: Date)
    requires ValidDate(today)
    ensures var m := DateParser.CurrentMonth(today);
            FormatTimeRange(Format(m.start), Format(m.end)) == Ok(DateParser.MonthText(today.year, today.month))
  {
    FullMonthLabel(today.year, today.month, DaysInMonth(today.year, today.month));
  }
}
