/**
  * The two per-worklog comparisons of the rich planner: the description it expects a
  * synchronised entry to carry, and the check whether a Solidtime entry has drifted
  * away from its Tempo worklog (Tempo is the single source of truth).
  */
module Drift {
  import opened Wrappers
  import opened Text
  import opened Calendar
  import opened Records
  import opened FieldMapper

  function Abs(x: int): nat {
    if x < 0 then -x else x
  }

  /**
    * `_generate_expected_description`: the field mapper's text choice; a JSON `null`
    * description makes `.strip()` raise and the handler returns `""`.
    */
  function ExpectedDescription(w: TempoWorklog): (s: string)
    ensures w.description.None? <==> s == ""
  {
    match w.description
    case None => ""
    case Some(d) => Tagged(w.issue.key, ChosenText(Strip(d), w.issue.key, SummaryOr(w.issue)), IdText(w))
  }

  /** Its claim to use the field mapper's logic holds: both build the same string. */
  lemma ExpectedDescriptionIsFieldMappers(rules: Rules, w: TempoWorklog)
    ensures MapTempoWorklog(rules, w).Some? ==> ExpectedDescription(w) == MapTempoWorklog(rules, w).value.description
    ensures MapTempoWorklog(rules, w).None? <==> ExpectedDescription(w) == ""
  {
  }

  /**
    * The description the drift check formats for itself: the raw (unstripped)
    * description when it is not empty, else the summary with `""` as its default; no
    * "Working on issue" substitution.
    */
  function DriftDescription(w: TempoWorklog): (s: string)
    ensures w.description.Some? && w.description.value != "" ==> s == Tagged(w.issue.key, w.description.value, IdText(w))
    ensures w.description.None? || w.description == Some("") ==> s == Tagged(w.issue.key, w.issue.summary.GetOr(""), IdText(w))
  {
    var raw := w.description.GetOr("");
    if raw != "" then Tagged(w.issue.key, raw, IdText(w))
    else Tagged(w.issue.key, w.issue.summary.GetOr(""), IdText(w))
  }

  /** `worklog.get("startTime", "")` */
  function StartTime(w: TempoWorklog): string {
    w.startTime.GetOr("")
  }

  /**
    * `h, m, s = map(int, t.split(":"))` and then `h * 60 + m`: exactly three parts, each
    * one an integer; anything else raises.
    */
  function ClockMinutes(t: string): (r: Option<int>)
    ensures r.Some? ==> |Split(t, ":")| == 3
    ensures r.Some? ==> exists h, m, s :: (ParseInt(Split(t, ":")[0]) == Some(h)
      && ParseInt(Split(t, ":")[1]) == Some(m) && ParseInt(Split(t, ":")[2]) == Some(s) && r.value == h * 60 + m)
  {
    var parts := Split(t, ":");
    if |parts| != 3 then None
    else
      match (ParseInt(parts[0]), ParseInt(parts[1]), ParseInt(parts[2]))
      case (Some(h), Some(m), Some(s)) => Some(h * 60 + m)
      case _ => None
  }

  /** Both timestamps are present, so the duration block ran and bound `datetime`. */
  predicate Bound(e: SolidtimeEntry) {
    e.start.raw != "" && e.end.raw != ""
  }

  /** The entry's duration from its timestamps, in seconds. */
  function EntrySeconds(e: SolidtimeEntry): int
    requires e.start.parsed.Some? && e.end.parsed.Some?
  {
    e.end.parsed.value.epochSeconds - e.start.parsed.value.epochSeconds
  }

  /**
    * `_solidtime_differs_from_tempo`, block by block.  The `datetime` class is imported
    * inside the duration block only, so when an entry has a `start` but no `end` the
    * date and start-time blocks hit an unbound name, which their handlers report as a
    * difference.
    */
  function Differs(w: TempoWorklog, e: SolidtimeEntry): (r: bool)
    ensures !r ==> DriftDescription(w) == e.description
    ensures !r && Bound(e) ==>
      && e.start.parsed.Some? && e.end.parsed.Some?
      && Abs(w.timeSpentSeconds - EntrySeconds(e)) <= 60
      && (w.startDate == "" || IsoDate(w.startDate) == Some(e.start.parsed.value.date))
    ensures !r && e.start.raw != "" ==> w.startDate == "" || Bound(e)
  {
    // Duration: more than a minute apart, or a timestamp that does not parse.
    if Bound(e) && (e.start.parsed.None? || e.end.parsed.None?) then true
    else if Bound(e) && Abs(w.timeSpentSeconds - EntrySeconds(e)) > 60 then true
    // Date of the start, in the timestamp's own offset.
    else if e.start.raw != "" && w.startDate != ""
      && (!Bound(e) || IsoDate(w.startDate).None? || IsoDate(w.startDate).value != e.start.parsed.value.date)
    then true
    // Start time, two minutes of tolerance.
    else if e.start.raw != "" && StartTime(w) != ""
      && (!Bound(e) || ClockMinutes(StartTime(w)).None?
          || Abs(ClockMinutes(StartTime(w)).value - e.start.parsed.value.minuteOfDay) > 2)
    then true
    // Description, in the check's own format.
    else DriftDescription(w) != e.description
  }

  /**
    * With both timestamps present and readable, and the Tempo date and start time
    * either absent or readable, an entry differs exactly when its duration is more
    * than 60 seconds off, its date differs, its start is more than two minutes off, or
    * its description differs.
    */
  lemma DiffersExactly(w: TempoWorklog, e: SolidtimeEntry)
    requires Bound(e) && e.start.parsed.Some? && e.end.parsed.Some?
    requires w.startDate == "" || IsoDate(w.startDate).Some?
    requires StartTime(w) == "" || ClockMinutes(StartTime(w)).Some?
    ensures Differs(w, e) <==>
      Abs(w.timeSpentSeconds - EntrySeconds(e)) > 60
      || (w.startDate != "" && IsoDate(w.startDate).value != e.start.parsed.value.date)
      || (StartTime(w) != "" && Abs(ClockMinutes(StartTime(w)).value - e.start.parsed.value.minuteOfDay) > 2)
      || DriftDescription(w) != e.description
  {
  }

  /** A timestamp that does not parse counts as a difference. */
  lemma UnreadableStampDiffers(w: TempoWorklog, e: SolidtimeEntry)
    requires Bound(e) && (e.start.parsed.None? || e.end.parsed.None?)
    ensures Differs(w, e)
  {
  }

  /**
    * The unbound local import: an entry with a start but no end differs from any
    * worklog that carries a start date or a start time, whatever the values.
    */
  lemma OpenEntryDiffers(w: TempoWorklog, e: SolidtimeEntry)
    requires e.start.raw != "" && e.end.raw == ""
    requires w.startDate != "" || StartTime(w) != ""
    ensures Differs(w, e)
  {
  }

  /** Without a start timestamp only the descriptions are compared. */
  lemma UntimedEntryComparesDescriptions(w: TempoWorklog, e: SolidtimeEntry)
    requires e.start.raw == ""
    ensures Differs(w, e) <==> DriftDescription(w) != e.description
  {
  }

  /**
    * The two formats agree when the description is already stripped, not empty, and
    * not Tempo's default "Working on issue <key>" text.
    */
  lemma FormatsAgree(w: TempoWorklog, d: string)
    requires w.description == Some(d) && d != []
    requires !IsSpace(d[0]) && !IsSpace(d[|d| - 1])
    requires !(StartsWith(d, WorkingOnIssue) && Contains(d, w.issue.key))
    ensures DriftDescription(w) == ExpectedDescription(w)
  {
  }

  /**
    * The formats diverge on Tempo's default text: an entry carrying exactly the
    * description the field mapper wrote, with no timestamps, is still reported as
    * drifted.
    */
  lemma MapperTextReadsAsDrift()
    ensures var w := TempoWorklog(Some(7), Issue(None, "AS-1", Some("Fix login"), "AS", "Task", []), "", 3600, 0,
                                  "", None, Some("Working on issue AS-1"), None);
            Differs(w, SolidtimeEntry("e1", ExpectedDescription(w), Stamp("", None), Stamp("", None), 3600, None, "p", "t"))
  {
    var w := TempoWorklog(Some(7), Issue(None, "AS-1", Some("Fix login"), "AS", "Task", []), "", 3600, 0,
                          "", None, Some("Working on issue AS-1"), None);
    var d := "Working on issue AS-1";
    assert Strip(d) == d;
    assert StartsWith(d, WorkingOnIssue);
    assert d[17..][..4] == "AS-1";
    ContainsAt(d, "AS-1", 17);
    assert |ExpectedDescription(w)| < |DriftDescription(w)|;
  }
}
