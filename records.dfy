/**
  * The records both engines read: Tempo worklogs and Solidtime time entries, with the
  * defaults the code applies when a JSON key is absent already folded in.
  */
module Records {
  import opened Wrappers
  import opened Text
  import opened Calendar

  /**
    * A point in time read from an ISO timestamp: seconds since the epoch, and the
    * calendar date and minute of the day in the timestamp's own offset.
    */
  datatype Instant = Instant(epochSeconds: int, date: Date, minuteOfDay: int)

  /** A timestamp field: its text, and what `datetime.fromisoformat` makes of it (`None`: it raises). */
  datatype Stamp = Stamp(raw: string, parsed: Option<Instant>)

  /**
    * The `issue` object of a worklog.  `key`, `projectKey` and `issueTypeName` are `""`
    * when absent; `summary` is `None` when absent (each reader applies its own default).
    */
  datatype Issue = Issue(
    id: Option<int>,
    key: string,
    summary: Option<string>,
    projectKey: string,
    issueTypeName: string,
    labels: seq<string>)

  /**
    * A Tempo worklog.  `tempoWorklogId` is `None` when absent; `description` is `None`
    * when it is JSON `null` and `""` when absent; `startTime` and `comment` are `None`
    * when absent.
    */
  datatype TempoWorklog = TempoWorklog(
    tempoWorklogId: Option<int>,
    issue: Issue,
    updatedAt: string,
    timeSpentSeconds: int,
    billableSeconds: int,
    startDate: string,
    startTime: Option<string>,
    description: Option<string>,
    comment: Option<string>)

  /** A Solidtime time entry; the string fields are `""` when absent. */
  datatype SolidtimeEntry = SolidtimeEntry(
    id: string,
    description: string,
    start: Stamp,
    end: Stamp,
    duration: int,
    updatedAt: Option<string>,
    projectId: string,
    taskId: string)

  /** `str(worklog.get("tempoWorklogId", ""))` */
  function IdText(w: TempoWorklog): (s: string)
    ensures s == [] <==> w.tempoWorklogId.None?
  {
    match w.tempoWorklogId
    case None => ""
    case Some(v) => IntToString(v)
  }

  /** `worklog.get("tempoWorklogId")` is truthy. */
  predicate HasId(w: TempoWorklog) {
    w.tempoWorklogId.Some? && w.tempoWorklogId.value != 0
  }

  /** How an f-string renders `worklog.get("description", "")`: JSON `null` prints as `None`. */
  function DescriptionText(w: TempoWorklog): string {
    match w.description
    case None => "None"
    case Some(d) => d
  }

  /** `"<key>: <text> [JiraSync:<id>]"`, the description format both engines write. */
  function Tagged(key: string, text: string, id: string): string {
    key + ": " + text + " [JiraSync:" + id + "]"
  }
}
