/**
  * The value objects of a sync run: the request and the result with its per-worklog
  * details.  Both source classes are frozen, which datatypes are by construction.
  */
module Models {
  import opened Wrappers
  import opened Calendar

  /** A sync request; the dates are the calendar days of the range. */
  datatype SyncRequest = SyncRequest(
    startDate: Date,
    endDate: Date,
    projectKeys: Option<seq<string>>,
    dryRun: bool)

  /** A request built with only the two dates given takes the class defaults. */
  function RequestFor(startDate: Date, endDate: Date): (r: SyncRequest)
    ensures r.startDate == startDate && r.endDate == endDate
    ensures r.projectKeys.None? && !r.dryRun
  {
    SyncRequest(startDate, endDate, None, false)
  }

  /** A created entry as the result lists it (the floating-point hours are left out). */
  datatype CreatedDetail = CreatedDetail(issueKey: string, summary: string, description: string)

  /** An updated entry: the description shown, marked with `* ` when it changed. */
  datatype UpdatedDetail = UpdatedDetail(issueKey: string, summary: string, description: string,
                                         descriptionChanged: bool)

  /** A deleted entry, with the issue key and summary read back from its description. */
  datatype DeletedDetail = DeletedDetail(issueKey: string, summary: string, description: string)

  /** `worklog_details`: the keys `created`, `updated` and `deleted`, each a list. */
  datatype WorklogDetails = WorklogDetails(
    created: seq<CreatedDetail>,
    updated: seq<UpdatedDetail>,
    deleted: seq<DeletedDetail>)

  /** The result of a sync run (the floating-point `total_hours` is left out). */
  datatype SyncResult = SyncResult(
    totalEntries: int,
    changes: int,
    created: int,
    updated: int,
    deleted: int,
    worklogDetails: WorklogDetails)

  /** No worklog details yet. */
  function NoDetails(): (d: WorklogDetails)
    ensures d.created == [] && d.updated == [] && d.deleted == []
  {
    WorklogDetails([], [], [])
  }

  /** `SyncResult.empty()`: every count zero and the three detail lists empty. */
  function Empty(): (r: SyncResult)
    ensures r.totalEntries == 0 && r.changes == 0
    ensures r.created == 0 && r.updated == 0 && r.deleted == 0
    ensures r.worklogDetails == NoDetails()
  {
    SyncResult(0, 0, 0, 0, 0, NoDetails())
  }
}
