/**
  * The execution engine of the rich generation: it fetches both sides, asks the
  * comparator for the worklog-level plan and applies it — deletions, then creations,
  * then updates — counting each operation that succeeded and writing the mapping
  * table after every successful create and update.
  *
  * The Solidtime and Tempo clients are oracles: an `Api` value holds what each client
  * call answers, and the service records in `calls` the client calls it makes, in
  * order.  The specification functions come first; the class `SyncService` follows.
  */
module SyncService {
  import opened Wrappers
  import opened Text
  import opened Dicts
  import opened Records
  import opened FieldMapper
  import opened WorklogStore
  import opened Planner
  import opened Models

  /** The time entry the Solidtime client builds from a mapped worklog. */
  datatype TimeEntry = TimeEntry(
    memberId: string,
    projectId: string,
    taskId: string,
    start: string,
    duration: int,
    billable: bool,
    description: string)

  /** A membership of the user; `organizationId` is `None` when it names no organization. */
  datatype Membership = Membership(id: string, organizationId: Option<string>)

  /** A Solidtime project; absent fields are `""`. */
  datatype Project = Project(id: string, name: string)

  /** One answer of a bulk create: its `success` flag and the id of the new entry (`""` when none). */
  datatype CreateResult = CreateResult(success: bool, newId: string)

  /**
    * What the clients answer.  `convert` is `None` when the conversion raises one of the
    * errors the service catches.
    */
  datatype Api = Api(
    tempoWorklogs: (SyncRequest, Option<string>) -> seq<TempoWorklog>,
    solidtimeEntries: SyncRequest -> seq<SolidtimeEntry>,
    organizationId: string,
    memberships: seq<Membership>,
    projects: seq<Project>,
    convert: (MappedWorklog, map<string, string>, string) -> Option<TimeEntry>,
    bulkCreate: seq<TimeEntry> -> seq<CreateResult>,
    deleteOk: string -> bool,
    updateOk: (string, TimeEntry) -> bool)

  /** A client call the service makes. */
  datatype Call =
    | FetchTempo(request: SyncRequest, filterUser: Option<string>)
    | FetchSolidtime(request: SyncRequest)
    | GetMemberships
    | GetProjects
    | DeleteEntry(entryId: string)
    | BulkCreate(entries: seq<TimeEntry>)
    | UpdateEntry(entryId: string, entry: TimeEntry)

  /** What one handler did: its success count, the table, the details and its calls. */
  datatype Step = Step(count: nat, table: Table, details: WorklogDetails, calls: seq<Call>)

  // ---------------------------------------------------------------------------------
  // Deletions

  /** One delete call per id, in order. */
  function DeleteCalls(ids: seq<string>): (r: seq<Call>)
    ensures |r| == |ids|
    ensures forall i :: 0 <= i < |ids| ==> r[i] == DeleteEntry(ids[i])
    decreases |ids|
  {
    if ids == [] then [] else DeleteCalls(ids[..|ids| - 1]) + [DeleteEntry(ids[|ids| - 1])]
  }

  /** The ids whose delete succeeded, in order. */
  function Deleted(api: Api, ids: seq<string>): (r: seq<string>)
    ensures forall x :: x in r <==> x in ids && api.deleteOk(x)
    ensures |r| <= |ids|
    decreases |ids|
  {
    if ids == [] then []
    else
      var init := ids[..|ids| - 1];
      var x := ids[|ids| - 1];
      assert ids == init + [x];
      var p := Deleted(api, init);
      if api.deleteOk(x) then p + [x] else p
  }

  /**
    * `_add_deletion_details` on a description: the issue key before the first `:` and
    * the text up to `[JiraSync:`, both stripped, when the description has both a `:`
    * and a `[JiraSync:` tag; `"Deleted entry"` when that text is empty.
    */
  function DeletionDetail(description: string): (r: DeletedDetail)
    ensures r.description == description
    ensures !(Contains(description, ":") && Contains(description, "[JiraSync:")) ==>
      r.issueKey == "" && r.summary == "Deleted entry"
    ensures r.summary != ""
  {
    if Contains(description, ":") && Contains(description, "[JiraSync:") then
      var parts := SplitOnce(description, ":");
      var summaryPart := Strip(Split(parts[1], "[JiraSync:")[0]);
      DeletedDetail(Strip(parts[0]), if summaryPart != "" then summaryPart else "Deleted entry", description)
    else DeletedDetail("", "Deleted entry", description)
  }

  /**
    * A tagged description: the key is the stripped text before the first `:`, and the
    * summary the stripped text from there up to the first `[JiraSync:` after it (to
    * the end when none follows), or `"Deleted entry"` when that is empty.
    */
  lemma DeletionDetailTagged(description: string, i: nat)
    requires Contains(description, ":") && Contains(description, "[JiraSync:")
    requires Find(description, ":") == Some(i)
    ensures i < |description|
    ensures var rest := description[i + 1..];
      var j := if Contains(rest, "[JiraSync:") then Find(rest, "[JiraSync:").value else |rest|;
      && DeletionDetail(description).issueKey == Strip(description[..i])
      && DeletionDetail(description).summary
           == (if Strip(rest[..j]) != "" then Strip(rest[..j]) else "Deleted entry")
  {
    var parts := SplitOnce(description, ":");
    assert parts[0] + ":" + parts[1] == description;
    assert |parts[0]| == i;
    assert parts[0] == description[..i];
    assert parts[1] == description[i + 1..];
    var rest := parts[1];
    if Contains(rest, "[JiraSync:") {
      var j := Find(rest, "[JiraSync:").value;
      SplitAtFirstOccurrence(rest, "[JiraSync:");
      JoinSplit(rest, "[JiraSync:");
      assert Split(rest, "[JiraSync:")[0] == rest[..j];
    } else {
      assert Split(rest, "[JiraSync:") == [rest];
      assert rest[..|rest|] == rest;
    }
  }

  /** The details of the ids deleted: one for each id that names a fetched entry. */
  function DeletionDetails(ids: seq<string>, lookup: map<string, SolidtimeEntry>): (r: seq<DeletedDetail>)
    ensures |r| <= |ids|
    decreases |ids|
  {
    if ids == [] then []
    else
      var x := ids[|ids| - 1];
      DeletionDetails(ids[..|ids| - 1], lookup) + (if x in lookup then [DeletionDetail(lookup[x].description)] else [])
  }

  /** When every deleted id names a fetched entry, the details follow the ids one for one. */
  lemma {:induction false} DeletionDetailsOneForOne(ids: seq<string>, lookup: map<string, SolidtimeEntry>)
    requires forall k :: 0 <= k < |ids| ==> ids[k] in lookup
    ensures |DeletionDetails(ids, lookup)| == |ids|
    ensures forall i :: 0 <= i < |ids| ==> DeletionDetails(ids, lookup)[i] == DeletionDetail(lookup[ids[i]].description)
    decreases |ids|
  {
    if ids != [] {
      var init := ids[..|ids| - 1];
      var x := ids[|ids| - 1];
      assert x in lookup;
      assert forall k :: 0 <= k < |init| ==> init[k] in lookup by {
        forall k | 0 <= k < |init| ensures init[k] in lookup {
          assert init[k] == ids[k];
        }
      }
      DeletionDetailsOneForOne(init, lookup);
      var r := DeletionDetails(ids, lookup);
      assert r == DeletionDetails(init, lookup) + [DeletionDetail(lookup[x].description)];
      var p := DeletionDetails(init, lookup);
      forall i | 0 <= i < |ids| ensures r[i] == DeletionDetail(lookup[ids[i]].description) {
        if i < |init| {
          assert r[i] == p[i];
          assert ids[i] == init[i];
        } else {
          assert i == |p|;
          assert r[i] == DeletionDetail(lookup[x].description);
        }
      }
    }
  }

  /** Appending to the log one call at a time. */
  lemma LogStep(log: seq<Call>, made: seq<Call>, c: Call)
    ensures log + made + [c] == log + (made + [c])
  {
  }

  lemma LogAppend(log: seq<Call>, made: seq<Call>, more: seq<Call>)
    ensures log + made + more == log + (made + more)
  {
  }

  lemma LogAssoc(log: seq<Call>, a: seq<Call>, b: seq<Call>, c: seq<Call>)
    ensures log + a + b + c == log + (a + b + c)
  {
  }

  /** The answer of `get_worklogs`, for the request's dates and user filter. */
  function TempoFetch(api: Api, request: SyncRequest, filterUser: Option<string>): seq<TempoWorklog> {
    api.tempoWorklogs(request, filterUser)
  }

  /** The answer of `get_time_entries`, for the request's dates. */
  function SolidtimeFetch(api: Api, request: SyncRequest): seq<SolidtimeEntry> {
    api.solidtimeEntries(request)
  }

  /** The answer of `delete_time_entry(entryId)`. */
  function DeleteSucceeds(api: Api, entryId: string): bool {
    api.deleteOk(entryId)
  }

  /** One turn of the deletion loop. */
  lemma DeletedStep(api: Api, ids: seq<string>, i: nat)
    requires i < |ids|
    ensures Deleted(api, ids[..i + 1]) == Deleted(api, ids[..i]) + (if api.deleteOk(ids[i]) then [ids[i]] else [])
    ensures DeleteCalls(ids[..i + 1]) == DeleteCalls(ids[..i]) + [DeleteEntry(ids[i])]
  {
    assert ids[..i + 1][..i] == ids[..i];
  }

  lemma DeletionDetailsSnoc(ids: seq<string>, x: string, lookup: map<string, SolidtimeEntry>)
    ensures DeletionDetails(ids + [x], lookup)
      == DeletionDetails(ids, lookup) + (if x in lookup then [DeletionDetail(lookup[x].description)] else [])
  {
    assert (ids + [x])[..|ids|] == ids;
  }

  /** `_handle_deletions` */
  function Deletions(api: Api, t: Table, ids: seq<string>, es: seq<SolidtimeEntry>, d: WorklogDetails): (s: Step)
    ensures s.table == t
    ensures s.count == |Deleted(api, ids)| <= |ids|
    ensures s.calls == DeleteCalls(ids)
    ensures s.details.created == d.created && s.details.updated == d.updated
  {
    if ids == [] then Step(0, t, d, [])
    else
      var del := Deleted(api, ids);
      Step(|del|, t, d.(deleted := d.deleted + DeletionDetails(del, EntryLookup(es))), DeleteCalls(ids))
  }

  // ---------------------------------------------------------------------------------
  // What the Solidtime side is asked before creating or updating

  /** The id of the first membership in the client's organization, `""` when there is none. */
  function MemberId(ms: seq<Membership>, org: string): (r: string)
    ensures (forall i :: 0 <= i < |ms| ==> ms[i].organizationId != Some(org)) ==> r == ""
    ensures forall i :: (0 <= i < |ms| && ms[i].organizationId == Some(org)
      && (forall j :: 0 <= j < i ==> ms[j].organizationId != Some(org))) ==> r == ms[i].id
    decreases |ms|
  {
    if ms == [] then ""
    else if ms[0].organizationId == Some(org) then ms[0].id
    else
      var r := MemberId(ms[1..], org);
      assert forall i :: 1 <= i < |ms| ==> ms[i] == ms[1..][i - 1];
      r
  }

  /** `{name: id for project if id}`: a later project with the same name wins. */
  function ProjectMapping(ps: seq<Project>): (r: map<string, string>)
    ensures forall n :: n in r <==> exists i :: 0 <= i < |ps| && ps[i].id != "" && ps[i].name == n
    decreases |ps|
  {
    if ps == [] then map[]
    else
      var init := ps[..|ps| - 1];
      var p := ps[|ps| - 1];
      var r := ProjectMapping(init);
      assert forall i :: 0 <= i < |init| ==> init[i] == ps[i];
      if p.id != "" then r[p.name := p.id] else r
  }

  /** Each name maps to the id of the last project with that name and an id. */
  lemma {:induction false} ProjectMappingLastWins(ps: seq<Project>, n: string)
    requires n in ProjectMapping(ps)
    ensures exists i :: (0 <= i < |ps| && ps[i].id != "" && ps[i].name == n && ProjectMapping(ps)[n] == ps[i].id
      && forall j :: i < j < |ps| ==> ps[j].id == "" || ps[j].name != n)
    decreases |ps|
  {
    var init := ps[..|ps| - 1];
    var p := ps[|ps| - 1];
    if p.id != "" && p.name == n {
      assert ProjectMapping(ps)[n] == ps[|ps| - 1].id;
    } else {
      assert ProjectMapping(ps)[n] == ProjectMapping(init)[n];
      ProjectMappingLastWins(init, n);
      var i :| 0 <= i < |init| && init[i].id != "" && init[i].name == n && ProjectMapping(init)[n] == init[i].id
        && forall j :: i < j < |init| ==> init[j].id == "" || init[j].name != n;
      assert ps[i] == init[i];
      assert forall j :: i < j < |ps| ==> ps[j].id == "" || ps[j].name != n by {
        forall j | i < j < |ps| ensures ps[j].id == "" || ps[j].name != n {
          if j < |init| { assert ps[j] == init[j]; }
        }
      }
    }
  }

  /** The positions of the worklogs in `mapped` that convert, in increasing order. */
  function ConvertiblePositions(api: Api, mapped: seq<MappedWorklog>, pm: map<string, string>, member: string): (r: seq<nat>)
    ensures forall k :: 0 <= k < |r| ==> r[k] < |mapped| && api.convert(mapped[r[k]], pm, member).Some?
    ensures forall i :: 0 <= i < |mapped| && api.convert(mapped[i], pm, member).Some? ==> i in r
    ensures forall k, l :: 0 <= k < l < |r| ==> r[k] < r[l]
    decreases |mapped|
  {
    if mapped == [] then []
    else
      var i := |mapped| - 1;
      assert forall k :: 0 <= k < i ==> mapped[..i][k] == mapped[k];
      ConvertiblePositions(api, mapped[..i], pm, member) + (if api.convert(mapped[i], pm, member).Some? then [i] else [])
  }

  /** `_convert_worklogs_to_time_entries`: the worklogs that convert, in order. */
  function Converted(api: Api, mapped: seq<MappedWorklog>, pm: map<string, string>, member: string): (r: seq<TimeEntry>)
    ensures |r| <= |mapped|
    ensures (forall i :: 0 <= i < |mapped| ==> api.convert(mapped[i], pm, member).Some?) ==>
      |r| == |mapped| && forall i :: 0 <= i < |mapped| ==> r[i] == api.convert(mapped[i], pm, member).value
    decreases |mapped|
  {
    if mapped == [] then []
    else
      var init := mapped[..|mapped| - 1];
      var c := api.convert(mapped[|mapped| - 1], pm, member);
      assert forall i :: 0 <= i < |init| ==> init[i] == mapped[i];
      Converted(api, init, pm, member) + (if c.Some? then [c.value] else [])
  }

  /** The conversion skips the worklogs that do not convert and keeps the others' entries in order. */
  lemma {:induction false} ConvertedInOrder(api: Api, mapped: seq<MappedWorklog>, pm: map<string, string>, member: string)
    ensures |Converted(api, mapped, pm, member)| == |ConvertiblePositions(api, mapped, pm, member)|
    ensures forall k :: 0 <= k < |Converted(api, mapped, pm, member)| ==>
      Converted(api, mapped, pm, member)[k]
        == api.convert(mapped[ConvertiblePositions(api, mapped, pm, member)[k]], pm, member).value
    decreases |mapped|
  {
    if mapped != [] {
      var n := |mapped| - 1;
      var init := mapped[..n];
      var c := api.convert(mapped[n], pm, member);
      ConvertedInOrder(api, init, pm, member);
      var p := ConvertiblePositions(api, init, pm, member);
      var q := Converted(api, init, pm, member);
      assert Converted(api, mapped, pm, member) == q + (if c.Some? then [c.value] else []);
      assert ConvertiblePositions(api, mapped, pm, member) == p + (if c.Some? then [n] else []);
      forall k | 0 <= k < |p| ensures mapped[p[k]] == init[p[k]] {
      }
    }
  }

  // ---------------------------------------------------------------------------------
  // Creations

  /** How many creates succeeded. */
  function Successes(rs: seq<CreateResult>): (n: nat)
    ensures n <= |rs|
    ensures n == 0 <==> forall i :: 0 <= i < |rs| ==> !rs[i].success
    decreases |rs|
  {
    if rs == [] then 0
    else
      var init := rs[..|rs| - 1];
      assert forall i :: 0 <= i < |init| ==> init[i] == rs[i];
      Successes(init) + (if rs[|rs| - 1].success then 1 else 0)
  }

  /**
    * The `i`-th create result is written back: it succeeded, returned an id, and there
    * is an `i`-th worklog to create, the one it is paired with by position.
    */
  predicate Writes(r: CreateResult, i: nat, ws: seq<TempoWorklog>) {
    r.success && i < |ws| && r.newId != ""
  }

  /** The table after `_process_creation_results` has seen the results `rs`. */
  function Recorded(t: Table, rs: seq<CreateResult>, ws: seq<TempoWorklog>, now: string): (r: Table)
    requires t.Valid()
    ensures r.Valid()
    decreases |rs|
  {
    if rs == [] then t
    else
      var i := |rs| - 1;
      var p := Recorded(t, rs[..i], ws, now);
      if Writes(rs[i], i, ws) then RecordSync(p, ws[i], rs[i].newId, Some(now)) else p
  }

  /** The detail listed for a created worklog: its own raw description, tagged. */
  function CreatedDetailOf(w: TempoWorklog): CreatedDetail {
    CreatedDetail(w.issue.key, SummaryOr(w.issue), Tagged(w.issue.key, DescriptionText(w), IdText(w)))
  }

  /** The positions of the results in `rs` that are written back, in increasing order. */
  function WrittenPositions(rs: seq<CreateResult>, ws: seq<TempoWorklog>): (r: seq<nat>)
    ensures forall k :: 0 <= k < |r| ==> r[k] < |rs| && Writes(rs[r[k]], r[k], ws)
    ensures forall i :: 0 <= i < |rs| && Writes(rs[i], i, ws) ==> i in r
    ensures forall k, l :: 0 <= k < l < |r| ==> r[k] < r[l]
    decreases |rs|
  {
    if rs == [] then []
    else
      var i := |rs| - 1;
      assert forall k :: 0 <= k < i ==> rs[..i][k] == rs[k];
      WrittenPositions(rs[..i], ws) + (if Writes(rs[i], i, ws) then [i] else [])
  }

  /**
    * The details `_process_creation_results` appends for the results `rs`: one per
    * written-back result, for the worklog at the same position, in order.
    */
  function CreatedDetails(rs: seq<CreateResult>, ws: seq<TempoWorklog>): (r: seq<CreatedDetail>)
    ensures |r| <= |rs|
    ensures |r| == |WrittenPositions(rs, ws)|
    ensures forall k :: 0 <= k < |r| ==> r[k] == CreatedDetailOf(ws[WrittenPositions(rs, ws)[k]])
    decreases |rs|
  {
    if rs == [] then []
    else
      var i := |rs| - 1;
      CreatedDetails(rs[..i], ws) + (if Writes(rs[i], i, ws) then [CreatedDetailOf(ws[i])] else [])
  }

  /** One more result: its detail, if it is written back, follows the earlier ones. */
  lemma CreatedDetailsStep(rs: seq<CreateResult>, ws: seq<TempoWorklog>, i: nat)
    requires i < |rs|
    ensures CreatedDetails(rs[..i + 1], ws)
      == CreatedDetails(rs[..i], ws) + (if Writes(rs[i], i, ws) then [CreatedDetailOf(ws[i])] else [])
  {
    assert rs[..i + 1][..i] == rs[..i];
  }

  /** One more result: the table is written back for it only when it is written back. */
  lemma RecordedStep(t: Table, rs: seq<CreateResult>, ws: seq<TempoWorklog>, now: string, i: nat)
    requires t.Valid() && i < |rs|
    ensures Recorded(t, rs[..i + 1], ws, now)
      == if Writes(rs[i], i, ws) then RecordSync(Recorded(t, rs[..i], ws, now), ws[i], rs[i].newId, Some(now))
         else Recorded(t, rs[..i], ws, now)
  {
    assert rs[..i + 1][..i] == rs[..i];
  }

  /** `_handle_creations` */
  function Creations(api: Api, rules: Rules, now: string, t: Table, ws: seq<TempoWorklog>, d: WorklogDetails): (s: Step)
    requires t.Valid()
    ensures s.table.Valid()
    ensures s.details.updated == d.updated && s.details.deleted == d.deleted
    ensures ws == [] ==> s == Step(0, t, d, [])
    ensures ws != [] && MemberId(api.memberships, api.organizationId) == "" ==>
      s == Step(0, t, d, [GetMemberships, GetProjects])
  {
    if ws == [] then Step(0, t, d, [])
    else
      var mapped := MapAll(rules, ws);
      var member := MemberId(api.memberships, api.organizationId);
      var pm := ProjectMapping(api.projects);
      if member == "" then Step(0, t, d, [GetMemberships, GetProjects])
      else
        var entries := Converted(api, mapped, pm, member);
        if entries == [] then Step(0, t, d, [GetMemberships, GetProjects])
        else
          var rs := api.bulkCreate(entries);
          Step(Successes(rs), Recorded(t, rs, ws, now), d.(created := d.created + CreatedDetails(rs, ws)),
               [GetMemberships, GetProjects, BulkCreate(entries)])
  }

  // ---------------------------------------------------------------------------------
  // Updates

  /**
    * The entry sent to the update call: the converted entry with the worklog's raw
    * description, tagged, and the existing entry's project and task when it has them.
    */
  function UpdatePayload(converted: TimeEntry, w: TempoWorklog, existing: SolidtimeEntry): (r: TimeEntry)
    ensures r.description == Tagged(w.issue.key, DescriptionText(w), IdText(w))
    ensures r.projectId == (if existing.projectId != "" then existing.projectId else converted.projectId)
    ensures r.taskId == (if existing.taskId != "" then existing.taskId else converted.taskId)
    ensures r.(description := converted.description, projectId := converted.projectId, taskId := converted.taskId) == converted
  {
    var e := converted.(description := Tagged(w.issue.key, DescriptionText(w), IdText(w)));
    var e := if existing.projectId != "" then e.(projectId := existing.projectId) else e;
    if existing.taskId != "" then e.(taskId := existing.taskId) else e
  }

  /** The detail listed for an updated entry. */
  function UpdatedDetailOf(w: TempoWorklog, existing: SolidtimeEntry): (r: UpdatedDetail)
    ensures var formatted := Tagged(w.issue.key, DescriptionText(w), IdText(w));
      r.descriptionChanged == (existing.description != formatted)
      && r.description == (if r.descriptionChanged then "* " + formatted else formatted)
  {
    var formatted := Tagged(w.issue.key, DescriptionText(w), IdText(w));
    var changed := existing.description != formatted;
    UpdatedDetail(w.issue.key, SummaryOr(w.issue), if changed then "* " + formatted else formatted, changed)
  }

  /** `_update_mapping_and_details` on the table: both stamps written, the flag cleared. */
  function Touched(t: Table, w: TempoWorklog, now: string): (r: Table)
    requires t.Valid() && IdText(w) in t.entries
    ensures r.Valid() && r.order == t.order && r.Keys() == t.Keys()
    ensures forall k :: k in t.entries && k != IdText(w) ==> r.entries[k] == t.entries[k]
    ensures r.entries[IdText(w)] == t.entries[IdText(w)].(tempoUpdatedAt := w.updatedAt,
      solidtimeUpdatedAt := Some(now), needsUpdate := Some(false))
  {
    var tid := IdText(w);
    WithFlag(t.Put(tid, t.entries[tid].(tempoUpdatedAt := w.updatedAt, solidtimeUpdatedAt := Some(now))), tid, false)
  }

  /**
    * `_update_single_entry`: nothing without a fetched entry; a worklog that does not
    * map or convert, a refused update, or a row missing from the table (the lookup
    * raises after the update was sent) count as a failure.
    */
  function UpdateOne(api: Api, rules: Rules, now: string, t: Table, w: TempoWorklog, entryId: string,
                     existing: map<string, SolidtimeEntry>, pm: map<string, string>, member: string,
                     d: WorklogDetails): (s: Step)
    requires t.Valid()
    ensures s.count <= 1 && s.table.Valid()
    ensures entryId !in existing ==> s == Step(0, t, d, [])
    ensures s.count == 0 ==> s.table == t && s.details == d
    ensures s.count == 1 ==> (IdText(w) in t.entries && s.table == Touched(t, w, now)
      && s.details == d.(updated := d.updated + [UpdatedDetailOf(w, existing[entryId])]))
    ensures s.calls == [] || (|s.calls| == 1 && s.calls[0].UpdateEntry? && s.calls[0].entryId == entryId)
  {
    if entryId !in existing then Step(0, t, d, [])
    else
      var e := existing[entryId];
      match MapTempoWorklog(rules, w)
      case None => Step(0, t, d, [])
      case Some(mapped) =>
        match api.convert(mapped, pm, member)
        case None => Step(0, t, d, [])
        case Some(converted) =>
          var payload := UpdatePayload(converted, w, e);
          var call := [UpdateEntry(entryId, payload)];
          if !api.updateOk(entryId, payload) then Step(0, t, d, call)
          else if IdText(w) !in t.entries then Step(0, t, d, call)
          else Step(1, Touched(t, w, now), d.(updated := d.updated + [UpdatedDetailOf(w, e)]), call)
  }

  /** The update loop: the `i`-th worklog goes with the `i`-th entry id while there is one. */
  function UpdateAll(api: Api, rules: Rules, now: string, t: Table, ws: seq<TempoWorklog>, ids: seq<string>,
                     existing: map<string, SolidtimeEntry>, pm: map<string, string>, member: string,
                     d: WorklogDetails): (s: Step)
    requires t.Valid()
    ensures s.table.Valid()
    ensures s.count <= |ws| && s.count <= |ids|
    ensures s.details.created == d.created && s.details.deleted == d.deleted
    decreases |ws|
  {
    if ws == [] then Step(0, t, d, [])
    else
      var i := |ws| - 1;
      var p := UpdateAll(api, rules, now, t, ws[..i], ids, existing, pm, member, d);
      if i < |ids| then
        var o := UpdateOne(api, rules, now, p.table, ws[i], ids[i], existing, pm, member, p.details);
        Step(p.count + o.count, o.table, o.details, p.calls + o.calls)
      else p
  }

  /** One turn of the update loop, for a worklog that has an entry id. */
  lemma UpdateAllStep(api: Api, rules: Rules, now: string, t: Table, ws: seq<TempoWorklog>, i: nat, ids: seq<string>,
                      existing: map<string, SolidtimeEntry>, pm: map<string, string>, member: string,
                      d: WorklogDetails, done: Step, o: Step)
    requires t.Valid() && i < |ws| && i < |ids|
    requires done == UpdateAll(api, rules, now, t, ws[..i], ids, existing, pm, member, d)
    requires o == UpdateOne(api, rules, now, done.table, ws[i], ids[i], existing, pm, member, done.details)
    ensures UpdateAll(api, rules, now, t, ws[..i + 1], ids, existing, pm, member, d)
      == Step(done.count + o.count, o.table, o.details, done.calls + o.calls)
  {
    assert ws[..i + 1][..i] == ws[..i];
  }

  /** One turn of the update loop past the last entry id: nothing happens. */
  lemma UpdateAllPast(api: Api, rules: Rules, now: string, t: Table, ws: seq<TempoWorklog>, i: nat, ids: seq<string>,
                      existing: map<string, SolidtimeEntry>, pm: map<string, string>, member: string,
                      d: WorklogDetails)
    requires t.Valid() && |ids| <= i < |ws|
    ensures UpdateAll(api, rules, now, t, ws[..i + 1], ids, existing, pm, member, d)
      == UpdateAll(api, rules, now, t, ws[..i], ids, existing, pm, member, d)
  {
    assert ws[..i + 1][..i] == ws[..i];
  }

  /** `_handle_updates` */
  function Updates(api: Api, rules: Rules, now: string, t: Table, ws: seq<TempoWorklog>, ids: seq<string>,
                   es: seq<SolidtimeEntry>, d: WorklogDetails): (s: Step)
    requires t.Valid()
    ensures s.table.Valid()
    ensures s.count <= |ws| && s.count <= |ids|
    ensures s.details.created == d.created && s.details.deleted == d.deleted
    ensures ws == [] || ids == [] ==> s == Step(0, t, d, [])
  {
    if ws == [] || ids == [] then Step(0, t, d, [])
    else
      var member := MemberId(api.memberships, api.organizationId);
      var pm := ProjectMapping(api.projects);
      if member == "" then Step(0, t, d, [GetMemberships, GetProjects])
      else
        var s := UpdateAll(api, rules, now, t, ws, ids, EntryLookup(es), pm, member, d);
        s.(calls := [GetMemberships, GetProjects] + s.calls)
  }

  // ---------------------------------------------------------------------------------
  // A whole run

  /**
    * `_execute_sync_operations`: deletions, creations, updates, in that order.  The
    * three success counts come back under the names the source binds them to: the
    * deletion count as `successfulCreates`, the creation count as `successfulUpdates`
    * and the update count as `successfulDeletes`.
    */
  datatype Executed = Executed(successfulCreates: nat, successfulUpdates: nat, successfulDeletes: nat,
                               table: Table, details: WorklogDetails, calls: seq<Call>)

  function Execute(api: Api, rules: Rules, now: string, t: Table, toCreate: seq<TempoWorklog>,
                   toUpdate: seq<TempoWorklog>, toDelete: seq<string>, updateIds: seq<string>,
                   es: seq<SolidtimeEntry>, d: WorklogDetails): (x: Executed)
    requires t.Valid()
    ensures x.table.Valid()
    ensures x.successfulCreates == |Deleted(api, toDelete)|
    ensures x.successfulDeletes <= |toUpdate| && x.successfulDeletes <= |updateIds|
    ensures DeleteCalls(toDelete) <= x.calls
  {
    var del := Deletions(api, t, toDelete, es, d);
    var cre := Creations(api, rules, now, del.table, toCreate, del.details);
    var upd := Updates(api, rules, now, cre.table, toUpdate, updateIds, es, cre.details);
    Executed(del.count, cre.count, upd.count, upd.table, upd.details, del.calls + cre.calls + upd.calls)
  }

  /** A run: its result, the mapping table afterwards and the client calls made. */
  datatype Run = Run(result: SyncResult, table: Table, calls: seq<Call>)

  /** The plan's counts as the result reports them before anything runs. */
  function Planned(ws: seq<TempoWorklog>, plan: WorklogPlan): (r: SyncResult)
    ensures r.totalEntries == |ws|
    ensures r.changes == plan.stats.worklogsToCreate + plan.stats.worklogsToUpdate + plan.stats.entriesToDelete
  {
    SyncResult(|ws|, plan.stats.worklogsToCreate + plan.stats.worklogsToUpdate + plan.stats.entriesToDelete,
      plan.stats.worklogsToCreate, plan.stats.worklogsToUpdate, plan.stats.entriesToDelete, NoDetails())
  }

  /**
    * What `sync_worklogs` does once the plan is made: on a dry run or a plan without
    * changes, nothing; otherwise the three operations, with their counts reported under
    * the names `_execute_sync_operations` binds them to.  The calls are those made after
    * the two fetches.
    */
  function AfterPlan(api: Api, rules: Rules, now: string, t: Table, ws: seq<TempoWorklog>, es: seq<SolidtimeEntry>,
                     plan: WorklogPlan, dryRun: bool): (r: Run)
    requires t.Valid()
    ensures r.table.Valid()
    ensures r.result.totalEntries == |ws|
    ensures dryRun ==> r == Run(Planned(ws, plan), t, [])
  {
    var planned := Planned(ws, plan);
    if dryRun || planned.changes == 0 then Run(planned, t, [])
    else
      var x := Execute(api, rules, now, t, plan.toCreate, plan.toUpdate, plan.toDelete, plan.updateIds, es,
                       planned.worklogDetails);
      Run(planned.(created := x.successfulCreates, updated := x.successfulUpdates, deleted := x.successfulDeletes,
                   worklogDetails := x.details),
          x.table, x.calls)
  }

  /** `sync_worklogs` */
  function SyncRun(api: Api, rules: Rules, now: string, t: Table, request: SyncRequest, filterUser: Option<string>): (r: Run)
    requires t.Valid()
    ensures r.table.Valid()
    ensures |r.calls| >= 1 && r.calls[0] == FetchTempo(request, filterUser)
    ensures r.result.totalEntries == |TempoFetch(api, request, filterUser)|
    ensures TempoFetch(api, request, filterUser) == [] ==> r.result == Empty() && r.table == t && |r.calls| == 1
  {
    var ws := TempoFetch(api, request, filterUser);
    if ws == [] then Run(Empty(), t, [FetchTempo(request, filterUser)])
    else
      var es := SolidtimeFetch(api, request);
      var a := AfterPlan(api, rules, now, PlanTable(t, ws, es), ws, es, PlanB(PlanTable(t, ws, es), ws, es), request.dryRun);
      a.(calls := [FetchTempo(request, filterUser)] + [FetchSolidtime(request)] + a.calls)
  }

  /** A run whose Tempo fetch is empty does nothing else. */
  lemma SyncRunNothingFetched(api: Api, rules: Rules, now: string, t: Table, request: SyncRequest,
                              filterUser: Option<string>)
    requires t.Valid() && TempoFetch(api, request, filterUser) == []
    ensures SyncRun(api, rules, now, t, request, filterUser) == Run(Empty(), t, [FetchTempo(request, filterUser)])
  {
  }

  /** A run that fetched worklogs is the run after its plan. */
  lemma SyncRunPlanned(api: Api, rules: Rules, now: string, t: Table, request: SyncRequest, filterUser: Option<string>,
                       t': Table, plan: WorklogPlan, a: Run)
    requires t.Valid() && TempoFetch(api, request, filterUser) != []
    requires t' == PlanTable(t, TempoFetch(api, request, filterUser), SolidtimeFetch(api, request))
    requires plan == PlanB(t', TempoFetch(api, request, filterUser), SolidtimeFetch(api, request))
    requires a == AfterPlan(api, rules, now, t', TempoFetch(api, request, filterUser), SolidtimeFetch(api, request),
                            plan, request.dryRun)
    ensures SyncRun(api, rules, now, t, request, filterUser)
      == a.(calls := [FetchTempo(request, filterUser)] + [FetchSolidtime(request)] + a.calls)
  {
  }

  /** A dry run, or a plan without changes, runs nothing. */
  lemma AfterPlanIdle(api: Api, rules: Rules, now: string, t: Table, ws: seq<TempoWorklog>, es: seq<SolidtimeEntry>,
                      plan: WorklogPlan, dryRun: bool)
    requires t.Valid() && (dryRun || Planned(ws, plan).changes == 0)
    ensures AfterPlan(api, rules, now, t, ws, es, plan, dryRun) == Run(Planned(ws, plan), t, [])
  {
  }

  /** Otherwise the three operations run on the planned table. */
  lemma AfterPlanExecuted(api: Api, rules: Rules, now: string, t: Table, ws: seq<TempoWorklog>, es: seq<SolidtimeEntry>,
                          plan: WorklogPlan, dryRun: bool, x: Executed)
    requires t.Valid() && !dryRun && Planned(ws, plan).changes != 0
    requires x == Execute(api, rules, now, t, plan.toCreate, plan.toUpdate, plan.toDelete, plan.updateIds, es, NoDetails())
    ensures AfterPlan(api, rules, now, t, ws, es, plan, dryRun)
      == Run(Planned(ws, plan).(created := x.successfulCreates, updated := x.successfulUpdates,
                                deleted := x.successfulDeletes, worklogDetails := x.details), x.table, x.calls)
  {
  }

  // ---------------------------------------------------------------------------------
  // The service

  class SyncService {
    const api: Api
    const rules: Rules
    const comparator: IssueComparator
    /** `datetime.now().isoformat() + "Z"`: the stamp this run writes back. */
    const now: string
    /** The client calls made so far. */
    var calls: seq<Call>

    ghost predicate Valid()
      reads comparator.store
    {
      comparator.store.Valid()
    }

    constructor (api: Api, rules: Rules, store: WorklogMapping, now: string)
      ensures this.api == api && this.rules == rules && this.now == now
      ensures comparator.store == store && calls == []
    {
      this.api := api;
      this.rules := rules;
      this.now := now;
      this.comparator := new IssueComparator(store);
      this.calls := [];
    }

    /** `_handle_deletions` */
    method HandleDeletions(ids: seq<string>, es: seq<SolidtimeEntry>, details: WorklogDetails)
      returns (n: nat, details': WorklogDetails)
      modifies this
      ensures var s := Deletions(api, comparator.store.mappings, ids, es, details);
        n == s.count && details' == s.details && calls == old(calls) + s.calls
    {
      if ids == [] {
        return 0, details;
      }
      var existing, lookup := BuildEntryLookup(es);
      n, details' := DeleteEach(ids, lookup, details);
    }

    /** The deletion loop of `_handle_deletions`, with `_add_deletion_details` for each success. */
    method DeleteEach(ids: seq<string>, lookup: map<string, SolidtimeEntry>, details: WorklogDetails)
      returns (n: nat, details': WorklogDetails)
      modifies this
      ensures n == |Deleted(api, ids)|
      ensures details' == details.(deleted := details.deleted + DeletionDetails(Deleted(api, ids), lookup))
      ensures calls == old(calls) + DeleteCalls(ids)
    {
      n := 0;
      var deleted: seq<DeletedDetail> := [];
      ghost var dels: seq<string> := [];
      var i := 0;
      while i < |ids|
        invariant 0 <= i <= |ids|
        invariant dels == Deleted(api, ids[..i]) && n == |dels|
        invariant deleted == DeletionDetails(dels, lookup)
        invariant calls == old(calls) + DeleteCalls(ids[..i])
      {
        var entryId := ids[i];
        DeletedStep(api, ids, i);
        LogStep(old(calls), DeleteCalls(ids[..i]), DeleteEntry(entryId));
        calls := calls + [DeleteEntry(entryId)];
        if DeleteSucceeds(api, entryId) {
          n := n + 1;
          DeletionDetailsSnoc(dels, entryId, lookup);
          if entryId in lookup {
            deleted := deleted + [DeletionDetail(lookup[entryId].description)];
          }
          dels := dels + [entryId];
        }
        i := i + 1;
      }
      assert ids[..i] == ids;
      details' := details.(deleted := details.deleted + deleted);
    }

    /** `_get_solidtime_mappings` */
    method GetSolidtimeMappings() returns (member: string, pm: map<string, string>)
      modifies this
      ensures member == MemberId(api.memberships, api.organizationId)
      ensures pm == ProjectMapping(api.projects)
      ensures calls == old(calls) + [GetMemberships, GetProjects]
    {
      calls := calls + [GetMemberships];
      var ms := api.memberships;
      member := "";
      var i := 0;
      var found := false;
      while i < |ms| && !found
        invariant 0 <= i <= |ms|
        invariant !found ==> member == "" && MemberId(ms[i..], api.organizationId) == MemberId(ms, api.organizationId)
        invariant found ==> member == MemberId(ms, api.organizationId)
      {
        assert ms[i..][1..] == ms[i + 1..];
        if ms[i].organizationId == Some(api.organizationId) {
          member := ms[i].id;
          found := true;
        }
        i := i + 1;
      }
      calls := calls + [GetProjects];
      var ps := api.projects;
      pm := map[];
      i := 0;
      while i < |ps|
        invariant 0 <= i <= |ps|
        invariant pm == ProjectMapping(ps[..i])
      {
        assert ps[..i + 1][..i] == ps[..i];
        if ps[i].id != "" {
          pm := pm[ps[i].name := ps[i].id];
        }
        i := i + 1;
      }
      assert ps[..i] == ps;
    }

    /** `_convert_worklogs_to_time_entries`: the worklogs whose conversion raises are skipped. */
    method ConvertWorklogsToTimeEntries(mapped: seq<MappedWorklog>, pm: map<string, string>, member: string)
      returns (entries: seq<TimeEntry>)
      ensures entries == Converted(api, mapped, pm, member)
    {
      entries := [];
      var i := 0;
      while i < |mapped|
        invariant 0 <= i <= |mapped|
        invariant entries == Converted(api, mapped[..i], pm, member)
      {
        assert mapped[..i + 1][..i] == mapped[..i];
        var converted := api.convert(mapped[i], pm, member);
        if converted.Some? {
          entries := entries + [converted.value];
        }
        i := i + 1;
      }
      assert mapped[..i] == mapped;
    }

    /** `_process_creation_results`: the `i`-th result is paired with the `i`-th worklog to create. */
    method ProcessCreationResults(rs: seq<CreateResult>, ws: seq<TempoWorklog>, details: WorklogDetails)
      returns (details': WorklogDetails)
      requires Valid()
      modifies comparator.store
      ensures Valid()
      ensures comparator.store.mappings == Recorded(old(comparator.store.mappings), rs, ws, now)
      ensures details' == details.(created := details.created + CreatedDetails(rs, ws))
    {
      ghost var t := comparator.store.mappings;
      details' := details;
      var i := 0;
      while i < |rs|
        invariant 0 <= i <= |rs|
        invariant Valid()
        invariant comparator.store.mappings == Recorded(t, rs[..i], ws, now)
        invariant details' == details.(created := details.created + CreatedDetails(rs[..i], ws))
      {
        assert rs[..i + 1][..i] == rs[..i];
        CreatedDetailsStep(rs, ws, i);
        RecordedStep(t, rs, ws, now, i);
        var r := rs[i];
        if r.success && i < |ws| {
          var newEntryId := r.newId;
          if newEntryId != "" {
            comparator.AddWorklogMapping(ws[i], newEntryId, Some(now));
            details' := details'.(created := details'.created + [CreatedDetailOf(ws[i])]);
            assert details.created + CreatedDetails(rs[..i], ws) + [CreatedDetailOf(ws[i])]
              == details.created + (CreatedDetails(rs[..i], ws) + [CreatedDetailOf(ws[i])]);
          }
        }
        i := i + 1;
      }
      assert rs[..i] == rs;
    }

    /** `_handle_creations` */
    method HandleCreations(ws: seq<TempoWorklog>, details: WorklogDetails) returns (n: nat, details': WorklogDetails)
      requires Valid()
      modifies this, comparator.store
      ensures Valid()
      ensures var s := Creations(api, rules, now, old(comparator.store.mappings), ws, details);
        n == s.count && comparator.store.mappings == s.table && details' == s.details
        && calls == old(calls) + s.calls
    {
      if ws == [] {
        return 0, details;
      }
      var mapped := MapMultipleWorklogs(rules, ws);
      var member, pm := GetSolidtimeMappings();
      if member == "" {
        return 0, details;
      }
      var entries := ConvertWorklogsToTimeEntries(mapped, pm, member);
      if entries == [] {
        return 0, details;
      }
      calls := calls + [BulkCreate(entries)];
      var rs := api.bulkCreate(entries);
      n := Successes(rs);
      details' := ProcessCreationResults(rs, ws, details);
    }

    /**
      * `_update_mapping_and_details`, for the worklog the update loop is at: both stamps
      * are written into its row and its flag is cleared.
      */
    method UpdateMappingAndDetails(w: TempoWorklog, existing: SolidtimeEntry, details: WorklogDetails)
      returns (details': WorklogDetails)
      requires Valid() && IdText(w) in comparator.store.mappings.entries
      modifies comparator.store
      ensures Valid()
      ensures comparator.store.mappings == Touched(old(comparator.store.mappings), w, now)
      ensures details' == details.(updated := details.updated + [UpdatedDetailOf(w, existing)])
    {
      var store := comparator.store;
      var tid := IdText(w);
      store.mappings := store.mappings.Put(tid, store.mappings.entries[tid].(tempoUpdatedAt := w.updatedAt,
                                                                          solidtimeUpdatedAt := Some(now)));
      store.ClearUpdateFlag(tid);
      var formatted := Tagged(w.issue.key, DescriptionText(w), IdText(w));
      var changed := existing.description != formatted;
      var display := if changed then "* " + formatted else formatted;
      details' := details.(updated := details.updated + [UpdatedDetail(w.issue.key, SummaryOr(w.issue), display, changed)]);
    }

    /** `_update_single_entry` */
    method UpdateSingleEntry(w: TempoWorklog, entryId: string, existing: map<string, SolidtimeEntry>,
                             pm: map<string, string>, member: string, details: WorklogDetails)
      returns (ok: bool, details': WorklogDetails)
      requires Valid()
      modifies this, comparator.store
      ensures Valid()
      ensures var s := UpdateOne(api, rules, now, old(comparator.store.mappings), w, entryId, existing, pm, member, details);
        (ok <==> s.count == 1) && comparator.store.mappings == s.table && details' == s.details
        && calls == old(calls) + s.calls
    {
      if entryId !in existing {
        return false, details;
      }
      var e := existing[entryId];
      var mapped := MapTempoWorklog(rules, w);
      if mapped.None? {
        return false, details;
      }
      var converted := api.convert(mapped.value, pm, member);
      if converted.None? {
        return false, details;
      }
      var data := converted.value.(description := Tagged(w.issue.key, DescriptionText(w), IdText(w)));
      if e.projectId != "" {
        data := data.(projectId := e.projectId);
      }
      if e.taskId != "" {
        data := data.(taskId := e.taskId);
      }
      calls := calls + [UpdateEntry(entryId, data)];
      if !api.updateOk(entryId, data) {
        return false, details;
      }
      if IdText(w) !in comparator.store.mappings.entries {
        return false, details;
      }
      details' := UpdateMappingAndDetails(w, e, details);
      ok := true;
    }

    /** `_handle_updates` (the save to disk at its end is left out) */
    method HandleUpdates(ws: seq<TempoWorklog>, ids: seq<string>, es: seq<SolidtimeEntry>, details: WorklogDetails)
      returns (n: nat, details': WorklogDetails)
      requires Valid()
      modifies this, comparator.store
      ensures Valid()
      ensures var s := Updates(api, rules, now, old(comparator.store.mappings), ws, ids, es, details);
        n == s.count && comparator.store.mappings == s.table && details' == s.details
        && calls == old(calls) + s.calls
    {
      if ws == [] || ids == [] {
        return 0, details;
      }
      var member, pm := GetSolidtimeMappings();
      if member == "" {
        return 0, details;
      }
      var ids', existing := BuildEntryLookup(es);
      ghost var c0 := calls;
      ghost var s := UpdateAll(api, rules, now, comparator.store.mappings, ws, ids, existing, pm, member, details);
      n, details' := UpdateEach(ws, ids, existing, pm, member, details);
      LogAppend(old(calls), [GetMemberships, GetProjects], s.calls);
    }

    /** The update loop of `_handle_updates`. */
    method UpdateEach(ws: seq<TempoWorklog>, ids: seq<string>, existing: map<string, SolidtimeEntry>,
                      pm: map<string, string>, member: string, details: WorklogDetails)
      returns (n: nat, details': WorklogDetails)
      requires Valid()
      modifies this, comparator.store
      ensures Valid()
      ensures var s := UpdateAll(api, rules, now, old(comparator.store.mappings), ws, ids, existing, pm, member, details);
        n == s.count && comparator.store.mappings == s.table && details' == s.details
        && calls == old(calls) + s.calls
    {
      ghost var t := comparator.store.mappings;
      n, details' := 0, details;
      ghost var done := Step(0, t, details, []);
      var i := 0;
      while i < |ws|
        invariant 0 <= i <= |ws|
        invariant Valid()
        invariant done == UpdateAll(api, rules, now, t, ws[..i], ids, existing, pm, member, details)
        invariant n == done.count && comparator.store.mappings == done.table && details' == done.details
        invariant calls == old(calls) + done.calls
      {
        if i < |ids| {
          ghost var o := UpdateOne(api, rules, now, done.table, ws[i], ids[i], existing, pm, member, done.details);
          UpdateAllStep(api, rules, now, t, ws, i, ids, existing, pm, member, details, done, o);
          LogAppend(old(calls), done.calls, o.calls);
          var ok, d := UpdateSingleEntry(ws[i], ids[i], existing, pm, member, details');
          details' := d;
          if ok {
            n := n + 1;
          }
          done := Step(done.count + o.count, o.table, o.details, done.calls + o.calls);
        } else {
          UpdateAllPast(api, rules, now, t, ws, i, ids, existing, pm, member, details);
        }
        i := i + 1;
      }
      assert ws[..i] == ws;
    }

    /** `_execute_sync_operations` */
    method ExecuteSyncOperations(toCreate: seq<TempoWorklog>, toUpdate: seq<TempoWorklog>, toDelete: seq<string>,
                                 updateIds: seq<string>, es: seq<SolidtimeEntry>, details: WorklogDetails)
      returns (successfulCreates: nat, successfulUpdates: nat, successfulDeletes: nat, details': WorklogDetails)
      requires Valid()
      modifies this, comparator.store
      ensures Valid()
      ensures var x := Execute(api, rules, now, old(comparator.store.mappings), toCreate, toUpdate, toDelete, updateIds, es, details);
        successfulCreates == x.successfulCreates && successfulUpdates == x.successfulUpdates
        && successfulDeletes == x.successfulDeletes && comparator.store.mappings == x.table
        && details' == x.details && calls == old(calls) + x.calls
    {
      ghost var t := comparator.store.mappings;
      ghost var del := Deletions(api, t, toDelete, es, details);
      var d1, d2: WorklogDetails;
      successfulCreates, d1 := HandleDeletions(toDelete, es, details);
      ghost var cre := Creations(api, rules, now, t, toCreate, del.details);
      successfulUpdates, d2 := HandleCreations(toCreate, d1);
      ghost var upd := Updates(api, rules, now, cre.table, toUpdate, updateIds, es, cre.details);
      successfulDeletes, details' := HandleUpdates(toUpdate, updateIds, es, d2);
      LogAssoc(old(calls), del.calls, cre.calls, upd.calls);
    }

    /** `sync_worklogs` (the metrics export and the progress display are left out) */
    method SyncWorklogs(request: SyncRequest, filterUser: Option<string>) returns (result: SyncResult)
      requires Valid()
      modifies this, comparator.store
      ensures Valid()
      ensures var r := SyncRun(api, rules, now, old(comparator.store.mappings), request, filterUser);
        result == r.result && comparator.store.mappings == r.table && calls == old(calls) + r.calls
    {
      ghost var t := comparator.store.mappings;
      calls := calls + [FetchTempo(request, filterUser)];
      var ws := TempoFetch(api, request, filterUser);
      if ws == [] {
        SyncRunNothingFetched(api, rules, now, t, request, filterUser);
        return Empty();
      }
      calls := calls + [FetchSolidtime(request)];
      var es := SolidtimeFetch(api, request);
      var plan := comparator.DetailedWorklogSyncPlan(ws, es);
      ghost var t' := comparator.store.mappings;
      ghost var a := AfterPlan(api, rules, now, t', ws, es, plan, request.dryRun);
      SyncRunPlanned(api, rules, now, t, request, filterUser, t', plan, a);
      var changes := plan.stats.worklogsToCreate + plan.stats.worklogsToUpdate + plan.stats.entriesToDelete;
      var resultData := SyncResult(|ws|, changes, plan.stats.worklogsToCreate, plan.stats.worklogsToUpdate,
                                   plan.stats.entriesToDelete, NoDetails());
      assert resultData == Planned(ws, plan);
      if request.dryRun || changes == 0 {
        AfterPlanIdle(api, rules, now, t', ws, es, plan, request.dryRun);
        LogAssoc(old(calls), [FetchTempo(request, filterUser)], [FetchSolidtime(request)], []);
        assert a == Run(resultData, comparator.store.mappings, []);
        return resultData;
      }
      ghost var x := Execute(api, rules, now, t', plan.toCreate, plan.toUpdate, plan.toDelete, plan.updateIds, es,
                             NoDetails());
      AfterPlanExecuted(api, rules, now, t', ws, es, plan, request.dryRun, x);
      var c, u, d, details := ExecuteSyncOperations(plan.toCreate, plan.toUpdate, plan.toDelete, plan.updateIds,
                                                    es, resultData.worklogDetails);
      LogAssoc(old(calls), [FetchTempo(request, filterUser)], [FetchSolidtime(request)], x.calls);
      result := resultData.(created := c, updated := u, deleted := d, worklogDetails := details);
      assert a == Run(result, comparator.store.mappings, x.calls);
    }
  }
}
