/**
  * Properties of a whole `SyncService` run and of its three handlers: what an empty
  * fetch and a dry run do, which counts the result reports under which names, the
  * order of the client calls, and how creation results and update ids are paired.
  */
module SyncServiceLaws {
  import opened Wrappers
  import opened Text
  import opened Dicts
  import opened Records
  import opened FieldMapper
  import opened WorklogStore
  import opened Planner
  import opened Models
  import opened SyncService

  // ---------------------------------------------------------------------------------
  // A run

  /**
    * A dry run, or a plan without changes, reports the planned counts and makes no call
    * after the two fetches; `changes` is the sum of the planned creates, updates and
    * deletes.
    */
  lemma IdleRunWritesNothing(api: Api, rules: Rules, now: string, t: Table, request: SyncRequest,
                             filterUser: Option<string>)
    requires t.Valid()
    requires TempoFetch(api, request, filterUser) != []
    requires var ws := TempoFetch(api, request, filterUser);
      request.dryRun || Planned(ws, DetailedPlan(t, ws, SolidtimeFetch(api, request))).changes == 0
    ensures var ws := TempoFetch(api, request, filterUser);
      var es := SolidtimeFetch(api, request);
      var plan := DetailedPlan(t, ws, es);
      var r := SyncRun(api, rules, now, t, request, filterUser);
      r.result == Planned(ws, plan) && r.table == PlanTable(t, ws, es)
      && r.calls == [FetchTempo(request, filterUser), FetchSolidtime(request)]
      && r.result.changes == plan.stats.worklogsToCreate + plan.stats.worklogsToUpdate + plan.stats.entriesToDelete
  {
    var ws := TempoFetch(api, request, filterUser);
    var es := SolidtimeFetch(api, request);
    var t' := PlanTable(t, ws, es);
    var plan := PlanB(t', ws, es);
    var a := AfterPlan(api, rules, now, t', ws, es, plan, request.dryRun);
    SyncRunPlanned(api, rules, now, t, request, filterUser, t', plan, a);
    AfterPlanIdle(api, rules, now, t', ws, es, plan, request.dryRun);
    assert [FetchTempo(request, filterUser)] + [FetchSolidtime(request)] + [] == [FetchTempo(request, filterUser), FetchSolidtime(request)];
  }

  /**
    * When the operations run, the result reports the success counts under swapped
    * names: `created` is the number of successful deletions, `updated` the number of
    * successful creations and `deleted` the number of successful updates.
    */
  lemma CountsAreSwapped(api: Api, rules: Rules, now: string, t: Table, request: SyncRequest,
                         filterUser: Option<string>)
    requires t.Valid()
    requires TempoFetch(api, request, filterUser) != [] && !request.dryRun
    requires var ws := TempoFetch(api, request, filterUser);
      Planned(ws, DetailedPlan(t, ws, SolidtimeFetch(api, request))).changes != 0
    ensures var ws := TempoFetch(api, request, filterUser);
      var es := SolidtimeFetch(api, request);
      var t' := PlanTable(t, ws, es);
      var plan := PlanB(t', ws, es);
      var del := Deletions(api, t', plan.toDelete, es, NoDetails());
      var cre := Creations(api, rules, now, t', plan.toCreate, del.details);
      var upd := Updates(api, rules, now, cre.table, plan.toUpdate, plan.updateIds, es, cre.details);
      var r := SyncRun(api, rules, now, t, request, filterUser);
      r.result.created == |Deleted(api, plan.toDelete)|
      && r.result.updated == cre.count
      && r.result.deleted == upd.count
      && r.result.totalEntries == |ws|
      && r.table == upd.table
      && r.calls == [FetchTempo(request, filterUser), FetchSolidtime(request)] + (del.calls + cre.calls + upd.calls)
  {
    var ws := TempoFetch(api, request, filterUser);
    var es := SolidtimeFetch(api, request);
    var t' := PlanTable(t, ws, es);
    var plan := PlanB(t', ws, es);
    SyncRunExecutes(api, rules, now, t, request, filterUser, t', plan);
    ExecuteInOrder(api, rules, now, t', plan.toCreate, plan.toUpdate, plan.toDelete, plan.updateIds, es);
  }

  /** A run that fetched worklogs and has changes to make executes its plan on the planned table. */
  lemma SyncRunExecutes(api: Api, rules: Rules, now: string, t: Table, request: SyncRequest,
                        filterUser: Option<string>, t': Table, plan: WorklogPlan)
    requires t.Valid()
    requires TempoFetch(api, request, filterUser) != [] && !request.dryRun
    requires t' == PlanTable(t, TempoFetch(api, request, filterUser), SolidtimeFetch(api, request))
    requires plan == PlanB(t', TempoFetch(api, request, filterUser), SolidtimeFetch(api, request))
    requires Planned(TempoFetch(api, request, filterUser), plan).changes != 0
    ensures var x := Execute(api, rules, now, t', plan.toCreate, plan.toUpdate, plan.toDelete, plan.updateIds,
                             SolidtimeFetch(api, request), NoDetails());
      var r := SyncRun(api, rules, now, t, request, filterUser);
      r.result == Planned(TempoFetch(api, request, filterUser), plan).(created := x.successfulCreates,
                    updated := x.successfulUpdates, deleted := x.successfulDeletes, worklogDetails := x.details)
      && r.table == x.table
      && r.calls == [FetchTempo(request, filterUser), FetchSolidtime(request)] + x.calls
  {
    var ws := TempoFetch(api, request, filterUser);
    var es := SolidtimeFetch(api, request);
    var a := AfterPlan(api, rules, now, t', ws, es, plan, request.dryRun);
    SyncRunPlanned(api, rules, now, t, request, filterUser, t', plan, a);
    var x := Execute(api, rules, now, t', plan.toCreate, plan.toUpdate, plan.toDelete, plan.updateIds, es, NoDetails());
    AfterPlanExecuted(api, rules, now, t', ws, es, plan, request.dryRun, x);
    assert [FetchTempo(request, filterUser)] + [FetchSolidtime(request)] == [FetchTempo(request, filterUser), FetchSolidtime(request)];
  }

  /** The three operations of a run, deletions first, each on what the one before left. */
  lemma ExecuteInOrder(api: Api, rules: Rules, now: string, t: Table, toCreate: seq<TempoWorklog>,
                       toUpdate: seq<TempoWorklog>, toDelete: seq<string>, updateIds: seq<string>,
                       es: seq<SolidtimeEntry>)
    requires t.Valid()
    ensures var del := Deletions(api, t, toDelete, es, NoDetails());
      var cre := Creations(api, rules, now, t, toCreate, del.details);
      var upd := Updates(api, rules, now, cre.table, toUpdate, updateIds, es, cre.details);
      Execute(api, rules, now, t, toCreate, toUpdate, toDelete, updateIds, es, NoDetails())
        == Executed(del.count, cre.count, upd.count, upd.table, upd.details, del.calls + cre.calls + upd.calls)
  {
  }

  /** One successful deletion and nothing else: reported as one creation, no deletion. */
  lemma OneDeletionReportsOneCreation(api: Api, rules: Rules, now: string, t: Table)
    requires t.Valid() && api.deleteOk("e1")
    ensures var x := Execute(api, rules, now, t, [], [], ["e1"], [], [], NoDetails());
      x.successfulCreates == 1 && x.successfulUpdates == 0 && x.successfulDeletes == 0
      && x.calls == [DeleteEntry("e1")]
  {
    var ids := ["e1"];
    ExecuteInOrder(api, rules, now, t, [], [], ids, [], []);
    assert ids[..0] == [];
    assert Deleted(api, ids) == ["e1"];
    assert DeleteCalls(ids) == [DeleteEntry("e1")];
  }

  // ---------------------------------------------------------------------------------
  // The order of the calls

  /** The calls `_handle_creations` can make. */
  predicate CreationCall(c: Call) {
    c.GetMemberships? || c.GetProjects? || c.BulkCreate?
  }

  /** The calls `_handle_updates` can make. */
  predicate UpdateCall(c: Call) {
    c.GetMemberships? || c.GetProjects? || c.UpdateEntry?
  }

  lemma CreationsCalls(api: Api, rules: Rules, now: string, t: Table, ws: seq<TempoWorklog>, d: WorklogDetails)
    requires t.Valid()
    ensures forall c :: c in Creations(api, rules, now, t, ws, d).calls ==> CreationCall(c)
  {
  }

  /**
    * Every call of the update loop is an update of one of the entry ids paired with a
    * worklog: the `i`-th id, for an `i` below both lengths.
    */
  lemma {:induction false} UpdateAllCalls(api: Api, rules: Rules, now: string, t: Table, ws: seq<TempoWorklog>,
                                          ids: seq<string>, existing: map<string, SolidtimeEntry>,
                                          pm: map<string, string>, member: string, d: WorklogDetails)
    requires t.Valid()
    ensures forall c :: c in UpdateAll(api, rules, now, t, ws, ids, existing, pm, member, d).calls ==>
      c.UpdateEntry? && exists i :: 0 <= i < |ws| && i < |ids| && c.entryId == ids[i]
    decreases |ws|
  {
    if ws != [] {
      var i := |ws| - 1;
      var p := UpdateAll(api, rules, now, t, ws[..i], ids, existing, pm, member, d);
      UpdateAllCalls(api, rules, now, t, ws[..i], ids, existing, pm, member, d);
      if i < |ids| {
        var o := UpdateOne(api, rules, now, p.table, ws[i], ids[i], existing, pm, member, p.details);
        assert UpdateAll(api, rules, now, t, ws, ids, existing, pm, member, d).calls == p.calls + o.calls;
        UpdateCallsAppend(p.calls, o.calls, ids, i, |ws|);
      } else {
        assert UpdateAll(api, rules, now, t, ws, ids, existing, pm, member, d) == p;
      }
    }
  }

  /** The calls of one more turn of the update loop: at most one update, of the turn's own id. */
  lemma UpdateCallsAppend(before: seq<Call>, turn: seq<Call>, ids: seq<string>, i: nat, n: nat)
    requires i < |ids| && n == i + 1
    requires forall c :: c in before ==> c.UpdateEntry? && exists j :: 0 <= j < i && j < |ids| && c.entryId == ids[j]
    requires turn == [] || (|turn| == 1 && turn[0].UpdateEntry? && turn[0].entryId == ids[i])
    ensures forall c :: c in before + turn ==> c.UpdateEntry? && exists j :: 0 <= j < n && j < |ids| && c.entryId == ids[j]
  {
    forall c | c in before + turn
      ensures c.UpdateEntry? && exists j :: 0 <= j < n && j < |ids| && c.entryId == ids[j]
    {
      if c in before {
        var j :| 0 <= j < i && j < |ids| && c.entryId == ids[j];
      } else {
        assert c == turn[0];
      }
    }
  }

  lemma UpdatesCalls(api: Api, rules: Rules, now: string, t: Table, ws: seq<TempoWorklog>, ids: seq<string>,
                     es: seq<SolidtimeEntry>, d: WorklogDetails)
    requires t.Valid()
    ensures forall c :: c in Updates(api, rules, now, t, ws, ids, es, d).calls ==> UpdateCall(c)
  {
    if ws != [] && ids != [] {
      var member := MemberId(api.memberships, api.organizationId);
      if member != "" {
        UpdateAllCalls(api, rules, now, t, ws, ids, EntryLookup(es), ProjectMapping(api.projects), member, d);
      }
    }
  }

  /**
    * `_execute_sync_operations` runs deletions, then creations, then updates: no
    * deletion follows any other call, and no create call follows an update.
    */
  lemma ExecutionOrder(api: Api, rules: Rules, now: string, t: Table, toCreate: seq<TempoWorklog>,
                       toUpdate: seq<TempoWorklog>, toDelete: seq<string>, updateIds: seq<string>,
                       es: seq<SolidtimeEntry>, d: WorklogDetails)
    requires t.Valid()
    ensures var x := Execute(api, rules, now, t, toCreate, toUpdate, toDelete, updateIds, es, d);
      (forall i, j :: 0 <= i < j < |x.calls| && x.calls[j].DeleteEntry? ==> x.calls[i].DeleteEntry?)
      && (forall i, j :: 0 <= i < j < |x.calls| && x.calls[i].UpdateEntry? ==> !x.calls[j].BulkCreate?)
  {
    var del := Deletions(api, t, toDelete, es, d);
    var cre := Creations(api, rules, now, del.table, toCreate, del.details);
    var upd := Updates(api, rules, now, cre.table, toUpdate, updateIds, es, cre.details);
    CreationsCalls(api, rules, now, del.table, toCreate, del.details);
    UpdatesCalls(api, rules, now, cre.table, toUpdate, updateIds, es, cre.details);
    assert forall k :: 0 <= k < |del.calls| ==> del.calls[k].DeleteEntry?;
    PhasesInOrder(del.calls, cre.calls, upd.calls);
  }

  /** Deletions, then creation calls, then update calls: the two ordering facts. */
  lemma PhasesInOrder(a: seq<Call>, b: seq<Call>, c: seq<Call>)
    requires forall k :: 0 <= k < |a| ==> a[k].DeleteEntry?
    requires forall x :: x in b ==> CreationCall(x)
    requires forall x :: x in c ==> UpdateCall(x)
    ensures var calls := a + b + c;
      (forall i, j :: 0 <= i < j < |calls| && calls[j].DeleteEntry? ==> calls[i].DeleteEntry?)
      && (forall i, j :: 0 <= i < j < |calls| && calls[i].UpdateEntry? ==> !calls[j].BulkCreate?)
  {
    var calls := a + b + c;
    var n1, n2 := |a|, |a| + |b|;
    forall k | n1 <= k < |calls| ensures !calls[k].DeleteEntry? {
      if k < n2 {
        assert calls[k] == b[k - n1];
        assert b[k - n1] in b;
      } else {
        assert calls[k] == c[k - n2];
        assert c[k - n2] in c;
      }
    }
    forall k | 0 <= k < n2 ensures !calls[k].UpdateEntry? {
      if k >= n1 {
        assert calls[k] == b[k - n1];
        assert b[k - n1] in b;
      } else {
        assert calls[k] == a[k];
      }
    }
    forall k | n2 <= k < |calls| ensures !calls[k].BulkCreate? {
      assert calls[k] == c[k - n2];
      assert c[k - n2] in c;
    }
  }

  // ---------------------------------------------------------------------------------
  // Creations

  /** Without a member id, or with nothing that converts, no create call is made. */
  lemma NoCreateWithoutMemberOrEntries(api: Api, rules: Rules, now: string, t: Table, ws: seq<TempoWorklog>,
                                       d: WorklogDetails)
    requires t.Valid()
    requires var member := MemberId(api.memberships, api.organizationId);
      member == "" || Converted(api, MapAll(rules, ws), ProjectMapping(api.projects), member) == []
    ensures var s := Creations(api, rules, now, t, ws, d);
      s.count == 0 && s.table == t && s.details == d && forall c :: c in s.calls ==> !c.BulkCreate?
  {
  }

  /**
    * A row is written back only for a result that succeeded with an id, under the id
    * of the worklog at the same position; no row is removed.
    */
  lemma {:induction false} RecordedOnlyFromWrites(t: Table, rs: seq<CreateResult>, ws: seq<TempoWorklog>, now: string)
    requires t.Valid()
    ensures t.Keys() <= Recorded(t, rs, ws, now).Keys()
    ensures forall k :: k in Recorded(t, rs, ws, now).entries ==>
      k in t.entries || exists i :: 0 <= i < |rs| && Writes(rs[i], i, ws) && IdText(ws[i]) == k
    decreases |rs|
  {
    if rs != [] {
      var i := |rs| - 1;
      var init := rs[..i];
      RecordedOnlyFromWrites(t, init, ws, now);
      var p := Recorded(t, init, ws, now);
      var r := Recorded(t, rs, ws, now);
      forall k | k in r.entries
        ensures k in t.entries || exists j :: 0 <= j < |rs| && Writes(rs[j], j, ws) && IdText(ws[j]) == k
      {
        if k in p.entries && k !in t.entries {
          var j :| 0 <= j < |init| && Writes(init[j], j, ws) && IdText(ws[j]) == k;
          assert rs[j] == init[j];
        }
      }
    }
  }

  /** A row no written-back result names is left as it was. */
  lemma {:induction false} RecordedKeepsOthers(t: Table, rs: seq<CreateResult>, ws: seq<TempoWorklog>, now: string,
                                               k: string)
    requires t.Valid() && k in t.entries
    requires forall i :: 0 <= i < |rs| && Writes(rs[i], i, ws) ==> IdText(ws[i]) != k
    ensures k in Recorded(t, rs, ws, now).entries && Recorded(t, rs, ws, now).entries[k] == t.entries[k]
    decreases |rs|
  {
    if rs != [] {
      var i := |rs| - 1;
      var init := rs[..i];
      assert forall j :: 0 <= j < |init| ==> init[j] == rs[j];
      RecordedKeepsOthers(t, init, ws, now, k);
    }
  }

  /**
    * Results are paired with the worklogs to create by position, although the mapper
    * drops the worklogs it cannot map: when the first of two worklogs has a `null`
    * description only the second is sent, yet the entry created for it is recorded
    * under the first worklog's id.
    */
  lemma CreationPairsByPosition(rules: Rules, now: string)
    ensures var issue := Issue(None, "AS-1", Some("Fix login"), "AS", "Task", []);
      var w1 := TempoWorklog(Some(1), issue, "", 600, 0, "", None, None, None);
      var w2 := TempoWorklog(Some(2), issue, "", 600, 0, "", None, Some("Review"), None);
      var r := Recorded(Dict([], map[]), [CreateResult(true, "e2")], [w1, w2], now);
      |MapAll(rules, [w1, w2])| == 1
      && IdText(w1) in r.entries && r.entries[IdText(w1)].solidtimeEntryId == "e2"
      && IdText(w2) !in r.entries
  {
    var issue := Issue(None, "AS-1", Some("Fix login"), "AS", "Task", []);
    var w1 := TempoWorklog(Some(1), issue, "", 600, 0, "", None, None, None);
    var w2 := TempoWorklog(Some(2), issue, "", 600, 0, "", None, Some("Review"), None);
    MapsOnlySecond(rules, w1, w2);
    RecordedUnderFirst(now, w1, w2);
  }

  /** Of a worklog without a description and one with, the mapper keeps only the second. */
  lemma MapsOnlySecond(rules: Rules, w1: TempoWorklog, w2: TempoWorklog)
    requires w1.description.None? && w2.description.Some?
    ensures |MapAll(rules, [w1, w2])| == 1
  {
    var ws := [w1, w2];
    assert ws[..1] == [w1] && [w1][..0] == [];
    assert MapAll(rules, [w1]) == [];
  }

  /** One successful result for two worklogs is recorded under the first worklog's id. */
  lemma RecordedUnderFirst(now: string, w1: TempoWorklog, w2: TempoWorklog)
    requires w1.tempoWorklogId == Some(1) && w2.tempoWorklogId == Some(2) && w1.issue.key != ""
    ensures var r := Recorded(Dict([], map[]), [CreateResult(true, "e2")], [w1, w2], now);
      IdText(w1) in r.entries && r.entries[IdText(w1)].solidtimeEntryId == "e2"
      && IdText(w2) !in r.entries
  {
    assert IdText(w1) != IdText(w2) by {
      ParseIntOfIntToString(1);
      ParseIntOfIntToString(2);
    }
    var t: Table := Dict([], map[]);
    var rs := [CreateResult(true, "e2")];
    assert rs[..0] == [];
    assert Recorded(t, rs, [w1, w2], now) == RecordSync(t, w1, "e2", Some(now));
  }

  // ---------------------------------------------------------------------------------
  // Updates

  /** An entry id with no fetched entry is skipped without a call. */
  lemma UnfetchedEntryNotUpdated(api: Api, rules: Rules, now: string, t: Table, w: TempoWorklog, entryId: string,
                                 existing: map<string, SolidtimeEntry>, pm: map<string, string>, member: string,
                                 d: WorklogDetails)
    requires t.Valid() && entryId !in existing
    ensures UpdateOne(api, rules, now, t, w, entryId, existing, pm, member, d) == Step(0, t, d, [])
  {
  }

  /** A successful update clears the row's flag and writes both stamps, nothing else. */
  lemma UpdateClearsFlag(api: Api, rules: Rules, now: string, t: Table, w: TempoWorklog, entryId: string,
                         existing: map<string, SolidtimeEntry>, pm: map<string, string>, member: string,
                         d: WorklogDetails)
    requires t.Valid()
    requires UpdateOne(api, rules, now, t, w, entryId, existing, pm, member, d).count == 1
    ensures var r := UpdateOne(api, rules, now, t, w, entryId, existing, pm, member, d).table;
      IdText(w) in r.entries && !Flag(r.entries[IdText(w)])
      && r.entries[IdText(w)].tempoUpdatedAt == w.updatedAt
      && r.entries[IdText(w)].solidtimeUpdatedAt == Some(now)
      && r.entries[IdText(w)].solidtimeEntryId == t.entries[IdText(w)].solidtimeEntryId
      && forall k :: k in t.entries && k != IdText(w) ==> r.entries[k] == t.entries[k]
  {
  }
}
