/**
  * The first-generation, issue-level comparison of `IssueComparator`: Tempo worklogs
  * and tagged Solidtime entries grouped by issue key, the per-issue change test, the
  * plan that classifies changed issues, and the per-worklog "missing" search.
  */
module IssueLevel {
  import opened Wrappers
  import opened Text
  import opened Dicts
  import opened Records
  import opened Markers

  /** A Tempo issue group; `lastUpdated` is `""` while no worklog had an `updatedAt`. */
  datatype TempoGroup = TempoGroup(worklogs: seq<TempoWorklog>, totalMinutes: int, count: nat, lastUpdated: string)

  datatype SolidGroup = SolidGroup(entries: seq<SolidtimeEntry>, totalMinutes: int, count: nat)

  const EmptyTempoGroup := TempoGroup([], 0, 0, "")
  const EmptySolidGroup := SolidGroup([], 0, 0)

  /** `seconds // 60`: Dafny's division by a positive divisor already rounds down. */
  function Minutes(seconds: int): int {
    seconds / 60
  }

  // ---------------------------------------------------------------------------------
  // Grouping Tempo worklogs

  /** The group after adding `w` to `g`: the newest non-empty `updatedAt` wins. */
  function AddToTempoGroup(g: TempoGroup, w: TempoWorklog): TempoGroup {
    var last := if w.updatedAt != "" && (g.lastUpdated == "" || LexLess(g.lastUpdated, w.updatedAt))
                then w.updatedAt else g.lastUpdated;
    TempoGroup(g.worklogs + [w], g.totalMinutes + Minutes(w.timeSpentSeconds), g.count + 1, last)
  }

  /** The grouping after worklog `w`; a worklog without an issue key is skipped. */
  function AddWorklog(g: map<string, TempoGroup>, w: TempoWorklog): map<string, TempoGroup> {
    if w.issue.key == "" then g
    else g[w.issue.key := AddToTempoGroup(if w.issue.key in g then g[w.issue.key] else EmptyTempoGroup, w)]
  }

  /** The grouping `group_tempo_worklogs_by_issue` builds, one worklog at a time. */
  function TempoGroups(ws: seq<TempoWorklog>): (g: map<string, TempoGroup>)
    ensures ws == [] ==> g == map[]
    decreases |ws|
  {
    if ws == [] then map[] else AddWorklog(TempoGroups(ws[..|ws| - 1]), ws[|ws| - 1])
  }

  /** The worklogs of issue `k`, in order. */
  function OfIssue(ws: seq<TempoWorklog>, k: string): (r: seq<TempoWorklog>)
    ensures forall w :: w in r ==> w in ws && w.issue.key == k
    decreases |ws|
  {
    if ws == [] then []
    else OfIssue(ws[..|ws| - 1], k) + (if ws[|ws| - 1].issue.key == k then [ws[|ws| - 1]] else [])
  }

  function SumMinutes(ws: seq<TempoWorklog>): int
    decreases |ws|
  {
    if ws == [] then 0 else SumMinutes(ws[..|ws| - 1]) + Minutes(ws[|ws| - 1].timeSpentSeconds)
  }

  /** `u` is not older than any `updatedAt` of `ws`, and is one of them unless all are empty. */
  ghost predicate IsNewestStamp(u: string, ws: seq<TempoWorklog>) {
    (forall i :: 0 <= i < |ws| ==> !LexLess(u, ws[i].updatedAt))
    && (u == "" <==> forall i :: 0 <= i < |ws| ==> ws[i].updatedAt == "")
    && (u != "" ==> exists i :: 0 <= i < |ws| && ws[i].updatedAt == u)
  }

  lemma NewestStampStep(u: string, ws: seq<TempoWorklog>, w: TempoWorklog, u': string)
    requires IsNewestStamp(u, ws)
    requires u' == if w.updatedAt != "" && (u == "" || LexLess(u, w.updatedAt)) then w.updatedAt else u
    ensures IsNewestStamp(u', ws + [w])
  {
    var ws' := ws + [w];
    forall i | 0 <= i < |ws'| ensures !LexLess(u', ws'[i].updatedAt) {
      if i == |ws| {
        LexLessIrreflexive(u');
      } else {
        assert ws'[i] == ws[i];
        if u' != u {
          if u != "" && LexLess(u', ws[i].updatedAt) {
            LexLessTransitive(u, u', ws[i].updatedAt);
          }
        }
      }
    }
    if u' != "" {
      if u' == u {
        var i :| 0 <= i < |ws| && ws[i].updatedAt == u;
        assert ws'[i] == ws[i];
      } else {
        assert ws'[|ws|] == w;
      }
    }
    assert u' == "" <==> forall i :: 0 <= i < |ws'| ==> ws'[i].updatedAt == "" by {
      if u' == "" {
        forall i | 0 <= i < |ws'| ensures ws'[i].updatedAt == "" {
          if i < |ws| { assert ws'[i] == ws[i]; } else { assert ws'[i] == w; }
        }
      } else {
        assert u' != "" ==> exists i :: 0 <= i < |ws'| && ws'[i].updatedAt == u';
      }
    }
  }

  /** An issue key is present exactly when it is not empty and some worklog has it. */
  lemma {:induction false} TempoGroupsKeys(ws: seq<TempoWorklog>, k: string)
    ensures k in TempoGroups(ws) <==> k != "" && OfIssue(ws, k) != []
    decreases |ws|
  {
    if ws != [] {
      var init := ws[..|ws| - 1];
      TempoGroupsKeys(init, k);
      if OfIssue(ws, k) != OfIssue(init, k) {
        assert ws[|ws| - 1].issue.key == k;
      }
    }
  }

  /** An issue's group holds its worklogs in order, their count and the sum of their whole minutes. */
  lemma {:induction false} TempoGroupsTotals(ws: seq<TempoWorklog>, k: string)
    requires k in TempoGroups(ws)
    ensures TempoGroups(ws)[k].worklogs == OfIssue(ws, k)
    ensures TempoGroups(ws)[k].count == |OfIssue(ws, k)|
    ensures TempoGroups(ws)[k].totalMinutes == SumMinutes(OfIssue(ws, k))
    decreases |ws|
  {
    var init := ws[..|ws| - 1];
    var w := ws[|ws| - 1];
    TempoGroupsKeys(init, k);
    if w.issue.key != k {
      TempoGroupsTotals(init, k);
    } else {
      var o := OfIssue(ws, k);
      assert o[..|o| - 1] == OfIssue(init, k);
      if k in TempoGroups(init) {
        TempoGroupsTotals(init, k);
      }
    }
  }

  /** An issue's `lastUpdated` is the newest `updatedAt` of its worklogs (`""` if none has one). */
  lemma {:induction false} TempoGroupsNewest(ws: seq<TempoWorklog>, k: string)
    requires k in TempoGroups(ws)
    ensures IsNewestStamp(TempoGroups(ws)[k].lastUpdated, OfIssue(ws, k))
    decreases |ws|
  {
    var init := ws[..|ws| - 1];
    var w := ws[|ws| - 1];
    TempoGroupsKeys(init, k);
    if w.issue.key != k {
      TempoGroupsNewest(init, k);
    } else {
      assert OfIssue(ws, k) == OfIssue(init, k) + [w];
      var before := if k in TempoGroups(init) then TempoGroups(init)[k] else EmptyTempoGroup;
      if k in TempoGroups(init) {
        TempoGroupsNewest(init, k);
      }
      NewestStampStep(before.lastUpdated, OfIssue(init, k), w, TempoGroups(ws)[k].lastUpdated);
    }
  }

  /** `group_tempo_worklogs_by_issue` */
  method GroupTempoWorklogsByIssue(ws: seq<TempoWorklog>) returns (groups: map<string, TempoGroup>)
    ensures groups == TempoGroups(ws)
  {
    groups := map[];
    var i := 0;
    while i < |ws|
      invariant 0 <= i <= |ws|
      invariant groups == TempoGroups(ws[..i])
    {
      assert ws[..i + 1][..i] == ws[..i];
      var w := ws[i];
      var key := w.issue.key;
      if key != "" {
        var g := if key in groups then groups[key] else EmptyTempoGroup;
        var last := g.lastUpdated;
        if w.updatedAt != "" && (last == "" || LexLess(last, w.updatedAt)) {
          last := w.updatedAt;
        }
        groups := groups[key := TempoGroup(g.worklogs + [w], g.totalMinutes + w.timeSpentSeconds / 60, g.count + 1, last)];
      }
      i := i + 1;
    }
    assert ws[..i] == ws;
  }

  // ---------------------------------------------------------------------------------
  // Grouping Solidtime entries

  /** The issue key an entry is grouped under: tagged, and starting with an issue key. */
  function GroupKey(e: SolidtimeEntry): (r: Option<string>)
  {
    if Contains(e.description, "[JiraSync") then IssueKeyPrefix(e.description) else None
  }

  /** A group after appending entry `e`. */
  function Push(g: SolidGroup, e: SolidtimeEntry): SolidGroup {
    SolidGroup(g.entries + [e], g.totalMinutes + Minutes(e.duration), g.count + 1)
  }

  /** The grouping after entry `e`, filed under `key` when it has one. */
  function AddEntry(g: map<string, SolidGroup>, key: Option<string>, e: SolidtimeEntry): map<string, SolidGroup> {
    match key
    case None => g
    case Some(k) => g[k := Push(if k in g then g[k] else EmptySolidGroup, e)]
  }

  /** The grouping `group_solidtime_entries_by_issue` builds, one entry at a time. */
  function SolidGroups(es: seq<SolidtimeEntry>): (g: map<string, SolidGroup>)
    ensures es == [] ==> g == map[]
    decreases |es|
  {
    if es == [] then map[] else AddEntry(SolidGroups(es[..|es| - 1]), GroupKey(es[|es| - 1]), es[|es| - 1])
  }

  /** The grouped entries whose description starts with issue key `k`, in order. */
  function EntriesOfIssue(es: seq<SolidtimeEntry>, k: string): (r: seq<SolidtimeEntry>)
    ensures forall e :: e in r ==> e in es && GroupKey(e) == Some(k)
    decreases |es|
  {
    if es == [] then []
    else
      var e := es[|es| - 1];
      EntriesOfIssue(es[..|es| - 1], k)
        + (if GroupKey(e) == Some(k) then [e] else [])
  }

  function SumEntryMinutes(es: seq<SolidtimeEntry>): int
    decreases |es|
  {
    if es == [] then 0 else SumEntryMinutes(es[..|es| - 1]) + Minutes(es[|es| - 1].duration)
  }

  /**
    * Only tagged entries with an issue-key prefix are grouped: a key is present exactly
    * when such an entry has it, and its group holds those entries, their count and the
    * sum of their whole minutes.
    */
  lemma {:induction false} SolidGroupsContents(es: seq<SolidtimeEntry>, k: string)
    ensures k in SolidGroups(es) <==> EntriesOfIssue(es, k) != []
    ensures k in SolidGroups(es) ==>
      SolidGroups(es)[k].entries == EntriesOfIssue(es, k)
      && SolidGroups(es)[k].count == |EntriesOfIssue(es, k)|
      && SolidGroups(es)[k].totalMinutes == SumEntryMinutes(EntriesOfIssue(es, k))
    decreases |es|
  {
    if es != [] {
      var init := es[..|es| - 1];
      SolidGroupsContents(init, k);
      if k !in SolidGroups(init) {
        assert EntriesOfIssue(init, k) == [];
      }
      var r := EntriesOfIssue(es, k);
      if r != EntriesOfIssue(init, k) {
        assert r[..|r| - 1] == EntriesOfIssue(init, k);
      }
    }
  }

  lemma SolidGroupsStep(es: seq<SolidtimeEntry>, i: nat)
    requires i < |es|
    ensures SolidGroups(es[..i + 1]) == AddEntry(SolidGroups(es[..i]), GroupKey(es[i]), es[i])
  {
    assert es[..i + 1][..i] == es[..i];
  }

  /** `group_solidtime_entries_by_issue` */
  method GroupSolidtimeEntriesByIssue(es: seq<SolidtimeEntry>) returns (groups: map<string, SolidGroup>)
    ensures groups == SolidGroups(es)
  {
    groups := map[];
    var i := 0;
    while i < |es|
      invariant 0 <= i <= |es|
      invariant groups == SolidGroups(es[..i])
    {
      var e := es[i];
      ghost var prev := groups;
      SolidGroupsStep(es, i);
      if Contains(e.description, "[JiraSync") {
        var m := IssueKeyPrefix(e.description);
        if m.Some? {
          var key := m.value;
          var g := if key in groups then groups[key] else EmptySolidGroup;
          groups := groups[key := SolidGroup(g.entries + [e], g.totalMinutes + e.duration / 60, g.count + 1)];
          assert groups[key] == Push(g, e);
        }
        assert groups == AddEntry(prev, m, e);
      }
      assert groups == AddEntry(prev, GroupKey(e), e);
      i := i + 1;
    }
    assert es[..i] == es;
  }

  // ---------------------------------------------------------------------------------
  // Which issues to sync

  /**
    * The test for an issue on both sides: Tempo has more worklogs, or as many with
    * different minutes, or fewer while it carries an update stamp.
    */
  predicate ShouldSync(t: TempoGroup, s: SolidGroup) {
    t.count > s.count
    || (t.count == s.count && t.totalMinutes != s.totalMinutes)
    || (t.count < s.count && t.lastUpdated != "")
  }

  /** `find_issues_to_sync` */
  method FindIssuesToSync(tempo: map<string, TempoGroup>, solid: map<string, SolidGroup>) returns (r: set<string>)
    ensures forall k :: k in tempo && k !in solid ==> k in r
    ensures forall k :: k in solid && k !in tempo ==> k in r
    ensures forall k :: k in tempo && k in solid ==> (k in r <==> ShouldSync(tempo[k], solid[k]))
    ensures r <= tempo.Keys + solid.Keys
  {
    r := {};
    var todo := tempo.Keys;
    while todo != {}
      invariant todo <= tempo.Keys
      invariant r <= tempo.Keys - todo
      invariant forall k :: k in tempo.Keys - todo ==> (k in r <==> k !in solid || ShouldSync(tempo[k], solid[k]))
      decreases |todo|
    {
      var k :| k in todo;
      var t := tempo[k];
      if k in solid {
        var s := solid[k];
        var should := false;
        if t.count > s.count {
          should := true;
        } else if t.count == s.count && t.totalMinutes != s.totalMinutes {
          should := true;
        } else if t.count < s.count {
          if t.lastUpdated != "" {
            should := true;
          }
        }
        if should {
          r := r + {k};
        }
      } else {
        r := r + {k};
      }
      todo := todo - {k};
    }
    var rest := solid.Keys;
    while rest != {}
      invariant rest <= solid.Keys
      invariant forall k :: k in tempo ==> (k in r <==> k !in solid || ShouldSync(tempo[k], solid[k]))
      invariant forall k :: k in solid.Keys - rest && k !in tempo ==> k in r
      invariant r <= tempo.Keys + solid.Keys
      decreases |rest|
    {
      var k :| k in rest;
      if k !in tempo {
        r := r + {k};
      }
      rest := rest - {k};
    }
  }

  /** Identical counts and minutes never trigger a sync, whatever the stamps. */
  lemma UnchangedIssueIsNotSynced(t: TempoGroup, s: SolidGroup)
    requires t.count == s.count && t.totalMinutes == s.totalMinutes
    ensures !ShouldSync(t, s)
  {
  }

  /** A Tempo-side reduction without any update stamp is taken for a manual Solidtime edit. */
  lemma ReductionWithoutStampIsIgnored(t: TempoGroup, s: SolidGroup)
    requires t.count < s.count && t.lastUpdated == ""
    ensures !ShouldSync(t, s)
  {
  }

  // ---------------------------------------------------------------------------------
  // The issue-level plan

  datatype SyncPlan = SyncPlan(
    totalTempoIssues: nat,
    totalSolidtimeIssues: nat,
    issuesToSync: nat,
    unchangedIssues: int,
    newIssues: seq<string>,
    changedIssues: seq<string>,
    deletedIssues: seq<string>)

  /**
    * `get_sync_plan`: the issues to sync, taken in the set's (unspecified) order, split
    * into changed (on both sides), new (Tempo only) and deleted (the rest).
    */
  method GetSyncPlan(tempo: map<string, TempoGroup>, solid: map<string, SolidGroup>, toSync: set<string>)
    returns (plan: SyncPlan)
    ensures plan.totalTempoIssues == |tempo| && plan.totalSolidtimeIssues == |solid|
    ensures plan.issuesToSync == |toSync| && plan.unchangedIssues == |tempo| - |toSync|
    ensures forall k :: k in plan.changedIssues <==> k in toSync && k in tempo && k in solid
    ensures forall k :: k in plan.newIssues <==> k in toSync && k in tempo && k !in solid
    ensures forall k :: k in plan.deletedIssues <==> k in toSync && k !in tempo
    ensures Distinct(plan.changedIssues) && Distinct(plan.newIssues) && Distinct(plan.deletedIssues)
    ensures |plan.changedIssues| + |plan.newIssues| + |plan.deletedIssues| == |toSync|
  {
    var changed: seq<string> := [];
    var added: seq<string> := [];
    var deleted: seq<string> := [];
    var todo := toSync;
    ghost var done: set<string> := {};
    while todo != {}
      invariant todo !! done && todo + done == toSync
      invariant forall k :: k in changed <==> k in done && k in tempo && k in solid
      invariant forall k :: k in added <==> k in done && k in tempo && k !in solid
      invariant forall k :: k in deleted <==> k in done && k !in tempo
      invariant Distinct(changed) && Distinct(added) && Distinct(deleted)
      invariant |changed| + |added| + |deleted| == |done|
      decreases |todo|
    {
      var k :| k in todo;
      assert |done + {k}| == |done| + 1;
      if k in tempo && k in solid {
        DistinctSnoc(changed, k);
        changed := changed + [k];
      } else if k in tempo {
        DistinctSnoc(added, k);
        added := added + [k];
      } else {
        DistinctSnoc(deleted, k);
        deleted := deleted + [k];
      }
      todo := todo - {k};
      done := done + {k};
    }
    plan := SyncPlan(|tempo|, |solid|, |toSync|, |tempo| - |toSync|, added, changed, deleted);
  }

  /** `tempo_issues.get(k, {}).get("count", 0)` */
  function TempoCount(tempo: map<string, TempoGroup>, k: string): nat {
    if k in tempo then tempo[k].count else 0
  }

  /** The non-empty ids of `es`, in order. */
  function EntryIds(es: seq<SolidtimeEntry>): (r: seq<string>)
    ensures forall i :: 0 <= i < |es| && es[i].id != "" ==> es[i].id in r
    ensures forall x :: x in r ==> x != "" && exists i :: 0 <= i < |es| && es[i].id == x
    decreases |es|
  {
    if es == [] then []
    else
      var init := es[..|es| - 1];
      var e := es[|es| - 1];
      var r := EntryIds(init) + (if e.id != "" then [e.id] else []);
      assert forall i :: 0 <= i < |es| - 1 ==> es[i] == init[i];
      r
  }

  /** An issue rebuilt in full: to sync, on the Solidtime side, and not gaining worklogs. */
  predicate Rebuilt(tempo: map<string, TempoGroup>, solid: map<string, SolidGroup>, toSync: set<string>, k: string) {
    k in toSync && k in solid && TempoCount(tempo, k) <= solid[k].count
  }

  /**
    * `get_solidtime_entries_to_delete`: every entry id of every issue that is rebuilt in
    * full; issues that only gain worklogs keep their entries.
    */
  method GetSolidtimeEntriesToDelete(solid: map<string, SolidGroup>, toSync: set<string>, tempo: map<string, TempoGroup>)
    returns (ids: seq<string>)
    ensures forall x :: x in ids <==> exists k :: Rebuilt(tempo, solid, toSync, k) && x in EntryIds(solid[k].entries)
  {
    ids := [];
    var todo := toSync;
    while todo != {}
      invariant todo <= toSync
      invariant forall x :: x in ids <==> exists k :: k !in todo && Rebuilt(tempo, solid, toSync, k) && x in EntryIds(solid[k].entries)
      decreases |todo|
    {
      var k :| k in todo;
      if k in solid {
        var tempoCount := if k in tempo then tempo[k].count else 0;
        if tempoCount <= solid[k].count {
          var es := solid[k].entries;
          var j := 0;
          ghost var before := ids;
          while j < |es|
            invariant 0 <= j <= |es|
            invariant ids == before + EntryIds(es[..j])
          {
            assert es[..j + 1][..j] == es[..j];
            if es[j].id != "" {
              ids := ids + [es[j].id];
            }
            j := j + 1;
          }
          assert es[..j] == es;
        }
      }
      todo := todo - {k};
    }
  }

  /** `get_missing_worklogs_count`: how many more worklogs Tempo has, never negative. */
  function MissingWorklogsCount(tempo: map<string, TempoGroup>, solid: map<string, SolidGroup>, k: string): (r: int)
    ensures r >= 0 && r >= TempoCount(tempo, k) - (if k in solid then solid[k].count else 0)
    ensures r > 0 ==> k !in solid || r == TempoCount(tempo, k) - solid[k].count
    ensures k !in solid ==> r == TempoCount(tempo, k)
    ensures r == 0 || r + (if k in solid then solid[k].count else 0) == TempoCount(tempo, k)
  {
    var t := TempoCount(tempo, k);
    var s := if k in solid then solid[k].count else 0;
    if t - s > 0 then t - s else 0
  }

  // ---------------------------------------------------------------------------------
  // Missing worklogs

  /** An entry `find_missing_worklogs` compares against: legacy `[JiraSync]` tag and the key. */
  predicate IsCandidate(e: SolidtimeEntry, k: string) {
    Contains(e.description, "[JiraSync]") && Contains(e.description, k)
  }

  /** Same date (first ten characters of `start`) and whole minutes at most one apart. */
  predicate Matches(w: TempoWorklog, e: SolidtimeEntry) {
    var d := Minutes(e.duration) - Minutes(w.timeSpentSeconds);
    (if |e.start.raw| <= 10 then e.start.raw else e.start.raw[..10]) == w.startDate && -1 <= d <= 1
  }

  ghost predicate HasMatch(w: TempoWorklog, es: seq<SolidtimeEntry>, k: string) {
    exists j :: 0 <= j < |es| && IsCandidate(es[j], k) && Matches(w, es[j])
  }

  /** The worklogs of issue `k` with no candidate entry matching them, in order. */
  ghost function Missing(ws: seq<TempoWorklog>, es: seq<SolidtimeEntry>, k: string): (r: seq<TempoWorklog>)
    ensures forall i :: 0 <= i < |r| ==> r[i] in ws && r[i].issue.key == k && !HasMatch(r[i], es, k)
    ensures |r| <= |ws|
    decreases |ws|
  {
    if ws == [] then []
    else
      var r := Missing(ws[..|ws| - 1], es, k);
      var w := ws[|ws| - 1];
      r + (if w.issue.key == k && !HasMatch(w, es, k) then [w] else [])
  }

  /** Every worklog of issue `k` without a match is reported, and only those. */
  lemma {:induction false} MissingComplete(ws: seq<TempoWorklog>, es: seq<SolidtimeEntry>, k: string, w: TempoWorklog)
    ensures w in Missing(ws, es, k) <==> w in ws && w.issue.key == k && !HasMatch(w, es, k)
    decreases |ws|
  {
    if ws != [] {
      MissingComplete(ws[..|ws| - 1], es, k, w);
      assert ws == ws[..|ws| - 1] + [ws[|ws| - 1]];
    }
  }

  /** The candidate entries of issue `k`, in order. */
  function Candidates(es: seq<SolidtimeEntry>, k: string): (r: seq<SolidtimeEntry>)
    ensures forall e :: e in r <==> e in es && IsCandidate(e, k)
    decreases |es|
  {
    if es == [] then []
    else
      var e := es[|es| - 1];
      assert es == es[..|es| - 1] + [e];
      Candidates(es[..|es| - 1], k) + (if IsCandidate(e, k) then [e] else [])
  }

  /** `find_missing_worklogs` */
  method FindMissingWorklogs(ws: seq<TempoWorklog>, es: seq<SolidtimeEntry>, k: string)
    returns (missing: seq<TempoWorklog>)
    ensures missing == Missing(ws, es, k)
  {
    var own := OfIssue(ws, k);
    var cands := Candidates(es, k);
    missing := [];
    var n := 0;
    while n < |own|
      invariant 0 <= n <= |own|
      invariant missing == Missing(own[..n], es, k)
    {
      assert own[..n + 1][..n] == own[..n];
      var w := own[n];
      var found := false;
      var j := 0;
      while j < |cands| && !found
        invariant 0 <= j <= |cands|
        invariant found <==> exists m :: 0 <= m < j && Matches(w, cands[m])
      {
        if Matches(w, cands[j]) {
          found := true;
        }
        j := j + 1;
      }
      FoundIffMatch(w, es, k, cands, found, j);
      if !found {
        missing := missing + [w];
      }
      n := n + 1;
    }
    assert own[..n] == own;
    MissingOfOwn(ws, es, k);
  }

  /** The search over the candidates finds a match exactly when `HasMatch` holds. */
  lemma FoundIffMatch(w: TempoWorklog, es: seq<SolidtimeEntry>, k: string, cands: seq<SolidtimeEntry>, found: bool, j: nat)
    requires cands == Candidates(es, k) && j <= |cands|
    requires found <==> exists m :: 0 <= m < j && Matches(w, cands[m])
    requires !found ==> j == |cands|
    ensures found <==> HasMatch(w, es, k)
  {
    if found {
      var m :| 0 <= m < j && Matches(w, cands[m]);
      assert cands[m] in es;
      var j' :| 0 <= j' < |es| && es[j'] == cands[m];
    }
    if HasMatch(w, es, k) {
      var j' :| 0 <= j' < |es| && IsCandidate(es[j'], k) && Matches(w, es[j']);
      assert es[j'] in cands;
      var m :| 0 <= m < |cands| && cands[m] == es[j'];
    }
  }

  /** Restricting to the issue first changes nothing. */
  lemma {:induction false} MissingOfOwn(ws: seq<TempoWorklog>, es: seq<SolidtimeEntry>, k: string)
    ensures Missing(OfIssue(ws, k), es, k) == Missing(ws, es, k)
    decreases |ws|
  {
    if ws != [] {
      var init := ws[..|ws| - 1];
      var w := ws[|ws| - 1];
      MissingOfOwn(init, es, k);
      var o := OfIssue(ws, k);
      if w.issue.key == k {
        assert o[..|o| - 1] == OfIssue(init, k);
        assert o[|o| - 1] == w;
      } else {
        assert o == OfIssue(init, k);
        assert Missing(ws, es, k) == Missing(init, es, k);
      }
    }
  }
}
