/**
  * The worklog-level, two-stage planner of `IssueComparator`.  Part A reconciles the
  * fetched Tempo worklogs into the mapping table; Part B turns the table into the lists
  * of worklogs to create and update and of Solidtime entries to delete and update.  The
  * specification functions on `Table` values come first; the class `IssueComparator`
  * updates its store in place and is proved against them.
  */
module Planner {
  import opened Wrappers
  import opened Text
  import opened Dicts
  import opened Records
  import opened WorklogStore
  import opened Drift

  // ---------------------------------------------------------------------------------
  // Part A: Tempo -> mapping table

  /** The ids of the fetch: `str(id)` of every worklog whose id is truthy. */
  function FetchedIds(ws: seq<TempoWorklog>): (r: set<string>)
    ensures forall i :: 0 <= i < |ws| && HasId(ws[i]) ==> IdText(ws[i]) in r
    ensures forall x :: x in r ==> exists i :: 0 <= i < |ws| && HasId(ws[i]) && IdText(ws[i]) == x
    decreases |ws|
  {
    if ws == [] then {}
    else
      var init := ws[..|ws| - 1];
      var w := ws[|ws| - 1];
      assert forall i :: 0 <= i < |ws| - 1 ==> ws[i] == init[i];
      FetchedIds(init) + (if HasId(w) then {IdText(w)} else {})
  }

  /** What step 1 did with one worklog. */
  datatype Outcome = Skipped | Added | Marked | Unchanged

  /** The row of an existing mapping whose worklog was updated: new stamp, flag set. */
  function Refreshed(m: Mapping, updatedAt: string): Mapping {
    m.(tempoUpdatedAt := updatedAt, needsUpdate := Some(true))
  }

  /**
    * Step 1 of `sync_tempo_to_mapping` for one worklog: skipped without an id; a new id
    * gets a row with no Solidtime entry and the flag set; an existing id whose stamp is
    * newer gets the stamp refreshed and the flag set; anything else is unchanged.
    */
  function StepOne(t: Table, w: TempoWorklog): (r: (Table, Outcome))
    requires t.Valid()
    ensures r.0.Valid() && r.0.Keys() == t.Keys() + (if IdText(w) == "" then {} else {IdText(w)})
    ensures forall k :: k in t.entries && k != IdText(w) ==> r.0.entries[k] == t.entries[k]
    ensures r.1 == Skipped <==> IdText(w) == ""
    ensures r.1 == Added <==> IdText(w) != "" && IdText(w) !in t.entries
    ensures r.1 == Marked <==> IdText(w) != "" && IdText(w) in t.entries && IsNewer(t, IdText(w), w.updatedAt)
    ensures r.1 == Added ==> r.0.entries[IdText(w)] == NewRow("", w.issue.key, w.updatedAt, None, true)
    ensures r.1 == Marked ==> r.0.entries[IdText(w)] == Refreshed(t.entries[IdText(w)], w.updatedAt)
    ensures r.1 == Skipped || r.1 == Unchanged ==> r.0 == t
  {
    var tid := IdText(w);
    if tid == "" then (t, Skipped)
    else if tid in t.entries then
      if IsNewer(t, tid, w.updatedAt) then
        (WithFlag(t.Put(tid, t.entries[tid].(tempoUpdatedAt := w.updatedAt)), tid, true), Marked)
      else (t, Unchanged)
    else (t.Put(tid, NewRow("", w.issue.key, w.updatedAt, None, true)), Added)
  }

  datatype Counts = Counts(added: nat, marked: nat, untouched: nat)

  function Tally(c: Counts, o: Outcome): Counts {
    match o
    case Skipped => c
    case Added => c.(added := c.added + 1)
    case Marked => c.(marked := c.marked + 1)
    case Unchanged => c.(untouched := c.untouched + 1)
  }

  /** Step 1 over the whole fetch. */
  function StepAll(t: Table, ws: seq<TempoWorklog>): (r: (Table, Counts))
    requires t.Valid()
    ensures r.0.Valid()
    decreases |ws|
  {
    if ws == [] then (t, Counts(0, 0, 0))
    else
      var prev := StepAll(t, ws[..|ws| - 1]);
      var step := StepOne(prev.0, ws[|ws| - 1]);
      (step.0, Tally(prev.1, step.1))
  }

  /** The table restricted to the keys in `keep`, insertion order kept. */
  function Restrict(t: Table, keep: set<string>): (r: Table)
    requires t.Valid()
    ensures r.Valid() && r.Keys() == t.Keys() * keep
    ensures forall k :: k in r.entries ==> r.entries[k] == t.entries[k]
    ensures r.order == Keep(t.order, keep)
  {
    Dict(Keep(t.order, keep), map k | k in t.entries && k in keep :: t.entries[k])
  }

  datatype PartAStats = PartAStats(newMappings: nat, markedForUpdate: nat, orphanedMappingsRemoved: nat, unchangedMappings: nat)

  /** `sync_tempo_to_mapping`: step 1, then every row whose id was not fetched is dropped. */
  function PartA(t: Table, ws: seq<TempoWorklog>): (r: (Table, PartAStats))
    requires t.Valid()
    ensures r.0.Valid()
    ensures r.0.Keys() <= FetchedIds(ws)
    ensures forall k :: k in r.0.entries ==> k in t.entries || exists i :: 0 <= i < |ws| && IdText(ws[i]) == k
  {
    var s := StepAll(t, ws);
    StepAllKeys(t, ws);
    var keep := FetchedIds(ws);
    (Restrict(s.0, keep), PartAStats(s.1.added, s.1.marked, |Orphans(s.0.order, keep)|, s.1.untouched))
  }

  /** The number of worklogs step 1 processes: those with an id. */
  function Processed(ws: seq<TempoWorklog>): nat
    decreases |ws|
  {
    if ws == [] then 0 else Processed(ws[..|ws| - 1]) + (if IdText(ws[|ws| - 1]) != "" then 1 else 0)
  }

  /** Every worklog with an id has a row after step 1, and no other rows appear. */
  lemma {:induction false} StepAllKeys(t: Table, ws: seq<TempoWorklog>)
    requires t.Valid()
    ensures forall i :: 0 <= i < |ws| && IdText(ws[i]) != "" ==> IdText(ws[i]) in StepAll(t, ws).0.entries
    ensures forall k :: k in StepAll(t, ws).0.entries ==>
      k in t.entries || exists i :: 0 <= i < |ws| && IdText(ws[i]) == k
    decreases |ws|
  {
    if ws != [] {
      var init := ws[..|ws| - 1];
      StepAllKeys(t, init);
      forall k | k in StepAll(t, ws).0.entries
        ensures k in t.entries || exists i :: 0 <= i < |ws| && IdText(ws[i]) == k
      {
        if k != IdText(ws[|ws| - 1]) {
          assert k in StepAll(t, init).0.entries;
          if k !in t.entries {
            var i :| 0 <= i < |init| && IdText(init[i]) == k;
            assert ws[i] == init[i];
          }
        }
      }
      forall i | 0 <= i < |ws| && IdText(ws[i]) != "" ensures IdText(ws[i]) in StepAll(t, ws).0.entries {
        if i < |ws| - 1 {
          assert ws[i] == init[i];
        }
      }
    }
  }

  /** After Part A the table holds exactly the fetched ids. */
  lemma PartAKeys(t: Table, ws: seq<TempoWorklog>)
    requires t.Valid()
    ensures PartA(t, ws).0.Keys() == FetchedIds(ws)
  {
    StepAllKeys(t, ws);
    forall x | x in FetchedIds(ws) ensures x in StepAll(t, ws).0.entries {
      var i :| 0 <= i < |ws| && HasId(ws[i]) && IdText(ws[i]) == x;
    }
  }

  /** Each processed worklog is counted exactly once: new, marked or unchanged. */
  lemma {:induction false} PartACounts(t: Table, ws: seq<TempoWorklog>)
    requires t.Valid()
    ensures var s := PartA(t, ws).1; s.newMappings + s.markedForUpdate + s.unchangedMappings == Processed(ws)
    decreases |ws|
  {
    if ws != [] {
      PartACounts(t, ws[..|ws| - 1]);
    }
  }

  /**
    * Rows first created by step 1 have no Solidtime entry yet and carry the flag;
    * rows that existed keep their entry, issue key and Solidtime stamp, never lose the
    * flag, and get a new Tempo stamp only together with the flag and only a newer one.
    */
  ghost predicate StepInvariant(t: Table, t': Table) {
    (forall k :: k in t'.entries && k !in t.entries ==>
      t'.entries[k].solidtimeEntryId == "" && Flag(t'.entries[k]))
    && (forall k :: k in t.entries ==> k in t'.entries && RowEvolved(t.entries[k], t'.entries[k]))
  }

  ghost predicate RowEvolved(m: Mapping, m': Mapping) {
    m'.(tempoUpdatedAt := m.tempoUpdatedAt, needsUpdate := m.needsUpdate) == m
    && (Flag(m) ==> Flag(m'))
    && (m'.tempoUpdatedAt != m.tempoUpdatedAt ==> Flag(m') && m.tempoUpdatedAt != "" && LexLess(m.tempoUpdatedAt, m'.tempoUpdatedAt))
  }

  lemma RowEvolvedTransitive(a: Mapping, b: Mapping, c: Mapping)
    requires RowEvolved(a, b) && RowEvolved(b, c)
    ensures RowEvolved(a, c)
  {
    if c.tempoUpdatedAt != a.tempoUpdatedAt {
      if b.tempoUpdatedAt != a.tempoUpdatedAt && c.tempoUpdatedAt != b.tempoUpdatedAt {
        LexLessTransitive(a.tempoUpdatedAt, b.tempoUpdatedAt, c.tempoUpdatedAt);
      }
    }
  }

  /** One step keeps the step invariant. */
  lemma StepOneEvolves(p: Table, w: TempoWorklog)
    requires p.Valid()
    ensures StepInvariant(p, StepOne(p, w).0)
  {
  }

  /** The step invariant composes. */
  lemma StepInvariantTransitive(t: Table, p: Table, q: Table)
    requires StepInvariant(t, p) && StepInvariant(p, q)
    ensures StepInvariant(t, q)
  {
    forall k | k in t.entries ensures k in q.entries && RowEvolved(t.entries[k], q.entries[k]) {
      RowEvolvedTransitive(t.entries[k], p.entries[k], q.entries[k]);
    }
  }

  lemma {:induction false} StepAllEvolves(t: Table, ws: seq<TempoWorklog>)
    requires t.Valid()
    ensures StepInvariant(t, StepAll(t, ws).0)
    decreases |ws|
  {
    if ws != [] {
      var init := ws[..|ws| - 1];
      StepAllEvolves(t, init);
      var p := StepAll(t, init).0;
      StepOneEvolves(p, ws[|ws| - 1]);
      StepInvariantTransitive(t, p, StepAll(t, ws).0);
    }
  }

  /** The rows Part A keeps carry the guarantees of step 1. */
  lemma PartARows(t: Table, ws: seq<TempoWorklog>)
    requires t.Valid()
    ensures forall k :: k in PartA(t, ws).0.entries && k !in t.entries ==>
      PartA(t, ws).0.entries[k].solidtimeEntryId == "" && Flag(PartA(t, ws).0.entries[k])
    ensures forall k :: k in PartA(t, ws).0.entries && k in t.entries ==> RowEvolved(t.entries[k], PartA(t, ws).0.entries[k])
  {
    StepAllEvolves(t, ws);
  }

  /**
    * After step 1 no worklog of the fetch is newer than its row: the stored stamp is
    * empty or not older than any `updatedAt` fetched for that id.
    */
  ghost predicate Settled(t: Table, ws: seq<TempoWorklog>) {
    forall i :: 0 <= i < |ws| && IdText(ws[i]) != "" ==>
      IdText(ws[i]) in t.entries && !IsNewer(t, IdText(ws[i]), ws[i].updatedAt)
  }

  lemma {:induction false} StepAllSettles(t: Table, ws: seq<TempoWorklog>)
    requires t.Valid()
    ensures Settled(StepAll(t, ws).0, ws)
    decreases |ws|
  {
    if ws != [] {
      var init := ws[..|ws| - 1];
      var w := ws[|ws| - 1];
      StepAllSettles(t, init);
      var p := StepAll(t, init).0;
      var q := StepAll(t, ws).0;
      var tid := IdText(w);
      forall i | 0 <= i < |ws| && IdText(ws[i]) != ""
        ensures IdText(ws[i]) in q.entries && !IsNewer(q, IdText(ws[i]), ws[i].updatedAt)
      {
        var k := IdText(ws[i]);
        if i == |ws| - 1 {
          if k in p.entries && !IsNewer(p, k, w.updatedAt) {
          } else {
            LexLessIrreflexive(w.updatedAt);
          }
        } else {
          assert ws[i] == init[i];
          if k == tid && k in p.entries && IsNewer(p, k, w.updatedAt) {
            // The stamp moved forward past one that was already not older than ws[i].
            if LexLess(w.updatedAt, ws[i].updatedAt) {
              LexLessTransitive(p.entries[k].tempoUpdatedAt, w.updatedAt, ws[i].updatedAt);
            }
          }
        }
      }
    }
  }

  /** A table that is settled for `ws` passes step 1 untouched. */
  lemma {:induction false} StepAllOnSettled(t: Table, ws: seq<TempoWorklog>)
    requires t.Valid() && Settled(t, ws)
    ensures StepAll(t, ws) == (t, Counts(0, 0, Processed(ws)))
    decreases |ws|
  {
    if ws != [] {
      var init := ws[..|ws| - 1];
      assert Settled(t, init) by {
        forall i | 0 <= i < |init| && IdText(init[i]) != ""
          ensures IdText(init[i]) in t.entries && !IsNewer(t, IdText(init[i]), init[i].updatedAt)
        {
          assert init[i] == ws[i];
        }
      }
      StepAllOnSettled(t, init);
    }
  }

  /**
    * Part A is idempotent: run again on the same fetch it adds, marks and removes
    * nothing, provided no worklog has the id 0 (which step 1 adds as `"0"` and the
    * cleanup then removes, since 0 is falsy).
    */
  lemma PartAIdempotent(t: Table, ws: seq<TempoWorklog>)
    requires t.Valid()
    requires forall i :: 0 <= i < |ws| ==> ws[i].tempoWorklogId != Some(0)
    ensures var a := PartA(t, ws).0; PartA(a, ws) == (a, PartAStats(0, 0, 0, Processed(ws)))
  {
    var a := PartA(t, ws).0;
    var keep := FetchedIds(ws);
    StepAllSettles(t, ws);
    SettledAfterRestrict(StepAll(t, ws).0, ws);
    StepAllOnSettled(a, ws);
    PartAKeys(t, ws);
    RestrictEverything(a, keep);
  }

  lemma SettledAfterRestrict(s: Table, ws: seq<TempoWorklog>)
    requires s.Valid() && Settled(s, ws)
    requires forall i :: 0 <= i < |ws| ==> ws[i].tempoWorklogId != Some(0)
    ensures Settled(Restrict(s, FetchedIds(ws)), ws)
  {
    var a := Restrict(s, FetchedIds(ws));
    forall i | 0 <= i < |ws| && IdText(ws[i]) != ""
      ensures IdText(ws[i]) in a.entries && !IsNewer(a, IdText(ws[i]), ws[i].updatedAt)
    {
      assert HasId(ws[i]);
    }
  }

  /** Restricting a table to a superset of its keys changes nothing, and drops no orphan. */
  lemma RestrictEverything(t: Table, keep: set<string>)
    requires t.Valid() && t.Keys() <= keep
    ensures Restrict(t, keep) == t && Orphans(t.order, keep) == []
  {
    KeepEverything(t.order, keep);
    NoOrphans(t.order, keep);
    assert Restrict(t, keep).entries == t.entries;
  }

  lemma {:induction false} NoOrphans(order: seq<string>, keep: set<string>)
    requires forall x :: x in order ==> x in keep
    ensures Orphans(order, keep) == []
    decreases |order|
  {
    if order != [] {
      NoOrphans(order[1..], keep);
    }
  }

  // ---------------------------------------------------------------------------------
  // Part B: mapping table -> Solidtime operations

  /** `{str(id): w for w in worklogs if id}`: a later worklog with the same id wins. */
  function TempoLookup(ws: seq<TempoWorklog>): (r: map<string, TempoWorklog>)
    ensures r.Keys == FetchedIds(ws)
    ensures forall k :: k in r ==> IdText(r[k]) == k && HasId(r[k]) && r[k] in ws
    ensures |r| <= |ws|
    decreases |ws|
  {
    if ws == [] then map[]
    else
      var init := ws[..|ws| - 1];
      var w := ws[|ws| - 1];
      var m := TempoLookup(init);
      assert forall x :: x in init ==> x in ws;
      if HasId(w) then m[IdText(w) := w] else m
  }

  /** `{e["id"] for e in entries if e.get("id")}` */
  function ExistingIds(es: seq<SolidtimeEntry>): (r: set<string>)
    ensures forall i :: 0 <= i < |es| && es[i].id != "" ==> es[i].id in r
    ensures forall x :: x in r ==> x != "" && exists i :: 0 <= i < |es| && es[i].id == x
    decreases |es|
  {
    if es == [] then {}
    else
      var init := es[..|es| - 1];
      assert forall i :: 0 <= i < |es| - 1 ==> es[i] == init[i];
      ExistingIds(init) + (if es[|es| - 1].id != "" then {es[|es| - 1].id} else {})
  }

  /** `{e["id"]: e for e in entries if e.get("id")}`: a later entry with the same id wins. */
  function EntryLookup(es: seq<SolidtimeEntry>): (r: map<string, SolidtimeEntry>)
    ensures r.Keys == ExistingIds(es)
    ensures forall k :: k in r ==> r[k].id == k && r[k] in es
    decreases |es|
  {
    if es == [] then map[]
    else
      var init := es[..|es| - 1];
      var e := es[|es| - 1];
      assert forall x :: x in init ==> x in es;
      if e.id != "" then EntryLookup(init)[e.id := e] else EntryLookup(init)
  }

  /** An entry the plan deletes: it has an id and a `[JiraSync` tag, and no row points at it. */
  predicate IsOrphanEntry(e: SolidtimeEntry, mapped: set<string>) {
    e.id != "" && Contains(e.description, "[JiraSync") && e.id !in mapped
  }

  /** The ids of the orphaned entries, in the order of the fetch. */
  function OrphanEntries(es: seq<SolidtimeEntry>, mapped: set<string>): (r: seq<string>)
    ensures forall x :: x in r <==> exists i :: 0 <= i < |es| && IsOrphanEntry(es[i], mapped) && es[i].id == x
    ensures |r| <= |es|
    decreases |es|
  {
    if es == [] then []
    else
      var init := es[..|es| - 1];
      var e := es[|es| - 1];
      assert forall i :: 0 <= i < |es| - 1 ==> es[i] == init[i];
      OrphanEntries(init, mapped) + (if IsOrphanEntry(e, mapped) then [e.id] else [])
  }

  datatype Action = Create | Update | NoChange | Skip

  /**
    * The decision for one row, in the code's priority order: no worklog fetched for it
    * -> skip; no Solidtime entry yet, or its entry is gone -> create; flagged, or no
    * Solidtime stamp recorded -> update; drifted -> update; else nothing.
    */
  function Classify(m: Mapping, w: Option<TempoWorklog>, existing: set<string>,
                    entries: map<string, SolidtimeEntry>): (a: Action)
    ensures a == Skip <==> w.None?
    ensures a == Create <==> w.Some? && (m.solidtimeEntryId == "" || m.solidtimeEntryId !in existing)
    ensures a == Update <==> (w.Some? && m.solidtimeEntryId != "" && m.solidtimeEntryId in existing
      && (Flag(m) || m.solidtimeUpdatedAt.None?
          || (m.solidtimeEntryId in entries && Differs(w.value, entries[m.solidtimeEntryId]))))
  {
    var needs := Flag(m) || m.solidtimeUpdatedAt.None?;
    if w.None? then Skip
    else if m.solidtimeEntryId == "" then Create
    else if m.solidtimeEntryId !in existing then Create
    else if needs then Update
    else if m.solidtimeEntryId in entries && Differs(w.value, entries[m.solidtimeEntryId]) then Update
    else NoChange
  }

  /** The inputs of Part B that do not change while the rows are walked. */
  datatype Fetch = Fetch(
    lookup: map<string, TempoWorklog>,
    existing: set<string>,
    entries: map<string, SolidtimeEntry>)

  function FetchOf(ws: seq<TempoWorklog>, es: seq<SolidtimeEntry>): Fetch {
    Fetch(TempoLookup(ws), ExistingIds(es), EntryLookup(es))
  }

  function ActionFor(t: Table, f: Fetch, k: string): Action
    requires k in t.entries
  {
    Classify(t.entries[k], if k in f.lookup then Some(f.lookup[k]) else None, f.existing, f.entries)
  }

  /** The create list, the update list and the paired entry ids, built over `order`. */
  datatype Lists = Lists(create: seq<TempoWorklog>, update: seq<TempoWorklog>, updateIds: seq<string>)

  /** How many keys of `order` have a fetched worklog. */
  function WithWorklog(f: Fetch, order: seq<string>): nat
    decreases |order|
  {
    if order == [] then 0
    else WithWorklog(f, order[..|order| - 1]) + (if order[|order| - 1] in f.lookup then 1 else 0)
  }

  ghost function SetOf(s: seq<string>): (r: set<string>)
    ensures forall x :: x in r <==> x in s
  {
    set x | x in s
  }

  /** How many keys of `order` lie in `l`. */
  function CountIn(order: seq<string>, l: set<string>): nat
    decreases |order|
  {
    if order == [] then 0
    else CountIn(order[..|order| - 1], l) + (if order[|order| - 1] in l then 1 else 0)
  }

  lemma {:induction false} WithWorklogIsCount(f: Fetch, order: seq<string>)
    ensures WithWorklog(f, order) == CountIn(order, f.lookup.Keys)
    decreases |order|
  {
    if order != [] {
      WithWorklogIsCount(f, order[..|order| - 1]);
    }
  }

  /** Distinct keys that lie in `l` are no more than `l` has. */
  lemma {:induction false} CountInBound(order: seq<string>, l: set<string>)
    requires Distinct(order)
    ensures CountIn(order, l) <= |SetOf(order) * l|
    decreases |order|
  {
    if order != [] {
      var init := order[..|order| - 1];
      var k := order[|order| - 1];
      assert Distinct(init);
      CountInBound(init, l);
      assert k !in init;
      var a := SetOf(init) * l;
      var b := SetOf(order) * l;
      assert k !in a;
      if k in l {
        assert b == a + {k};
      } else {
        assert b == a;
      }
    }
  }

  lemma SubsetCard(a: set<string>, b: set<string>)
    requires a <= b
    ensures |a| <= |b|
  {
    assert b == a + (b - a);
  }

  function Decide(t: Table, f: Fetch, order: seq<string>): (r: Lists)
    requires forall k :: k in order ==> k in t.entries
    ensures |r.update| == |r.updateIds| && |r.create| + |r.update| <= WithWorklog(f, order)
    decreases |order|
  {
    if order == [] then Lists([], [], [])
    else
      var init := order[..|order| - 1];
      var k := order[|order| - 1];
      assert forall x :: x in init ==> x in order;
      var r := Decide(t, f, init);
      match ActionFor(t, f, k)
      case Create => r.(create := r.create + [f.lookup[k]])
      case Update => Lists(r.create, r.update + [f.lookup[k]], r.updateIds + [t.entries[k].solidtimeEntryId])
      case _ => r
  }

  datatype PlanStats = PlanStats(
    totalTempoWorklogs: nat,
    totalSolidtimeEntries: nat,
    worklogsToCreate: nat,
    worklogsToUpdate: nat,
    entriesToDelete: nat,
    entriesToUpdate: nat,
    unchangedWorklogs: int)

  datatype WorklogPlan = WorklogPlan(
    toCreate: seq<TempoWorklog>,
    toUpdate: seq<TempoWorklog>,
    toDelete: seq<string>,
    updateIds: seq<string>,
    stats: PlanStats)

  /** The mapped Solidtime entry ids of a table (`""` included, as the code collects it). */
  function MappedIds(t: Table): set<string> {
    set k | k in t.entries :: t.entries[k].solidtimeEntryId
  }

  /** Part B over table `t`. */
  function PlanB(t: Table, ws: seq<TempoWorklog>, es: seq<SolidtimeEntry>): (p: WorklogPlan)
    requires t.Valid()
    ensures |p.toUpdate| == |p.updateIds|
    ensures forall x :: x in p.toDelete <==> exists i :: 0 <= i < |es| && IsOrphanEntry(es[i], MappedIds(t)) && es[i].id == x
    ensures p.stats.unchangedWorklogs == |ws| - |p.toCreate| - |p.toUpdate|
  {
    var f := FetchOf(ws, es);
    var l := Decide(t, f, t.order);
    var del := OrphanEntries(es, MappedIds(t));
    WorklogPlan(l.create, l.update, del, l.updateIds,
      PlanStats(|ws|, |es|, |l.create|, |l.update|, |del|, |l.updateIds|, |ws| - |l.create| - |l.update|))
  }

  /** Part B's plan from its three computed parts. */
  lemma PlanBOfParts(t: Table, ws: seq<TempoWorklog>, es: seq<SolidtimeEntry>, l: Lists, toDelete: seq<string>)
    requires t.Valid()
    requires l == Decide(t, FetchOf(ws, es), t.order) && toDelete == OrphanEntries(es, MappedIds(t))
    ensures PlanB(t, ws, es) == WorklogPlan(l.create, l.update, toDelete, l.updateIds,
      PlanStats(|ws|, |es|, |l.create|, |l.update|, |toDelete|, |l.updateIds|, |ws| - |l.create| - |l.update|))
  {
  }

  /** The table Part B reads: Part A's, recovered from descriptions when Part A left none. */
  function PlanTable(t: Table, ws: seq<TempoWorklog>, es: seq<SolidtimeEntry>): (r: Table)
    requires t.Valid()
    ensures r.Valid()
  {
    var a := PartA(t, ws).0;
    if |a.entries| == 0 && |ws| > 0 then RecoverAll(a, es).0 else a
  }

  /** `detailed_worklog_sync_plan` */
  function DetailedPlan(t: Table, ws: seq<TempoWorklog>, es: seq<SolidtimeEntry>): (r: WorklogPlan)
    requires t.Valid()
    ensures |r.toUpdate| == |r.updateIds|
    ensures forall i :: 0 <= i < |r.updateIds| ==> r.updateIds[i] in ExistingIds(es)
    ensures forall w :: w in r.toCreate ==> w !in r.toUpdate
    ensures r.stats.unchangedWorklogs == |ws| - |r.toCreate| - |r.toUpdate| >= 0
  {
    var pt := PlanTable(t, ws, es);
    PlanAligned(pt, ws, es);
    PlanPartition(pt, ws, es);
    UnchangedNotNegative(pt, ws, es);
    PlanB(pt, ws, es)
  }

  /**
    * The lists follow the rows in table order: each worklog to create, and each
    * worklog to update together with the entry id at the same index, comes from a row
    * whose decision says so.
    */
  lemma {:induction false} DecideSound(t: Table, f: Fetch, order: seq<string>)
    requires forall k :: k in order ==> k in t.entries
    ensures forall i :: 0 <= i < |Decide(t, f, order).create| ==>
      var w := Decide(t, f, order).create[i];
      IdText(w) in order && IdText(w) in f.lookup && f.lookup[IdText(w)] == w && ActionFor(t, f, IdText(w)) == Create
    ensures forall i :: 0 <= i < |Decide(t, f, order).update| ==>
      var w := Decide(t, f, order).update[i];
      IdText(w) in order && IdText(w) in f.lookup && f.lookup[IdText(w)] == w && ActionFor(t, f, IdText(w)) == Update
      && Decide(t, f, order).updateIds[i] == t.entries[IdText(w)].solidtimeEntryId
    requires forall k :: k in f.lookup ==> IdText(f.lookup[k]) == k
    decreases |order|
  {
    if order != [] {
      var init := order[..|order| - 1];
      assert forall x :: x in init ==> x in order;
      DecideSound(t, f, init);
    }
  }

  /** Every row with a fetched worklog that asks for a create or an update is in the lists. */
  lemma {:induction false} DecideComplete(t: Table, f: Fetch, order: seq<string>, k: string)
    requires forall x :: x in order ==> x in t.entries
    requires k in order
    ensures ActionFor(t, f, k) == Create ==> f.lookup[k] in Decide(t, f, order).create
    ensures ActionFor(t, f, k) == Update ==> f.lookup[k] in Decide(t, f, order).update
    decreases |order|
  {
    var init := order[..|order| - 1];
    assert forall x :: x in init ==> x in order;
    if k != order[|order| - 1] {
      assert k in init by {
        var j :| 0 <= j < |order| && order[j] == k;
        assert init[j] == k;
      }
      DecideComplete(t, f, init, k);
    }
  }

  /** The plan's update lists are index-aligned with the rows they came from. */
  lemma PlanAligned(t: Table, ws: seq<TempoWorklog>, es: seq<SolidtimeEntry>)
    requires t.Valid()
    ensures var p := PlanB(t, ws, es);
      forall i :: 0 <= i < |p.toUpdate| ==>
        IdText(p.toUpdate[i]) in t.entries && p.updateIds[i] == t.entries[IdText(p.toUpdate[i])].solidtimeEntryId
        && p.updateIds[i] in ExistingIds(es)
  {
    var f := FetchOf(ws, es);
    forall k | k in t.order ensures k in t.entries {}
    DecideSound(t, f, t.order);
  }

  /** No row is in both lists: a worklog is created or updated, never both, at most once. */
  lemma PlanPartition(t: Table, ws: seq<TempoWorklog>, es: seq<SolidtimeEntry>)
    requires t.Valid()
    ensures var p := PlanB(t, ws, es);
      forall w :: w in p.toCreate ==> w !in p.toUpdate
  {
    var f := FetchOf(ws, es);
    forall k | k in t.order ensures k in t.entries {}
    DecideSound(t, f, t.order);
    var p := PlanB(t, ws, es);
    forall w | w in p.toCreate ensures w !in p.toUpdate {
      var i :| 0 <= i < |p.toCreate| && p.toCreate[i] == w;
      assert ActionFor(t, f, IdText(w)) == Create;
    }
  }

  /** Each row with a fetched worklog is in the create list or the update list as its decision says. */
  lemma PlanComplete(t: Table, ws: seq<TempoWorklog>, es: seq<SolidtimeEntry>, k: string)
    requires t.Valid() && k in t.entries
    ensures var p := PlanB(t, ws, es); var f := FetchOf(ws, es);
      (ActionFor(t, f, k) == Create ==> f.lookup[k] in p.toCreate)
      && (ActionFor(t, f, k) == Update ==> f.lookup[k] in p.toUpdate)
  {
    forall x | x in t.order ensures x in t.entries {}
    DecideComplete(t, FetchOf(ws, es), t.order, k);
  }

  /**
    * The plan never lists more worklogs than were fetched, so its `unchanged_worklogs`
    * is never negative.
    */
  lemma UnchangedNotNegative(t: Table, ws: seq<TempoWorklog>, es: seq<SolidtimeEntry>)
    requires t.Valid()
    ensures PlanB(t, ws, es).stats.unchangedWorklogs >= 0
  {
    var f := FetchOf(ws, es);
    forall k | k in t.order ensures k in t.entries {}
    WithWorklogIsCount(f, t.order);
    CountInBound(t.order, f.lookup.Keys);
    SubsetCard(SetOf(t.order) * f.lookup.Keys, f.lookup.Keys);
  }

  /**
    * If Part A leaves no rows, no fetched worklog has an id, so the rows recovery adds
    * are all skipped: they only shield their entries from the orphan deletion.
    */
  lemma RecoveryPlansNothing(t: Table, ws: seq<TempoWorklog>, es: seq<SolidtimeEntry>)
    requires t.Valid() && |PartA(t, ws).0.entries| == 0
    ensures DetailedPlan(t, ws, es).toCreate == [] && DetailedPlan(t, ws, es).toUpdate == []
  {
    PartAKeys(t, ws);
    assert FetchedIds(ws) == {} by {
      assert PartA(t, ws).0.Keys() == {};
    }
    var r := PlanTable(t, ws, es);
    forall x | x in r.order ensures x in r.entries {}
    NoLookupNoLists(r, FetchOf(ws, es), r.order);
  }

  lemma {:induction false} NoLookupNoLists(t: Table, f: Fetch, order: seq<string>)
    requires forall k :: k in order ==> k in t.entries
    requires f.lookup == map[]
    ensures Decide(t, f, order).create == [] && Decide(t, f, order).update == []
    decreases |order|
  {
    if order != [] {
      var init := order[..|order| - 1];
      assert forall x :: x in init ==> x in order;
      NoLookupNoLists(t, f, init);
    }
  }

  // ---------------------------------------------------------------------------------
  // Writing back after a sync

  /**
    * `add_worklog_mapping` on a table value: nothing without a Tempo id and an issue
    * key; an existing row gets the entry id and Solidtime stamp and loses its flag; a
    * new id gets a fresh row without the flag.
    */
  function RecordSync(t: Table, w: TempoWorklog, entryId: string, solidtimeUpdatedAt: Option<string>): (r: Table)
    requires t.Valid()
    ensures r.Valid()
    ensures IdText(w) == "" || w.issue.key == "" ==> r == t
    ensures IdText(w) != "" && w.issue.key != "" ==>
      var tid := IdText(w);
      r.Keys() == t.Keys() + {tid}
      && (forall k :: k in t.entries && k != tid ==> r.entries[k] == t.entries[k])
      && r.entries[tid].solidtimeEntryId == entryId && r.entries[tid].solidtimeUpdatedAt == solidtimeUpdatedAt
      && !Flag(r.entries[tid]) && r.entries[tid].needsUpdate.Some?
      && (tid in t.entries ==> r.entries[tid].(solidtimeEntryId := t.entries[tid].solidtimeEntryId,
            solidtimeUpdatedAt := t.entries[tid].solidtimeUpdatedAt, needsUpdate := t.entries[tid].needsUpdate) == t.entries[tid])
      && (tid !in t.entries ==> r.entries[tid] == NewRow(entryId, w.issue.key, w.updatedAt, solidtimeUpdatedAt, false))
  {
    var tid := IdText(w);
    if tid == "" || w.issue.key == "" then t
    else if tid in t.entries then
      t.Put(tid, t.entries[tid].(solidtimeEntryId := entryId, solidtimeUpdatedAt := solidtimeUpdatedAt, needsUpdate := Some(false)))
    else t.Put(tid, NewRow(entryId, w.issue.key, w.updatedAt, solidtimeUpdatedAt, false))
  }

  /**
    * A row written back with a Solidtime stamp for an entry that is still there is
    * settled: the next plan updates it only if the entry has drifted.
    */
  lemma RecordedRowIsSettled(t: Table, w: TempoWorklog, entryId: string, stamp: string, f: Fetch)
    requires t.Valid() && IdText(w) != "" && w.issue.key != ""
    requires entryId != "" && entryId in f.existing
    requires IdText(w) in f.lookup && f.lookup[IdText(w)] == w
    ensures var r := RecordSync(t, w, entryId, Some(stamp));
      ActionFor(r, f, IdText(w)) == (if entryId in f.entries && Differs(w, f.entries[entryId]) then Update else NoChange)
  {
  }

  /** A write-back is idempotent. */
  lemma RecordSyncIdempotent(t: Table, w: TempoWorklog, entryId: string, solidtimeUpdatedAt: Option<string>)
    requires t.Valid()
    ensures var r := RecordSync(t, w, entryId, solidtimeUpdatedAt); RecordSync(r, w, entryId, solidtimeUpdatedAt) == r
  {
  }

  // ---------------------------------------------------------------------------------
  // The loops of the comparator that only read

  /** `{str(w.get("tempoWorklogId")) for w in tempo_worklogs if w.get("tempoWorklogId")}` */
  method CollectFetchedIds(ws: seq<TempoWorklog>) returns (ids: set<string>)
    ensures ids == FetchedIds(ws)
  {
    ids := {};
    var i := 0;
    while i < |ws|
      invariant 0 <= i <= |ws|
      invariant ids == FetchedIds(ws[..i])
    {
      assert ws[..i + 1][..i] == ws[..i];
      if HasId(ws[i]) {
        ids := ids + {IdText(ws[i])};
      }
      i := i + 1;
    }
    assert ws[..i] == ws;
  }

  /** The ids of the rows, in table order, that are not in `keep`. */
  method CollectOrphans(order: seq<string>, keep: set<string>) returns (orphaned: seq<string>)
    ensures orphaned == Orphans(order, keep)
  {
    orphaned := [];
    var i := 0;
    while i < |order|
      invariant 0 <= i <= |order|
      invariant orphaned == Orphans(order[..i], keep)
    {
      assert order[..i + 1] == order[..i] + [order[i]];
      OrphansAppend(order[..i], order[i], keep);
      if order[i] !in keep {
        orphaned := orphaned + [order[i]];
      }
      i := i + 1;
    }
    assert order[..i] == order;
  }

  /** The Tempo worklogs by id; a later worklog with the same id wins. */
  method BuildTempoLookup(ws: seq<TempoWorklog>) returns (lookup: map<string, TempoWorklog>)
    ensures lookup == TempoLookup(ws)
  {
    lookup := map[];
    var i := 0;
    while i < |ws|
      invariant 0 <= i <= |ws|
      invariant lookup == TempoLookup(ws[..i])
    {
      assert ws[..i + 1][..i] == ws[..i];
      if HasId(ws[i]) {
        lookup := lookup[IdText(ws[i]) := ws[i]];
      }
      i := i + 1;
    }
    assert ws[..i] == ws;
  }

  /** The ids of the Solidtime entries and the entries by id. */
  method BuildEntryLookup(es: seq<SolidtimeEntry>) returns (existing: set<string>, entries: map<string, SolidtimeEntry>)
    ensures existing == ExistingIds(es) && entries == EntryLookup(es)
  {
    existing, entries := {}, map[];
    var i := 0;
    while i < |es|
      invariant 0 <= i <= |es|
      invariant existing == ExistingIds(es[..i]) && entries == EntryLookup(es[..i])
    {
      assert es[..i + 1][..i] == es[..i];
      if es[i].id != "" {
        existing := existing + {es[i].id};
        entries := entries[es[i].id := es[i]];
      }
      i := i + 1;
    }
    assert es[..i] == es;
  }

  /** The synchronised entries no row points to, in the order Solidtime returned them. */
  method FindOrphanEntries(es: seq<SolidtimeEntry>, mapped: set<string>) returns (toDelete: seq<string>)
    ensures toDelete == OrphanEntries(es, mapped)
  {
    toDelete := [];
    var i := 0;
    while i < |es|
      invariant 0 <= i <= |es|
      invariant toDelete == OrphanEntries(es[..i], mapped)
    {
      assert es[..i + 1][..i] == es[..i];
      var e := es[i];
      if e.id != "" && Contains(e.description, "[JiraSync") && e.id !in mapped {
        toDelete := toDelete + [e.id];
      }
      i := i + 1;
    }
    assert es[..i] == es;
  }

  /** The walk over the rows that decides create, update or nothing for each. */
  method DecideRows(t: Table, f: Fetch) returns (l: Lists)
    requires t.Valid()
    ensures l == Decide(t, f, t.order)
  {
    var order := t.order;
    var toCreate: seq<TempoWorklog> := [];
    var toUpdate: seq<TempoWorklog> := [];
    var updateIds: seq<string> := [];
    var i := 0;
    while i < |order|
      invariant 0 <= i <= |order|
      invariant Lists(toCreate, toUpdate, updateIds) == Decide(t, f, order[..i])
    {
      assert order[..i + 1][..i] == order[..i];
      var tid := order[i];
      var m := t.entries[tid];
      var entryId := m.solidtimeEntryId;
      var needsUpdate := Flag(m);
      if m.solidtimeUpdatedAt.None? {
        needsUpdate := true;
      }
      if tid in f.lookup {
        var w := f.lookup[tid];
        if entryId == "" {
          toCreate := toCreate + [w];
        } else if entryId !in f.existing {
          toCreate := toCreate + [w];
        } else if needsUpdate {
          toUpdate := toUpdate + [w];
          updateIds := updateIds + [entryId];
        } else if entryId in f.entries && Differs(w, f.entries[entryId]) {
          toUpdate := toUpdate + [w];
          updateIds := updateIds + [entryId];
        }
      }
      i := i + 1;
    }
    assert order[..i] == order;
    l := Lists(toCreate, toUpdate, updateIds);
  }

  // ---------------------------------------------------------------------------------
  // The comparator over its mapping store

  class IssueComparator {
    const store: WorklogMapping

    constructor (store: WorklogMapping)
      ensures this.store == store
    {
      this.store := store;
    }

    /** Step 1 of `sync_tempo_to_mapping` for one worklog. */
    method ApplyWorklog(w: TempoWorklog) returns (outcome: Outcome)
      requires store.Valid()
      modifies store
      ensures store.Valid()
      ensures (store.mappings, outcome) == StepOne(old(store.mappings), w)
    {
      var tid := IdText(w);
      if tid == "" {
        return Skipped;
      }
      var updatedAt := w.updatedAt;
      if tid in store.mappings.entries {
        if store.IsTempoWorklogNewer(tid, updatedAt) {
          store.mappings := store.mappings.Put(tid, store.mappings.entries[tid].(tempoUpdatedAt := updatedAt));
          store.MarkForUpdate(tid);
          outcome := Marked;
        } else {
          outcome := Unchanged;
        }
      } else {
        store.AddMapping(tid, "", w.issue.key, updatedAt, None, true);
        outcome := Added;
      }
    }

    /** Step 1 of `sync_tempo_to_mapping` over all worklogs, with its counters. */
    method ApplyWorklogs(ws: seq<TempoWorklog>) returns (c: Counts)
      requires store.Valid()
      modifies store
      ensures store.Valid()
      ensures (store.mappings, c) == StepAll(old(store.mappings), ws)
    {
      ghost var t := store.mappings;
      c := Counts(0, 0, 0);
      var i := 0;
      while i < |ws|
        invariant 0 <= i <= |ws|
        invariant store.Valid()
        invariant (store.mappings, c) == StepAll(t, ws[..i])
      {
        assert ws[..i + 1][..i] == ws[..i];
        var outcome := ApplyWorklog(ws[i]);
        c := Tally(c, outcome);
        i := i + 1;
      }
      assert ws[..i] == ws;
    }

    /** Step 2 of `sync_tempo_to_mapping`: every row whose id was not fetched goes. */
    method RemoveUnfetched(fetched: set<string>) returns (removed: nat)
      requires store.Valid()
      modifies store
      ensures store.Valid()
      ensures store.mappings == Restrict(old(store.mappings), fetched)
      ensures removed == |Orphans(old(store.mappings).order, fetched)|
    {
      ghost var t := store.mappings;
      var orphaned := CollectOrphans(store.mappings.order, fetched);
      store.RemoveMappings(orphaned);
      removed := |orphaned|;
      ghost var gone := set x | x in orphaned;
      assert store.mappings.entries == Restrict(t, fetched).entries;
      KeepSameOn(t.order, t.Keys() - gone, fetched);
    }

    /** `sync_tempo_to_mapping` */
    method SyncTempoToMapping(ws: seq<TempoWorklog>) returns (stats: PartAStats)
      requires store.Valid()
      modifies store
      ensures store.Valid()
      ensures (store.mappings, stats) == PartA(old(store.mappings), ws)
    {
      var fetched := CollectFetchedIds(ws);
      var c := ApplyWorklogs(ws);
      var removed := RemoveUnfetched(fetched);
      stats := PartAStats(c.added, c.marked, removed, c.untouched);
    }

    /** `detailed_worklog_sync_plan` */
    method DetailedWorklogSyncPlan(ws: seq<TempoWorklog>, es: seq<SolidtimeEntry>) returns (plan: WorklogPlan)
      requires store.Valid()
      modifies store
      ensures store.Valid() && store.mappings == PlanTable(old(store.mappings), ws, es)
      ensures plan == PlanB(store.mappings, ws, es)
    {
      ghost var t0 := store.mappings;
      var _ := SyncTempoToMapping(ws);
      if |store.mappings.entries| == 0 && |ws| > 0 {
        var recovered := store.RecoverMappingsFromDescriptions(es);
      }
      assert store.mappings == PlanTable(t0, ws, es);
      var t := store.mappings;
      var lookup := BuildTempoLookup(ws);
      var existing, entryLookup := BuildEntryLookup(es);
      var mapped := store.GetMappedSolidtimeEntryIds();
      assert mapped == MappedIds(t);
      var toDelete := FindOrphanEntries(es, mapped);
      var f := Fetch(lookup, existing, entryLookup);
      assert f == FetchOf(ws, es);
      var l := DecideRows(t, f);
      plan := WorklogPlan(l.create, l.update, toDelete, l.updateIds,
        PlanStats(|ws|, |es|, |l.create|, |l.update|, |toDelete|, |l.updateIds|, |ws| - |l.create| - |l.update|));
      PlanBOfParts(t, ws, es, l, toDelete);
    }

    /** `add_worklog_mapping` */
    method AddWorklogMapping(w: TempoWorklog, entryId: string, solidtimeUpdatedAt: Option<string>)
      requires store.Valid()
      modifies store
      ensures store.Valid() && store.mappings == RecordSync(old(store.mappings), w, entryId, solidtimeUpdatedAt)
    {
      var tid := IdText(w);
      var issueKey := w.issue.key;
      if tid != "" && issueKey != "" {
        if tid in store.mappings.entries {
          store.mappings := store.mappings.Put(tid, store.mappings.entries[tid].(solidtimeEntryId := entryId));
          store.mappings := store.mappings.Put(tid, store.mappings.entries[tid].(solidtimeUpdatedAt := solidtimeUpdatedAt));
          store.ClearUpdateFlag(tid);
        } else {
          store.AddMapping(tid, entryId, issueKey, w.updatedAt, solidtimeUpdatedAt, false);
        }
      }
    }

    /** `remove_worklog_mapping` */
    method RemoveWorklogMapping(tempoId: string)
      requires store.Valid()
      modifies store
      ensures store.Valid() && store.mappings == old(store.mappings).Remove(tempoId)
    {
      store.RemoveMapping(tempoId);
    }
  }
}
