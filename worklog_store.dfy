/**
  * The identity store of the rich engine: Tempo worklog id -> Solidtime entry, kept in
  * an insertion-ordered dictionary.  The specification functions on `Table` values
  * come first; the class `WorklogMapping` updates its `mappings` field in place and is
  * proved against them.
  */
module WorklogStore {
  import opened Wrappers
  import opened Text
  import opened Dicts
  import opened Records
  import opened Markers

  /**
    * One mapping row.  `needsUpdate` is `None` for rows that lack the key (the ones
    * recovery writes); readers treat that as `False`.
    */
  datatype Mapping = Mapping(
    solidtimeEntryId: string,
    issueKey: string,
    tempoUpdatedAt: string,
    solidtimeUpdatedAt: Option<string>,
    needsUpdate: Option<bool>,
    recovered: bool)

  type Table = Dict<string, Mapping>

  /** `mapping.get("needs_update", False)` */
  function Flag(m: Mapping): bool {
    m.needsUpdate.GetOr(false)
  }

  /** The row `add_mapping` writes. */
  function NewRow(entryId: string, issueKey: string, tempoUpdatedAt: string,
                  solidtimeUpdatedAt: Option<string>, needsUpdate: bool): Mapping
  {
    Mapping(entryId, issueKey, tempoUpdatedAt, solidtimeUpdatedAt, Some(needsUpdate), false)
  }

  /** The `needs_update` backfill of `load_mappings`: rows without the key get `False`. */
  function Backfill(m: Mapping): (r: Mapping)
    ensures r.needsUpdate.Some? && Flag(r) == Flag(m)
    ensures r == m.(needsUpdate := r.needsUpdate)
  {
    if m.needsUpdate.None? then m.(needsUpdate := Some(false)) else m
  }

  /** `mark_for_update` / `clear_update_flag` on a table value. */
  function WithFlag(t: Table, id: string, flag: bool): (r: Table)
    ensures r.order == t.order && r.Keys() == t.Keys()
    ensures forall k :: k in t.entries && k != id ==> r.entries[k] == t.entries[k]
    ensures id in t.entries ==> r.entries[id] == t.entries[id].(needsUpdate := Some(flag))
    ensures t.Valid() ==> r.Valid()
  {
    if id in t.entries then t.Put(id, t.entries[id].(needsUpdate := Some(flag))) else t
  }

  /** `is_tempo_worklog_newer`: ISO timestamps compared as strings. */
  function IsNewer(t: Table, id: string, updatedAt: string): (r: bool)
    ensures id !in t.entries ==> r
    ensures id in t.entries && t.entries[id].tempoUpdatedAt == "" ==> !r
    ensures r && id in t.entries ==> t.entries[id].tempoUpdatedAt != updatedAt
  {
    if id !in t.entries then true
    else if t.entries[id].tempoUpdatedAt == "" then false
    else
      LexLessIrreflexive(t.entries[id].tempoUpdatedAt);
      LexLess(t.entries[id].tempoUpdatedAt, updatedAt)
  }

  /** A stored timestamp is never older than itself: re-reading the same worklog marks nothing. */
  lemma NotNewerThanItself(t: Table, id: string)
    requires id in t.entries
    ensures !IsNewer(t, id, t.entries[id].tempoUpdatedAt)
  {
    LexLessIrreflexive(t.entries[id].tempoUpdatedAt);
  }

  /** Staleness is monotone in the fetched timestamp. */
  lemma NewerIsMonotone(t: Table, id: string, a: string, b: string)
    requires IsNewer(t, id, a) && id in t.entries && LexLess(a, b)
    ensures IsNewer(t, id, b)
  {
    LexLessTransitive(t.entries[id].tempoUpdatedAt, a, b);
  }

  /** The keys among `order` whose row has `needs_update` set, in order. */
  function KeysFlagged(order: seq<string>, entries: map<string, Mapping>): (r: seq<string>)
    ensures forall k :: k in r <==> k in order && k in entries && Flag(entries[k])
    ensures Distinct(order) ==> Distinct(r)
    ensures |r| <= |order|
  {
    if order == [] then []
    else
      var rest := KeysFlagged(order[1..], entries);
      assert Distinct(order) ==> order[0] !in order[1..] by {
        if Distinct(order) {
          forall x | x in order[1..] ensures x != order[0] {
            var j :| 0 <= j < |order| - 1 && order[1..][j] == x;
            assert order[j + 1] == x;
          }
        }
      }
      if order[0] in entries && Flag(entries[order[0]]) then [order[0]] + rest else rest
  }

  /** The first key of `order` whose row points at Solidtime entry `e`. */
  function FirstKeyFor(order: seq<string>, entries: map<string, Mapping>, e: string): (r: Option<string>)
    ensures r.Some? ==> exists i :: (0 <= i < |order| && order[i] == r.value && r.value in entries
      && entries[r.value].solidtimeEntryId == e
      && forall j :: 0 <= j < i && order[j] in entries ==> entries[order[j]].solidtimeEntryId != e)
    ensures r.None? ==> forall j :: 0 <= j < |order| && order[j] in entries ==> entries[order[j]].solidtimeEntryId != e
  {
    if order == [] then None
    else if order[0] in entries && entries[order[0]].solidtimeEntryId == e then Some(order[0])
    else
      var r := FirstKeyFor(order[1..], entries, e);
      assert r.Some? ==> exists i :: (0 <= i < |order| && order[i] == r.value && r.value in entries
        && entries[r.value].solidtimeEntryId == e
        && forall j :: 0 <= j < i && order[j] in entries ==> entries[order[j]].solidtimeEntryId != e) by {
        if r.Some? {
          var i :| 0 <= i < |order| - 1 && order[1..][i] == r.value && r.value in entries
            && entries[r.value].solidtimeEntryId == e
            && forall j :: 0 <= j < i && order[1..][j] in entries ==> entries[order[1..][j]].solidtimeEntryId != e;
          assert order[i + 1] == r.value;
          forall j | 0 <= j < i + 1 && order[j] in entries ensures entries[order[j]].solidtimeEntryId != e {
            if j > 0 { assert order[j] == order[1..][j - 1]; }
          }
        }
      }
      assert r.None? ==> forall j :: 0 <= j < |order| && order[j] in entries ==> entries[order[j]].solidtimeEntryId != e by {
        if r.None? {
          forall j | 0 <= j < |order| && order[j] in entries ensures entries[order[j]].solidtimeEntryId != e {
            if j > 0 { assert order[j] == order[1..][j - 1]; }
          }
        }
      }
      r
  }

  /** The keys of `order` that are not in `keep`, in order: the orphans of a cleanup. */
  function Orphans(order: seq<string>, keep: set<string>): (r: seq<string>)
    ensures forall k :: k in r <==> k in order && k !in keep
  {
    if order == [] then []
    else if order[0] !in keep then [order[0]] + Orphans(order[1..], keep)
    else Orphans(order[1..], keep)
  }

  /** The elements of `s` that lie in `keep`, in order. */
  function Keep(s: seq<string>, keep: set<string>): (r: seq<string>)
    ensures forall k :: k in r <==> k in s && k in keep
    ensures Distinct(s) ==> Distinct(r)
  {
    if s == [] then []
    else
      var rest := Keep(s[1..], keep);
      assert Distinct(s) ==> s[0] !in s[1..] by {
        if Distinct(s) {
          forall x | x in s[1..] ensures x != s[0] {
            var j :| 0 <= j < |s| - 1 && s[1..][j] == x;
            assert s[j + 1] == x;
          }
        }
      }
      if s[0] in keep then [s[0]] + rest else rest
  }

  /** The ids seen after one more turn of a removal loop. */
  lemma IdsPrefixStep(ids: seq<string>, j: nat, seen: set<string>, next: seq<string>)
    requires j < |ids| && seen == set x | x in ids[..j]
    requires next == ids[..j + 1]
    ensures seen + {ids[j]} == set x | x in next
  {
    assert next == ids[..j] + [ids[j]];
  }

  lemma {:induction false} KeepWithout(s: seq<string>, keep: set<string>, k: string)
    ensures Without(Keep(s, keep), k) == Keep(s, keep - {k})
    decreases |s|
  {
    if s != [] {
      KeepWithout(s[1..], keep, k);
    }
  }

  lemma {:induction false} KeepEverything(s: seq<string>, keep: set<string>)
    requires forall x :: x in s ==> x in keep
    ensures Keep(s, keep) == s
    decreases |s|
  {
    if s != [] {
      KeepEverything(s[1..], keep);
    }
  }

  lemma {:induction false} KeepSameOn(s: seq<string>, a: set<string>, b: set<string>)
    requires forall x :: x in s ==> (x in a <==> x in b)
    ensures Keep(s, a) == Keep(s, b)
    decreases |s|
  {
    if s != [] {
      KeepSameOn(s[1..], a, b);
    }
  }

  /** The row recovery derives from entry `e` for Tempo id `tid`. */
  ghost predicate RecoveredFrom(tid: string, m: Mapping, e: SolidtimeEntry) {
    e.id != "" && FindMarker(e.description) == Some(tid)
    && IssueKeyPrefix(e.description) == Some(m.issueKey)
    && m == Mapping(e.id, m.issueKey, "", e.updatedAt, None, true)
  }

  /**
    * What recovery does with one entry: the new table and whether a row was added.  A
    * row is added only for an entry with an id, a marker and an issue-key prefix, and
    * only when no row for that Tempo id exists.
    */
  function RecoverOne(t: Table, e: SolidtimeEntry): (r: (Table, bool))
    requires t.Valid()
    ensures r.0.Valid()
    ensures !r.1 ==> r.0 == t
  {
    if e.id == "" then (t, false)
    else
      match FindMarker(e.description)
      case None => (t, false)
      case Some(tid) =>
        match IssueKeyPrefix(e.description)
        case None => (t, false)
        case Some(key) =>
          if tid in t.entries then (t, false)
          else (t.Put(tid, Mapping(e.id, key, "", e.updatedAt, None, true)), true)
  }

  /**
    * A step that reports a recovered row added exactly one row, for a Tempo id that had
    * none, recovered from the entry.
    */
  lemma RecoverOneAdds(t: Table, e: SolidtimeEntry)
    requires t.Valid() && RecoverOne(t, e).1
    ensures var r := RecoverOne(t, e);
      exists tid :: (tid !in t.entries && tid in r.0.entries
        && r.0.entries == t.entries[tid := r.0.entries[tid]] && RecoveredFrom(tid, r.0.entries[tid], e))
  {
    var tid := FindMarker(e.description).value;
    assert tid in RecoverOne(t, e).0.entries;
  }

  /**
    * `recover_mappings_from_descriptions` after the first `n` entries of `es`: the table
    * and the count so far.
    */
  function RecoverPrefix(t: Table, es: seq<SolidtimeEntry>, n: nat): (r: (Table, nat))
    requires t.Valid() && n <= |es|
    ensures r.0.Valid()
  {
    if n == 0 then (t, 0)
    else
      var prev := RecoverPrefix(t, es, n - 1);
      var step := RecoverOne(prev.0, es[n - 1]);
      (step.0, prev.1 + if step.1 then 1 else 0)
  }

  /** `recover_mappings_from_descriptions` over `es`: the table afterwards and the count. */
  function RecoverAll(t: Table, es: seq<SolidtimeEntry>): (r: (Table, nat))
    requires t.Valid()
    ensures r.0.Valid()
  {
    RecoverPrefix(t, es, |es|)
  }

  /** Recovering one entry only appends to the insertion order. */
  lemma RecoverOneAppends(t: Table, e: SolidtimeEntry)
    requires t.Valid()
    ensures |t.order| <= |RecoverOne(t, e).0.order|
    ensures forall i :: 0 <= i < |t.order| ==> RecoverOne(t, e).0.order[i] == t.order[i]
  {
  }

  /** Recovery only appends to the insertion order: the rows there before keep their places. */
  lemma {:induction false} RecoverAppends(t: Table, es: seq<SolidtimeEntry>, n: nat)
    requires t.Valid() && n <= |es|
    ensures |t.order| <= |RecoverPrefix(t, es, n).0.order|
    ensures forall i :: 0 <= i < |t.order| ==> RecoverPrefix(t, es, n).0.order[i] == t.order[i]
  {
    if n > 0 {
      var prev := RecoverPrefix(t, es, n - 1);
      RecoverAppends(t, es, n - 1);
      var step := RecoverOne(prev.0, es[n - 1]);
      RecoverOneAppends(prev.0, es[n - 1]);
      assert RecoverPrefix(t, es, n).0 == step.0;
    }
  }

  /** Recovery never touches a row that already exists. */
  lemma {:induction false} RecoverKeepsRows(t: Table, es: seq<SolidtimeEntry>, n: nat)
    requires t.Valid() && n <= |es|
    ensures t.Keys() <= RecoverPrefix(t, es, n).0.Keys()
    ensures forall k :: k in t.entries ==> RecoverPrefix(t, es, n).0.entries[k] == t.entries[k]
  {
    if n > 0 {
      RecoverKeepsRows(t, es, n - 1);
      var prev := RecoverPrefix(t, es, n - 1);
      var step := RecoverOne(prev.0, es[n - 1]);
      assert RecoverPrefix(t, es, n).0 == step.0;
      if step.1 {
        RecoverOneAdds(prev.0, es[n - 1]);
        var tid :| tid !in prev.0.entries && tid in step.0.entries
          && step.0.entries == prev.0.entries[tid := step.0.entries[tid]]
          && RecoveredFrom(tid, step.0.entries[tid], es[n - 1]);
        assert prev.0.Keys() <= step.0.Keys();
      }
    }
  }

  /** The count recovery reports is the number of rows it added. */
  lemma {:induction false} RecoverCount(t: Table, es: seq<SolidtimeEntry>, n: nat)
    requires t.Valid() && n <= |es|
    ensures t.Keys() <= RecoverPrefix(t, es, n).0.Keys()
    ensures RecoverPrefix(t, es, n).1 == |RecoverPrefix(t, es, n).0.Keys()| - |t.Keys()|
  {
    if n > 0 {
      RecoverCount(t, es, n - 1);
      var prev := RecoverPrefix(t, es, n - 1);
      var step := RecoverOne(prev.0, es[n - 1]);
      if step.1 {
        RecoverOneAdds(prev.0, es[n - 1]);
        var tid :| tid !in prev.0.entries && tid in step.0.entries
          && step.0.entries == prev.0.entries[tid := step.0.entries[tid]]
          && RecoveredFrom(tid, step.0.entries[tid], es[n - 1]);
        assert step.0.Keys() == prev.0.Keys() + {tid};
      }
    }
  }

  /**
    * Every row recovery adds comes from one of the entries: one with an id, a marker
    * naming the row's Tempo id and an issue-key prefix naming the row's issue.
    */
  lemma {:induction false} RecoverProvenance(t: Table, es: seq<SolidtimeEntry>, n: nat, k: string)
    requires t.Valid() && n <= |es|
    requires k in RecoverPrefix(t, es, n).0.entries && k !in t.entries
    ensures exists i :: 0 <= i < n && RecoveredFrom(k, RecoverPrefix(t, es, n).0.entries[k], es[i])
  {
    var prev := RecoverPrefix(t, es, n - 1);
    var step := RecoverOne(prev.0, es[n - 1]);
    assert RecoverPrefix(t, es, n).0 == step.0;
    if !step.1 {
      RecoverProvenance(t, es, n - 1, k);
    } else {
      RecoverOneAdds(prev.0, es[n - 1]);
      var tid :| tid !in prev.0.entries && tid in step.0.entries
        && step.0.entries == prev.0.entries[tid := step.0.entries[tid]]
        && RecoveredFrom(tid, step.0.entries[tid], es[n - 1]);
      if k != tid {
        assert k in prev.0.entries && step.0.entries[k] == prev.0.entries[k];
        RecoverProvenance(t, es, n - 1, k);
      }
    }
  }

  /** `get_statistics` without the `created_at` extremes. */
  datatype Statistics = Statistics(totalMappings: nat, uniqueIssues: nat)

  function IssueKeys(t: Table): set<string> {
    set k | k in t.entries :: t.entries[k].issueKey
  }

  class WorklogMapping {
    var mappings: Table

    ghost predicate Valid()
      reads this
    {
      mappings.Valid()
    }

    /** A store with no file yet holds no mappings. */
    constructor ()
      ensures Valid() && mappings == EmptyDict()
    {
      mappings := EmptyDict();
    }

    /** `load_mappings` after the file is read: every row gets a `needs_update` flag. */
    method LoadMappings(data: Table)
      requires data.Valid()
      modifies this
      ensures Valid() && mappings.order == data.order && mappings.Keys() == data.Keys()
      ensures forall k :: k in data.entries ==> mappings.entries[k] == Backfill(data.entries[k])
    {
      mappings := data;
      var i := 0;
      while i < |data.order|
        invariant 0 <= i <= |data.order|
        invariant mappings.Valid() && mappings.order == data.order && mappings.Keys() == data.Keys()
        invariant forall j :: 0 <= j < i ==> mappings.entries[data.order[j]] == Backfill(data.entries[data.order[j]])
        invariant forall j :: i <= j < |data.order| ==> mappings.entries[data.order[j]] == data.entries[data.order[j]]
      {
        var k := data.order[i];
        var m := mappings.entries[k];
        if m.needsUpdate.None? {
          mappings := mappings.Put(k, m.(needsUpdate := Some(false)));
        }
        i := i + 1;
      }
      forall k | k in data.entries ensures mappings.entries[k] == Backfill(data.entries[k]) {
        var j :| 0 <= j < |data.order| && data.order[j] == k;
      }
    }

    method AddMapping(tempoId: string, entryId: string, issueKey: string, tempoUpdatedAt: string,
                      solidtimeUpdatedAt: Option<string>, needsUpdate: bool)
      requires Valid()
      modifies this
      ensures Valid()
      ensures mappings == old(mappings).Put(tempoId, NewRow(entryId, issueKey, tempoUpdatedAt, solidtimeUpdatedAt, needsUpdate))
    {
      mappings := mappings.Put(tempoId, NewRow(entryId, issueKey, tempoUpdatedAt, solidtimeUpdatedAt, needsUpdate));
    }

    function GetSolidtimeEntryId(tempoId: string): (r: Option<string>)
      reads this
      ensures r.Some? <==> tempoId in mappings.entries
      ensures r.Some? ==> r.value == mappings.entries[tempoId].solidtimeEntryId
    {
      if tempoId in mappings.entries then Some(mappings.entries[tempoId].solidtimeEntryId) else None
    }

    /** The first Tempo id, in insertion order, mapped to Solidtime entry `entryId`. */
    function GetTempoWorklogId(entryId: string): (r: Option<string>)
      reads this
      requires Valid()
      ensures r.Some? ==> r.value in mappings.entries && mappings.entries[r.value].solidtimeEntryId == entryId
      ensures r.Some? ==> exists i :: (0 <= i < |mappings.order| && mappings.order[i] == r.value
        && forall j :: 0 <= j < i ==> mappings.entries[mappings.order[j]].solidtimeEntryId != entryId)
      ensures r.None? <==> forall k :: k in mappings.entries ==> mappings.entries[k].solidtimeEntryId != entryId
    {
      var r := FirstKeyFor(mappings.order, mappings.entries, entryId);
      assert r.None? ==> forall k :: k in mappings.entries ==> mappings.entries[k].solidtimeEntryId != entryId by {
        if r.None? {
          forall k | k in mappings.entries ensures mappings.entries[k].solidtimeEntryId != entryId {
            var j :| 0 <= j < |mappings.order| && mappings.order[j] == k;
          }
        }
      }
      r
    }

    method RemoveMapping(tempoId: string)
      requires Valid()
      modifies this
      ensures Valid()
      ensures mappings == old(mappings).Remove(tempoId)
      ensures tempoId !in old(mappings).entries ==> mappings == old(mappings)
    {
      if tempoId in mappings.entries {
        mappings := mappings.Remove(tempoId);
      }
    }

    function GetMappedSolidtimeEntryIds(): (r: set<string>)
      reads this
      ensures forall e :: e in r <==> exists k :: k in mappings.entries && mappings.entries[k].solidtimeEntryId == e
    {
      set k | k in mappings.entries :: mappings.entries[k].solidtimeEntryId
    }

    function GetMappedTempoWorklogIds(): (r: set<string>)
      reads this
      ensures forall k :: k in r <==> k in mappings.entries
    {
      mappings.entries.Keys
    }

    method MarkForUpdate(tempoId: string)
      requires Valid()
      modifies this
      ensures Valid() && mappings == WithFlag(old(mappings), tempoId, true)
    {
      if tempoId in mappings.entries {
        mappings := mappings.Put(tempoId, mappings.entries[tempoId].(needsUpdate := Some(true)));
      }
    }

    method ClearUpdateFlag(tempoId: string)
      requires Valid()
      modifies this
      ensures Valid() && mappings == WithFlag(old(mappings), tempoId, false)
    {
      if tempoId in mappings.entries {
        mappings := mappings.Put(tempoId, mappings.entries[tempoId].(needsUpdate := Some(false)));
      }
    }

    function NeedsUpdate(tempoId: string): (r: bool)
      reads this
      ensures r <==> tempoId in mappings.entries && Flag(mappings.entries[tempoId])
    {
      if tempoId in mappings.entries then Flag(mappings.entries[tempoId]) else false
    }

    /** Exactly the flagged Tempo ids, each once, in insertion order. */
    function GetEntriesNeedingUpdate(): (r: seq<string>)
      reads this
      requires Valid()
      ensures forall k :: k in r <==> k in mappings.entries && Flag(mappings.entries[k])
      ensures Distinct(r)
    {
      KeysFlagged(mappings.order, mappings.entries)
    }

    function IsTempoWorklogNewer(tempoId: string, tempoUpdatedAt: string): (r: bool)
      reads this
      ensures tempoId !in mappings.entries ==> r
      ensures tempoId in mappings.entries && mappings.entries[tempoId].tempoUpdatedAt == "" ==> !r
      ensures tempoId in mappings.entries && mappings.entries[tempoId].tempoUpdatedAt != "" ==>
        (r <==> LexLess(mappings.entries[tempoId].tempoUpdatedAt, tempoUpdatedAt))
    {
      IsNewer(mappings, tempoId, tempoUpdatedAt)
    }

    /** Collects the ids outside `existing`, then removes them one by one. */
    method CleanupOrphanedMappings(existing: set<string>)
      requires Valid()
      modifies this
      ensures Valid()
      ensures mappings.Keys() == old(mappings.Keys()) * existing
      ensures forall k :: k in mappings.entries ==> mappings.entries[k] == old(mappings.entries[k])
      ensures mappings.order == Keep(old(mappings.order), existing)
    {
      var order := mappings.order;
      var toRemove: seq<string> := [];
      var i := 0;
      while i < |order|
        invariant 0 <= i <= |order|
        invariant toRemove == Orphans(order[..i], existing)
        invariant mappings == old(mappings)
      {
        assert order[..i + 1] == order[..i] + [order[i]];
        OrphansAppend(order[..i], order[i], existing);
        if order[i] !in existing {
          toRemove := toRemove + [order[i]];
        }
        i := i + 1;
      }
      assert order[..i] == order;
      ghost var all := mappings.Keys();
      assert (set x | x in toRemove) == all - existing;
      RemoveMappings(toRemove);
      assert mappings.Keys() == all * existing;
      assert forall x :: x in order ==> x in all;
      KeepSameOn(order, all - (all - existing), existing);
    }

    /** The removal loop of the cleanup. */
    method RemoveMappings(ids: seq<string>)
      requires Valid()
      modifies this
      ensures Valid()
      ensures mappings.entries == old(mappings.entries) - set x | x in ids
      ensures mappings.order == Keep(old(mappings.order), old(mappings.Keys()) - set x | x in ids)
    {
      ghost var was := mappings;
      ghost var all := mappings.Keys();
      KeepEverything(was.order, all);
      var j := 0;
      ghost var removed: set<string> := {};
      while j < |ids|
        invariant 0 <= j <= |ids|
        invariant removed == set x | x in ids[..j]
        invariant mappings.Valid()
        invariant mappings.entries == was.entries - removed
        invariant mappings.order == Keep(was.order, all - removed)
      {
        var x := ids[j];
        KeepWithout(was.order, all - removed, x);
        assert all - removed - {x} == all - (removed + {x});
        assert was.entries - removed - {x} == was.entries - (removed + {x});
        IdsPrefixStep(ids, j, removed, ids[..j + 1]);
        mappings := mappings.Remove(x);
        removed := removed + {x};
        j := j + 1;
      }
      assert ids[..j] == ids;
    }

    function GetStatistics(): (r: Statistics)
      reads this
      ensures r.totalMappings == |mappings.entries|
      ensures r.uniqueIssues == |IssueKeys(mappings)|
    {
      Statistics(|mappings.entries|, |IssueKeys(mappings)|)
    }

    /** The body of the recovery loop for one entry: a row is added only for an unmapped marker id. */
    method RecoverEntry(e: SolidtimeEntry) returns (added: bool)
      requires Valid()
      modifies this
      ensures Valid()
      ensures (mappings, added) == RecoverOne(old(mappings), e)
    {
      added := false;
      if e.id != "" {
        var tid := FindMarker(e.description);
        if tid.Some? {
          var key := IssueKeyPrefix(e.description);
          if key.Some? {
            if tid.value !in mappings.entries {
              mappings := mappings.Put(tid.value, Mapping(e.id, key.value, "", e.updatedAt, None, true));
              added := true;
            }
          }
        }
      }
    }

    method RecoverMappingsFromDescriptions(entries: seq<SolidtimeEntry>) returns (count: nat)
      requires Valid()
      modifies this
      ensures Valid()
      ensures (mappings, count) == RecoverAll(old(mappings), entries)
    {
      ghost var t := mappings;
      count := 0;
      var i := 0;
      while i < |entries|
        invariant 0 <= i <= |entries|
        invariant (mappings, count) == RecoverPrefix(t, entries, i)
        invariant Valid()
      {
        var added := RecoverEntry(entries[i]);
        if added {
          count := count + 1;
        }
        i := i + 1;
      }
    }
  }

  lemma OrphansAppend(s: seq<string>, x: string, keep: set<string>)
    ensures Orphans(s + [x], keep) == Orphans(s, keep) + (if x !in keep then [x] else [])
  {
    if s != [] {
      assert (s + [x])[1..] == s[1..] + [x];
      OrphansAppend(s[1..], x, keep);
    }
  }
}
