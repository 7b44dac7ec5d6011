/**
  * The identity store of the minimal engine: Tempo worklog id -> Solidtime entry id,
  * with a per-run `processed` flag that tells which mappings a run did not see.  Every
  * read and write first turns the id into its `str()` form, so an integer id and its
  * decimal text address the same row.
  */
module MinimalStore {
  import opened Wrappers
  import opened Text
  import opened Dicts

  /** What a caller passes as `tempo_worklog_id`: an integer, a string or `None`. */
  datatype WorklogId = NumericId(n: int) | TextualId(s: string) | NoId

  /** `str(tempo_worklog_id)` */
  function KeyText(id: WorklogId): (s: string)
    ensures id.TextualId? ==> s == id.s
    ensures id.NoId? ==> s == "None"
    ensures id.NumericId? ==> ParseInt(s) == Some(id.n)
  {
    match id
    case NumericId(n) => ParseIntOfIntToString(n); IntToString(n)
    case TextualId(s) => s
    case NoId => "None"
  }

  /** Two integer ids share a row exactly when they are equal. */
  lemma NumericKeysDistinct(i: int, j: int)
    ensures KeyText(NumericId(i)) == KeyText(NumericId(j)) <==> i == j
  {
    if KeyText(NumericId(i)) == KeyText(NumericId(j)) {
      IntToStringInjective(i, j);
    }
  }

  /** An integer id and its decimal text address the same row. */
  lemma NumericAndTextualAgree(n: int, s: string)
    ensures KeyText(NumericId(n)) == KeyText(TextualId(s)) <==> s == IntToString(n)
  {
  }

  /**
    * One mapping row (the `created_at` timestamp is left out).  `processed` is `None`
    * until the first `mark_processed` or `reset_processed` writes it.
    */
  datatype Row = Row(solidtimeEntryId: string, issueKey: string, processed: Option<bool>)

  type Ledger = Dict<string, Row>

  /** `mapping.get("processed", False)` */
  function Processed(r: Row): bool {
    r.processed.GetOr(false)
  }

  /** Every row with its flag set to `False`, order and keys kept. */
  function ResetAll(t: Ledger): (r: Ledger)
    ensures r.order == t.order && r.Keys() == t.Keys()
    ensures forall k :: k in t.entries ==> r.entries[k] == t.entries[k].(processed := Some(false))
    ensures t.Valid() ==> r.Valid()
  {
    Dict(t.order, map k | k in t.entries :: t.entries[k].(processed := Some(false)))
  }

  /** The `(key, row)` pairs, in `order`, whose row is not marked processed. */
  function Pending(order: seq<string>, entries: map<string, Row>): (r: seq<(string, Row)>)
    ensures |r| <= |order|
    ensures forall i :: 0 <= i < |r| ==>
      r[i].0 in order && r[i].0 in entries && r[i].1 == entries[r[i].0] && !Processed(r[i].1)
    ensures forall k :: k in order && k in entries && !Processed(entries[k]) ==>
      exists i :: 0 <= i < |r| && r[i].0 == k
  {
    if order == [] then []
    else
      var rest := Pending(order[1..], entries);
      var k := order[0];
      var r := if k in entries && !Processed(entries[k]) then [(k, entries[k])] + rest else rest;
      assert forall x :: x in order[1..] && x in entries && !Processed(entries[x]) ==>
        exists i :: 0 <= i < |r| && r[i].0 == x by {
        forall x | x in order[1..] && x in entries && !Processed(entries[x])
          ensures exists i :: 0 <= i < |r| && r[i].0 == x
        {
          var i :| 0 <= i < |rest| && rest[i].0 == x;
          if k in entries && !Processed(entries[k]) {
            assert r[i + 1].0 == x;
          } else {
            assert r[i].0 == x;
          }
        }
      }
      assert k in entries && !Processed(entries[k]) ==> r[0].0 == k;
      r
  }

  /**
    * When no row of `order` is processed, the pending list is all of them, one pair per
    * key, in order.
    */
  lemma {:induction false} PendingOfUnprocessed(order: seq<string>, entries: map<string, Row>)
    requires forall k :: k in order ==> k in entries && !Processed(entries[k])
    ensures |Pending(order, entries)| == |order|
    ensures forall i :: 0 <= i < |order| ==> Pending(order, entries)[i] == (order[i], entries[order[i]])
    decreases |order|
  {
    if order != [] {
      assert order[0] in order;
      assert forall k :: k in order[1..] ==> k in order;
      PendingOfUnprocessed(order[1..], entries);
      var r := Pending(order, entries);
      assert r == [(order[0], entries[order[0]])] + Pending(order[1..], entries);
      forall i | 0 <= i < |order| ensures r[i] == (order[i], entries[order[i]]) {
        if i > 0 {
          assert r[i] == Pending(order[1..], entries)[i - 1];
          assert order[1..][i - 1] == order[i];
        }
      }
    }
  }

  /** After a reset every mapping is pending, in insertion order: a run starts from a clean slate. */
  lemma ResetMakesAllPending(t: Ledger)
    requires t.Valid()
    ensures var r := ResetAll(t);
      |Pending(r.order, r.entries)| == |t.order|
      && forall i :: 0 <= i < |t.order| ==>
        Pending(r.order, r.entries)[i].0 == t.order[i]
        && Pending(r.order, r.entries)[i].1 == t.entries[t.order[i]].(processed := Some(false))
  {
    var r := ResetAll(t);
    PendingOfUnprocessed(r.order, r.entries);
  }

  /** A mapping marked processed after a reset is no longer pending; the others still are. */
  lemma MarkedIsNotPending(t: Ledger, k: string)
    requires t.Valid() && k in t.entries
    ensures var r := ResetAll(t);
      var m := r.Put(k, r.entries[k].(processed := Some(true)));
      (forall i :: 0 <= i < |Pending(m.order, m.entries)| ==> Pending(m.order, m.entries)[i].0 != k)
      && forall x :: x in t.entries && x != k ==> exists i :: 0 <= i < |Pending(m.order, m.entries)| && Pending(m.order, m.entries)[i].0 == x
  {
    var r := ResetAll(t);
    var m := r.Put(k, r.entries[k].(processed := Some(true)));
    forall x | x in t.entries && x != k
      ensures exists i :: 0 <= i < |Pending(m.order, m.entries)| && Pending(m.order, m.entries)[i].0 == x
    {
      assert m.order == t.order && x in t.order;
      assert m.entries[x] == r.entries[x] == t.entries[x].(processed := Some(false));
      assert x in m.order && x in m.entries && !Processed(m.entries[x]);
      var p := Pending(m.order, m.entries);
      assert exists i :: 0 <= i < |p| && p[i].0 == x;
    }
  }

  /** `get_stats` */
  datatype Stats = Stats(totalMappings: nat, uniqueIssues: nat)

  function IssueKeys(t: Ledger): set<string> {
    set k | k in t.entries :: t.entries[k].issueKey
  }

  /** Rows that all name one issue count as one unique issue. */
  lemma OneIssueCountsOnce(t: Ledger, key: string)
    requires t.entries != map[]
    requires forall k :: k in t.entries ==> t.entries[k].issueKey == key
    ensures |IssueKeys(t)| == 1
  {
    var k :| k in t.entries;
    assert IssueKeys(t) == {key};
  }

  /** There are never more unique issues than mappings. */
  lemma UniqueIssuesBounded(t: Ledger)
    ensures |IssueKeys(t)| <= |t.entries|
  {
    IssuesOfBounded(t, t.entries.Keys);
    assert IssueKeys(t) == IssuesOf(t, t.entries.Keys);
  }

  function IssuesOf(t: Ledger, ks: set<string>): set<string>
    requires ks <= t.entries.Keys
  {
    set k | k in ks :: t.entries[k].issueKey
  }

  lemma {:induction false} IssuesOfBounded(t: Ledger, ks: set<string>)
    requires ks <= t.entries.Keys
    ensures |IssuesOf(t, ks)| <= |ks|
    decreases |ks|
  {
    if ks != {} {
      var x :| x in ks;
      var rest := ks - {x};
      IssuesOfBounded(t, rest);
      assert IssuesOf(t, ks) == IssuesOf(t, rest) + {t.entries[x].issueKey};
    }
  }

  class WorklogMapping {
    var mappings: Ledger

    ghost predicate Valid()
      reads this
    {
      mappings.Valid()
    }

    /** A store with no file yet holds no mappings. */
    constructor ()
      ensures Valid() && mappings == EmptyDict()
    {
      mappings := EmptyDict();
    }

    /** `get_solidtime_entry_id` */
    function GetSolidtimeEntryId(id: WorklogId): (r: Option<string>)
      reads this
      ensures r.Some? <==> KeyText(id) in mappings.entries
      ensures r.Some? ==> r.value == mappings.entries[KeyText(id)].solidtimeEntryId
    {
      if KeyText(id) in mappings.entries then Some(mappings.entries[KeyText(id)].solidtimeEntryId) else None
    }

    /** `add_mapping` replaces the whole row, so a `processed` flag is dropped. */
    method AddMapping(id: WorklogId, entryId: string, issueKey: string)
      requires Valid()
      modifies this
      ensures Valid()
      ensures mappings == old(mappings).Put(KeyText(id), Row(entryId, issueKey, None))
      ensures IsAlreadySynced(id) && GetSolidtimeEntryId(id) == Some(entryId)
      ensures forall k :: k in old(mappings).entries && k != KeyText(id) ==> k in mappings.entries && mappings.entries[k] == old(mappings).entries[k]
    {
      mappings := mappings.Put(KeyText(id), Row(entryId, issueKey, None));
    }

    /** `is_already_synced`: the id is synced exactly when a lookup finds its entry. */
    predicate IsAlreadySynced(id: WorklogId)
      reads this
      ensures IsAlreadySynced(id) <==> GetSolidtimeEntryId(id).Some?
    {
      KeyText(id) in mappings.entries
    }

    function GetStats(): (r: Stats)
      reads this
      ensures r.totalMappings == |mappings.entries|
      ensures r.uniqueIssues == |IssueKeys(mappings)| <= r.totalMappings
    {
      UniqueIssuesBounded(mappings);
      Stats(|mappings.entries|, |IssueKeys(mappings)|)
    }

    /** `mark_processed` sets the flag of an existing row and creates none. */
    method MarkProcessed(id: WorklogId)
      requires Valid()
      modifies this
      ensures Valid() && mappings.order == old(mappings.order) && mappings.Keys() == old(mappings.Keys())
      ensures KeyText(id) in mappings.entries ==> mappings.entries[KeyText(id)] == old(mappings.entries[KeyText(id)]).(processed := Some(true))
      ensures forall k :: k in mappings.entries && k != KeyText(id) ==> mappings.entries[k] == old(mappings.entries[k])
    {
      var k := KeyText(id);
      if k in mappings.entries {
        mappings := mappings.Put(k, mappings.entries[k].(processed := Some(true)));
      }
    }

    /** `reset_processed`: one pass over the rows, clearing each flag. */
    method ResetProcessed()
      requires Valid()
      modifies this
      ensures Valid() && mappings == ResetAll(old(mappings))
    {
      ghost var start := mappings;
      var order := mappings.order;
      var i := 0;
      while i < |order|
        invariant 0 <= i <= |order| && order == start.order
        invariant mappings.Valid() && mappings.order == start.order && mappings.Keys() == start.Keys()
        invariant forall j :: 0 <= j < i ==> mappings.entries[start.order[j]] == start.entries[start.order[j]].(processed := Some(false))
        invariant forall j :: i <= j < |start.order| ==> mappings.entries[start.order[j]] == start.entries[start.order[j]]
      {
        var k := order[i];
        mappings := mappings.Put(k, mappings.entries[k].(processed := Some(false)));
        i := i + 1;
      }
      forall k | k in start.entries ensures mappings.entries[k] == ResetAll(start).entries[k] {
        var j :| 0 <= j < |start.order| && start.order[j] == k;
      }
      assert mappings.entries == ResetAll(start).entries;
    }

    /** `get_unprocessed_mappings`: the rows whose flag is not `True`, in insertion order. */
    function GetUnprocessedMappings(): (r: seq<(string, Row)>)
      reads this
      requires Valid()
      ensures forall i :: 0 <= i < |r| ==> r[i].0 in mappings.entries && r[i].1 == mappings.entries[r[i].0] && !Processed(r[i].1)
      ensures forall k :: k in mappings.entries && !Processed(mappings.entries[k]) ==> exists i :: 0 <= i < |r| && r[i].0 == k
    {
      Pending(mappings.order, mappings.entries)
    }

    /** `remove_mapping` deletes that row and nothing else, and is a no-op for an absent id. */
    method RemoveMapping(id: WorklogId)
      requires Valid()
      modifies this
      ensures Valid() && mappings == old(mappings).Remove(KeyText(id))
      ensures !IsAlreadySynced(id)
      ensures KeyText(id) !in old(mappings).entries ==> mappings == old(mappings)
    {
      if KeyText(id) in mappings.entries {
        mappings := mappings.Remove(KeyText(id));
      }
    }
  }
}
