/**
  * Python dictionaries whose iteration order is observable: a map together with the
  * sequence of its keys in insertion order.  Assigning to an existing key keeps its
  * position, assigning to a new key appends it, deleting a key drops it from the order.
  */
module Dicts {
  import opened Wrappers

  predicate Distinct<K(==)>(s: seq<K>) {
    forall i, j :: 0 <= i < j < |s| ==> s[i] != s[j]
  }

  /** Appending a new element keeps a sequence free of duplicates. */
  lemma DistinctSnoc<K>(s: seq<K>, x: K)
    requires Distinct(s) && x !in s
    ensures Distinct(s + [x])
  {
    var t := s + [x];
    forall i, j | 0 <= i < j < |t| ensures t[i] != t[j] {
      if j == |s| {
        assert t[i] == s[i];
      } else {
        assert t[i] == s[i] && t[j] == s[j];
      }
    }
  }

  /** `s` without the element `k`, order otherwise kept. */
  function Without<K(==,!new)>(s: seq<K>, k: K): (r: seq<K>)
    ensures forall x :: x in r <==> x in s && x != k
    ensures Distinct(s) ==> Distinct(r)
    ensures k !in s ==> r == s
    ensures |r| <= |s|
  {
    if s == [] then []
    else if s[0] == k then Without(s[1..], k)
    else
      var r := Without(s[1..], k);
      assert Distinct(s) ==> s[0] !in s[1..] by {
        if Distinct(s) {
          forall x | x in s[1..] ensures x != s[0] {
            var j :| 0 <= j < |s| - 1 && s[1..][j] == x;
            assert s[j + 1] == x;
          }
        }
      }
      assert Distinct(s) ==> s[0] !in r;
      [s[0]] + r
  }

  datatype Dict<K(==,!new), V> = Dict(order: seq<K>, entries: map<K, V>) {

    ghost predicate Valid() {
      Distinct(order) && forall k :: k in entries <==> k in order
    }

    function Keys(): set<K> { entries.Keys }

    function Size(): nat { |entries| }

    /** `d.get(k)` */
    function Get(k: K): (r: Option<V>)
      ensures r.Some? <==> k in entries
      ensures r.Some? ==> r.value == entries[k]
    {
      if k in entries then Some(entries[k]) else None
    }

    /** `d[k] = v` */
    function Put(k: K, v: V): (d: Dict<K, V>)
      ensures d.entries == entries[k := v]
      ensures d.order == if k in entries then order else order + [k]
      ensures Valid() ==> d.Valid()
    {
      Dict(if k in entries then order else order + [k], entries[k := v])
    }

    /** `del d[k]` when `k` is present, nothing otherwise. */
    function Remove(k: K): (d: Dict<K, V>)
      ensures d.entries == entries - {k}
      ensures d.order == Without(order, k)
      ensures Valid() ==> d.Valid()
      ensures k !in entries && Valid() ==> d == this
    {
      Dict(Without(order, k), entries - {k})
    }
  }

  function EmptyDict<K(==,!new), V>(): (d: Dict<K, V>)
    ensures d.Valid() && d.entries == map[] && d.order == []
  {
    Dict([], map[])
  }

  /** The elements of `s` that are not in `known`, in the order of `s`. */
  function NewKeys<K(==,!new)>(known: set<K>, s: seq<K>): (r: seq<K>)
    ensures |r| <= |s|
    ensures forall x :: x in r <==> x in s && x !in known
    ensures Distinct(s) ==> Distinct(r)
    decreases |s|
  {
    if s == [] then []
    else
      var r := NewKeys(known, s[1..]);
      if s[0] in known then r
      else
        assert Distinct(s) ==> s[0] !in s[1..] by {
          if Distinct(s) {
            forall x | x in s[1..] ensures x != s[0] {
              var j :| 0 <= j < |s| - 1 && s[1..][j] == x;
              assert s[j + 1] == x;
            }
          }
        }
        assert Distinct(s) ==> s[0] !in r;
        [s[0]] + r
  }

  /**
    * `{**a, **b}`: every key of `b` takes `b`'s value; the other keys of `a` are kept.
    * The keys of `a` keep their places, and the keys only `b` has follow them in `b`'s order.
    */
  function Merge<K(==,!new), V>(a: Dict<K, V>, b: Dict<K, V>): (d: Dict<K, V>)
    requires a.Valid() && b.Valid()
    ensures d.Valid()
    ensures d.Keys() == a.Keys() + b.Keys()
    ensures forall k :: k in b.entries ==> d.entries[k] == b.entries[k]
    ensures forall k :: k in a.entries && k !in b.entries ==> d.entries[k] == a.entries[k]
    ensures d.order == a.order + NewKeys(a.Keys(), b.order)
  {
    var order := a.order + NewKeys(a.Keys(), b.order);
    DistinctAppend(a.order, NewKeys(a.Keys(), b.order));
    Dict(order, map k | k in a.Keys() + b.Keys() :: if k in b.entries then b.entries[k] else a.entries[k])
  }

  /** Two duplicate-free sequences with no common element concatenate to one. */
  lemma DistinctAppend<K>(s: seq<K>, t: seq<K>)
    requires Distinct(s) && Distinct(t) && forall x :: x in t ==> x !in s
    ensures Distinct(s + t)
  {
    var u := s + t;
    forall i, j | 0 <= i < j < |u| ensures u[i] != u[j] {
      if i < |s| && j >= |s| {
        assert u[j] == t[j - |s|] && u[j] in t;
        assert u[i] == s[i] && u[i] in s;
      } else if i >= |s| {
        assert u[i] == t[i - |s|] && u[j] == t[j - |s|];
      } else {
        assert u[i] == s[i] && u[j] == s[j];
      }
    }
  }
}
