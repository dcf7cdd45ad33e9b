/** `sort_antennas_by_connection_speed` and `sort_antennas_by_range`:
    Python's `sorted(antennas, key=lambda antenna: antenna[k], reverse=True)`,
    which builds a new list, orders it by non-increasing key and keeps
    records with equal keys in their input order. */
module Sorting {
  import opened Errors
  import opened Records

  /** The sort key `antenna[k]`; the callers check that every record has it. */
  function Key(a: Record, k: nat): int
  {
    if k < |a| then a[k] else 0
  }

  /** Every record has a field at position k, so `antenna[k]` raises nothing. */
  predicate HasField(s: seq<Record>, k: nat)
  {
    forall a :: a in s ==> k < |a|
  }

  predicate NonIncreasing(s: seq<Record>, k: nat)
  {
    forall i, j :: 0 <= i < j < |s| ==> Key(s[i], k) >= Key(s[j], k)
  }

  /** The records of s whose key is v, in the order they appear in s. */
  function WithKey(s: seq<Record>, k: nat, v: int): seq<Record>
  {
    if s == [] then [] else (if Key(s[0], k) == v then [s[0]] else []) + WithKey(s[1..], k, v)
  }

  /** r lists the records of s by non-increasing key; records with equal
      keys keep their relative order from s. */
  ghost predicate IsStableDescendingSort(r: seq<Record>, s: seq<Record>, k: nat)
  {
    multiset(r) == multiset(s) && NonIncreasing(r, k) &&
    forall v :: WithKey(r, k, v) == WithKey(s, k, v)
  }

  lemma WithKeyCons(x: Record, t: seq<Record>, k: nat, v: int)
    ensures WithKey([x] + t, k, v) == (if Key(x, k) == v then [x] else []) + WithKey(t, k, v)
  {
  }

  /** Puts x in front of the first record of t whose key is at most x's. */
  function Insert(x: Record, t: seq<Record>, k: nat): (r: seq<Record>)
    requires NonIncreasing(t, k)
    ensures multiset(r) == multiset(t) + multiset{x}
    ensures NonIncreasing(r, k)
  {
    if t == [] || Key(x, k) >= Key(t[0], k) then
      ConsNonIncreasing(x, t, k);
      [x] + t
    else
      var rest := Insert(x, t[1..], k);
      assert t == [t[0]] + t[1..];
      KeysBounded(rest, t[1..], x, k, Key(t[0], k));
      ConsNonIncreasing(t[0], rest, k);
      [t[0]] + rest
  }

  /** Inserting x adds it at the head of its key group and leaves the other
      groups as they were. */
  lemma {:induction false} InsertGroups(x: Record, t: seq<Record>, k: nat, v: int)
    requires NonIncreasing(t, k)
    ensures WithKey(Insert(x, t, k), k, v) == (if Key(x, k) == v then [x] else []) + WithKey(t, k, v)
  {
    if t == [] || Key(x, k) >= Key(t[0], k) {
      WithKeyCons(x, t, k, v);
    } else {
      var rest := Insert(x, t[1..], k);
      InsertGroups(x, t[1..], k, v);
      assert t == [t[0]] + t[1..];
      WithKeyCons(t[0], rest, k, v);
      WithKeyCons(t[0], t[1..], k, v);
      var w := WithKey(t[1..], k, v);
      if Key(t[0], k) == v {
        assert WithKey(Insert(x, t, k), k, v) == [t[0]] + w;
      } else if Key(x, k) == v {
        assert WithKey(Insert(x, t, k), k, v) == [x] + w;
      } else {
        assert WithKey(Insert(x, t, k), k, v) == w;
      }
    }
  }

  lemma ConsNonIncreasing(a: Record, t: seq<Record>, k: nat)
    requires NonIncreasing(t, k)
    requires forall m :: 0 <= m < |t| ==> Key(t[m], k) <= Key(a, k)
    ensures NonIncreasing([a] + t, k)
  {
  }

  /** A key bound that holds of x and of every record of t holds of every
      record of a permutation of t with x added. */
  lemma KeysBounded(r: seq<Record>, t: seq<Record>, x: Record, k: nat, c: int)
    requires multiset(r) == multiset(t) + multiset{x}
    requires Key(x, k) <= c
    requires forall m :: 0 <= m < |t| ==> Key(t[m], k) <= c
    ensures forall m :: 0 <= m < |r| ==> Key(r[m], k) <= c
  {
    forall m | 0 <= m < |r| ensures Key(r[m], k) <= c {
      assert r[m] in multiset(r);
      if r[m] != x {
        assert r[m] in multiset(t);
        var n :| 0 <= n < |t| && t[n] == r[m];
      }
    }
  }

  /** A stable sort by non-increasing key (insertion sort from the back). */
  function SortDescending(s: seq<Record>, k: nat): (r: seq<Record>)
    ensures IsStableDescendingSort(r, s, k)
  {
    if s == [] then []
    else
      var tail := SortDescending(s[1..], k);
      InsertKeepsSorted(s, tail, k);
      Insert(s[0], tail, k)
  }

  /** Inserting the head of s into a stable sort of its tail gives a stable
      sort of s. */
  lemma InsertKeepsSorted(s: seq<Record>, tail: seq<Record>, k: nat)
    requires s != [] && IsStableDescendingSort(tail, s[1..], k)
    ensures IsStableDescendingSort(Insert(s[0], tail, k), s, k)
  {
    assert s == [s[0]] + s[1..];
    forall v ensures WithKey(Insert(s[0], tail, k), k, v) == WithKey(s, k, v) {
      InsertGroups(s[0], tail, k, v);
      WithKeyCons(s[0], s[1..], k, v);
    }
  }

  /** The sort keyed on `antenna[1]`, the connection speed. */
  function SortAntennasByConnectionSpeed(antennas: seq<Record>): (r: Result<seq<Record>>)
    ensures r.Ok? <==> HasField(antennas, 1)
    ensures r.Err? ==> r.error == IndexError
    ensures r.Ok? ==> IsStableDescendingSort(r.value, antennas, 1)
  {
    if HasField(antennas, 1) then Ok(SortDescending(antennas, 1)) else Err(IndexError)
  }

  /** The sort keyed on `antenna[0]`, the range. */
  function SortAntennasByRange(antennas: seq<Record>): (r: Result<seq<Record>>)
    ensures r.Ok? <==> HasField(antennas, 0)
    ensures r.Err? ==> r.error == IndexError
    ensures r.Ok? ==> IsStableDescendingSort(r.value, antennas, 0)
  {
    if HasField(antennas, 0) then Ok(SortDescending(antennas, 0)) else Err(IndexError)
  }

  /** Being a permutation, ordered and stable pins the result down: the
      model is the only list Python's stable `sorted` could return. */
  lemma StableDescendingSortUnique(r1: seq<Record>, r2: seq<Record>, s: seq<Record>, k: nat)
    requires IsStableDescendingSort(r1, s, k) && IsStableDescendingSort(r2, s, k)
    ensures r1 == r2
  {
    SameKeyGroupsUnique(r1, r2, k);
  }

  lemma {:induction false} SameKeyGroupsUnique(r1: seq<Record>, r2: seq<Record>, k: nat)
    requires multiset(r1) == multiset(r2)
    requires NonIncreasing(r1, k) && NonIncreasing(r2, k)
    requires forall v :: WithKey(r1, k, v) == WithKey(r2, k, v)
    ensures r1 == r2
    decreases |r1|
  {
    assert |r1| == |multiset(r1)| == |multiset(r2)| == |r2|;
    if r1 != [] {
      var a := r1[0];
      OrderedHeadsEqual(r1, r2, k);
      var t1, t2 := r1[1..], r2[1..];
      assert r1 == [a] + t1 && r2 == [a] + t2;
      TailMultiset(a, t1, t2);
      TailGroupsAll(a, t1, t2, k);
      SameKeyGroupsUnique(t1, t2, k);
    }
  }

  /** Both orderings start with a record of the largest key, and the key
      groups agree, so they start with the same record. */
  lemma OrderedHeadsEqual(r1: seq<Record>, r2: seq<Record>, k: nat)
    requires r1 != [] && r2 != [] && multiset(r1) == multiset(r2)
    requires NonIncreasing(r1, k) && NonIncreasing(r2, k)
    requires forall v :: WithKey(r1, k, v) == WithKey(r2, k, v)
    ensures r1[0] == r2[0]
  {
    assert r2[0] in multiset(r2);
    HeadKeyIsMax(r1, k, r2[0]);
    assert r1[0] in multiset(r1);
    HeadKeyIsMax(r2, k, r1[0]);
    SameHead(r1, r2, k);
  }

  lemma TailGroupsAll(a: Record, t1: seq<Record>, t2: seq<Record>, k: nat)
    requires forall v :: WithKey([a] + t1, k, v) == WithKey([a] + t2, k, v)
    ensures forall v :: WithKey(t1, k, v) == WithKey(t2, k, v)
  {
    forall v ensures WithKey(t1, k, v) == WithKey(t2, k, v) {
      TailGroups(a, t1, t2, k, v);
    }
  }

  lemma HeadKeyIsMax(r: seq<Record>, k: nat, b: Record)
    requires NonIncreasing(r, k) && r != [] && b in multiset(r)
    ensures Key(r[0], k) >= Key(b, k)
  {
  }

  /** Two orderings whose heads have one key and whose key groups agree
      start with the same record. */
  lemma SameHead(r1: seq<Record>, r2: seq<Record>, k: nat)
    requires r1 != [] && r2 != [] && Key(r1[0], k) == Key(r2[0], k)
    requires WithKey(r1, k, Key(r1[0], k)) == WithKey(r2, k, Key(r1[0], k))
    ensures r1[0] == r2[0]
  {
    var v := Key(r1[0], k);
    assert r1 == [r1[0]] + r1[1..] && r2 == [r2[0]] + r2[1..];
    WithKeyCons(r1[0], r1[1..], k, v);
    WithKeyCons(r2[0], r2[1..], k, v);
    assert WithKey(r1, k, v)[0] == r1[0];
    assert WithKey(r2, k, v)[0] == r2[0];
  }

  lemma TailMultiset(a: Record, t1: seq<Record>, t2: seq<Record>)
    requires multiset([a] + t1) == multiset([a] + t2)
    ensures multiset(t1) == multiset(t2)
  {
    assert multiset(t1) == multiset([a] + t1) - multiset{a};
    assert multiset(t2) == multiset([a] + t2) - multiset{a};
  }

  lemma TailGroups(a: Record, t1: seq<Record>, t2: seq<Record>, k: nat, v: int)
    requires WithKey([a] + t1, k, v) == WithKey([a] + t2, k, v)
    ensures WithKey(t1, k, v) == WithKey(t2, k, v)
  {
    WithKeyCons(a, t1, k, v);
    WithKeyCons(a, t2, k, v);
    var p: seq<Record> := if Key(a, k) == v then [a] else [];
    assert WithKey(t1, k, v) == (p + WithKey(t1, k, v))[|p|..];
    assert WithKey(t2, k, v) == (p + WithKey(t2, k, v))[|p|..];
  }
}
