/**
 * The list work the backend's queries and comprehensions do: keep the rows a
 * condition accepts (`.filter(...)`, `[x for x in xs if ...]`) and order rows by a
 * key (`.order_by(...)`). The database does not promise how rows with equal keys
 * are ordered, so sorting is specified as "ordered, and a permutation of the input".
 */
module Sequences {

  /** `le` orders every pair of values and is transitive: an `ORDER BY` on one column. */
  ghost predicate TotalPreorder<T(!new)>(le: (T, T) -> bool) {
    (forall a, b :: le(a, b) || le(b, a))
    && (forall a, b, c :: le(a, b) && le(b, c) ==> le(a, c))
  }

  predicate SortedBy<T>(s: seq<T>, le: (T, T) -> bool) {
    forall i, j :: 0 <= i < j < |s| ==> le(s[i], s[j])
  }

  predicate Distinct<T(==)>(s: seq<T>) {
    forall i, j :: 0 <= i < j < |s| ==> s[i] != s[j]
  }

  /** The elements `p` accepts, each as often as it occurs in `s`. */
  function Filter<T(!new,==)>(s: seq<T>, p: T -> bool): (r: seq<T>)
    ensures |r| <= |s|
    ensures forall i :: 0 <= i < |r| ==> p(r[i])
    ensures forall x :: multiset(r)[x] == if p(x) then multiset(s)[x] else 0
  {
    if s == [] then []
    else
      assert s == [s[0]] + s[1..];
      (if p(s[0]) then [s[0]] else []) + Filter(s[1..], p)
  }

  /** A sorted sequence stays sorted under a new head that precedes each element. */
  lemma ConsSorted<T>(h: T, t: seq<T>, le: (T, T) -> bool)
    requires SortedBy(t, le)
    requires forall j :: 0 <= j < |t| ==> le(h, t[j])
    ensures SortedBy([h] + t, le)
  {
  }

  /** An element that precedes `x` and every element of `s` precedes every element of a permutation of `s` plus `x`. */
  lemma PrecedesAll<T>(h: T, x: T, s: seq<T>, t: seq<T>, le: (T, T) -> bool)
    requires le(h, x)
    requires forall j :: 0 <= j < |s| ==> le(h, s[j])
    requires multiset(t) == multiset(s) + multiset{x}
    ensures forall j :: 0 <= j < |t| ==> le(h, t[j])
  {
    forall j | 0 <= j < |t|
      ensures le(h, t[j])
    {
      assert t[j] in multiset(t);
      if t[j] != x {
        assert t[j] in multiset(s);
      }
    }
  }

  /** Inserts `x` into a sorted sequence, after every element it does not precede. */
  function Insert<T(!new,==)>(x: T, s: seq<T>, le: (T, T) -> bool): (r: seq<T>)
    requires TotalPreorder(le)
    requires SortedBy(s, le)
    ensures SortedBy(r, le)
    ensures multiset(r) == multiset(s) + multiset{x}
  {
    if s == [] || le(x, s[0]) then
      ConsSorted(x, s, le);
      [x] + s
    else
      var t := Insert(x, s[1..], le);
      assert s == [s[0]] + s[1..];
      PrecedesAll(s[0], x, s[1..], t, le);
      ConsSorted(s[0], t, le);
      [s[0]] + t
  }

  /** Insertion sort: `s` ordered by `le`. */
  function SortBy<T(!new,==)>(s: seq<T>, le: (T, T) -> bool): (r: seq<T>)
    requires TotalPreorder(le)
    ensures SortedBy(r, le)
    ensures multiset(r) == multiset(s)
  {
    if s == [] then []
    else
      assert s == [s[0]] + s[1..];
      Insert(s[0], SortBy(s[1..], le), le)
  }

  /** A sequence without repetitions has as many elements as it has members. */
  lemma {:induction false} DistinctCardinality<T>(s: seq<T>)
    requires Distinct(s)
    ensures |set x | x in s| == |s|
  {
    if s != [] {
      assert Distinct(s[1..]);
      DistinctCardinality(s[1..]);
      assert (set x | x in s) == {s[0]} + (set x | x in s[1..]);
      assert s[0] !in (set x | x in s[1..]);
    }
  }

  /** `f` applied to each element of `s`, in order. */
  function Map<A, B>(s: seq<A>, f: A -> B): (r: seq<B>)
    ensures |r| == |s| && forall i :: 0 <= i < |s| ==> r[i] == f(s[i])
  {
    seq(|s|, i requires 0 <= i < |s| => f(s[i]))
  }

  /** One step of a loop that appends `f` of each element of `s`: one more element is mapped. */
  lemma MapStep<A, B>(s: seq<A>, i: nat, f: A -> B)
    requires i < |s|
    ensures Map(s[..i + 1], f) == Map(s[..i], f) + [f(s[i])]
  {
    var a, b := Map(s[..i + 1], f), Map(s[..i], f) + [f(s[i])];
    assert |a| == |b|;
    forall k | 0 <= k < |a|
      ensures a[k] == b[k]
    {
      if k < i {
        assert s[..i + 1][k] == s[..i][k];
      }
    }
  }

  /** A selection `r` of `rows` by `p` holds each of its elements in `rows`, and every element of `rows` that passes. */
  lemma SelectedMembers<T>(rows: seq<T>, r: seq<T>, p: T -> bool)
    requires forall x :: multiset(r)[x] == if p(x) then multiset(rows)[x] else 0
    ensures multiset(r) <= multiset(rows)
    ensures forall i :: 0 <= i < |r| ==> r[i] in rows && p(r[i])
    ensures forall k :: 0 <= k < |rows| && p(rows[k]) ==> rows[k] in r
  {
    forall i | 0 <= i < |r|
      ensures r[i] in rows && p(r[i])
    {
      assert r[i] in multiset(r);
    }
    forall k | 0 <= k < |rows| && p(rows[k])
      ensures rows[k] in r
    {
      assert rows[k] in multiset(rows);
    }
  }

  /** Elements with pairwise different keys that cover a set of keys exactly are as many as the keys. */
  lemma KeyCount<T>(rows: seq<T>, key: T -> int, keys: set<int>)
    requires forall i, j :: 0 <= i < j < |rows| ==> key(rows[i]) != key(rows[j])
    requires forall i :: 0 <= i < |rows| ==> key(rows[i]) in keys
    requires forall k :: k in keys ==> exists i :: 0 <= i < |rows| && key(rows[i]) == k
    ensures |rows| == |keys|
  {
    var ks := seq(|rows|, i requires 0 <= i < |rows| => key(rows[i]));
    assert Distinct(ks);
    DistinctCardinality(ks);
    forall k | k in keys
      ensures k in ks
    {
      var i :| 0 <= i < |rows| && key(rows[i]) == k;
      assert ks[i] == k;
    }
    assert (set k | k in ks) == keys;
  }

  /** Two equal elements at distinct positions count twice. */
  lemma RepeatCounts<T>(s: seq<T>, i: int, j: int)
    requires 0 <= i < j < |s| && s[i] == s[j]
    ensures multiset(s)[s[i]] >= 2
  {
    assert s == s[..j] + s[j..];
    assert s[i] in s[..j];
    assert s[j] in s[j..];
  }

  lemma {:induction false} DistinctCounts<T>(s: seq<T>)
    requires Distinct(s)
    ensures forall x :: multiset(s)[x] <= 1
  {
    if s != [] {
      assert s == [s[0]] + s[1..];
      assert Distinct(s[1..]);
      DistinctCounts(s[1..]);
      assert s[0] !in s[1..];
    }
  }

  /** Reordering or dropping elements of a sequence without repetitions cannot create one. */
  lemma SubmultisetDistinct<T>(s: seq<T>, r: seq<T>)
    requires multiset(r) <= multiset(s)
    requires Distinct(s)
    ensures Distinct(r)
  {
    DistinctCounts(s);
    forall i, j | 0 <= i < j < |r|
      ensures r[i] != r[j]
    {
      if r[i] == r[j] {
        RepeatCounts(r, i, j);
        assert false;
      }
    }
  }

  lemma ConsPrefix<T>(s: seq<T>, k: nat)
    requires k < |s|
    ensures [s[0]] + s[1..][..k] == s[..k + 1]
  {
  }

  lemma {:induction false} FilterRejectsAll<T(!new)>(s: seq<T>, p: T -> bool)
    requires forall i :: 0 <= i < |s| ==> !p(s[i])
    ensures Filter(s, p) == []
  {
    if s != [] {
      FilterRejectsAll(s[1..], p);
    }
  }

  /**
   * Filtering a sorted sequence by a condition that holds of everything below any
   * accepted element (a threshold on the sort key) keeps a prefix.
   */
  lemma {:induction false} FilterSortedIsPrefix<T(!new)>(s: seq<T>, le: (T, T) -> bool, p: T -> bool)
    requires SortedBy(s, le)
    requires forall x, y :: p(y) && le(x, y) ==> p(x)
    ensures Filter(s, p) == s[..|Filter(s, p)|]
  {
    if s != [] {
      var tail := s[1..];
      var rest := Filter(tail, p);
      if p(s[0]) {
        assert SortedBy(tail, le);
        FilterSortedIsPrefix(tail, le, p);
        assert Filter(s, p) == [s[0]] + rest;
        ConsPrefix(s, |rest|);
      } else {
        forall i | 0 <= i < |tail|
          ensures !p(tail[i])
        {
          assert le(s[0], s[i + 1]);
        }
        FilterRejectsAll(tail, p);
        assert Filter(s, p) == [];
      }
    }
  }
}
