/**
 * The check marks both shopping pages keep (ShoppingPage.jsx and
 * Shopping.jsx): an object from list positions to booleans, where a missing
 * position counts as unchecked, and the `filter((_, i) => ...)` selections
 * of the items by their mark.
 */
module Checklist {
  import opened Sequences

  /** `checked[i]`, read as a condition: a missing key is `undefined`, which is false. */
  predicate IsChecked(checked: map<int, bool>, i: int) {
    i in checked && checked[i]
  }

  /** `({ ...prev, [i]: !prev[i] })`: position `i` flips, every other position keeps its mark. */
  function Toggled(checked: map<int, bool>, i: int): (r: map<int, bool>)
    ensures IsChecked(r, i) == !IsChecked(checked, i)
    ensures forall j :: j != i ==> IsChecked(r, j) == IsChecked(checked, j)
  {
    checked[i := !IsChecked(checked, i)]
  }

  /** Toggling the same position twice gives back every mark. */
  lemma ToggleTwice(checked: map<int, bool>, i: int, j: int)
    ensures IsChecked(Toggled(Toggled(checked, i), i), j) == IsChecked(checked, j)
  {
  }

  /** The positions below `n` whose mark is `want`, in increasing order. */
  function Positions(n: nat, checked: map<int, bool>, want: bool): (r: seq<nat>)
    ensures forall k :: 0 <= k < |r| ==> r[k] < n && IsChecked(checked, r[k]) == want
    ensures forall k, l :: 0 <= k < l < |r| ==> r[k] < r[l]
    ensures forall i :: 0 <= i < n && IsChecked(checked, i) == want ==> i in r
  {
    if n == 0 then []
    else
      var p := Positions(n - 1, checked, want);
      if IsChecked(checked, n - 1) == want then p + [n - 1] else p
  }

  /** `items.filter((_, i) => checked[i] == want)`: no more entries than the list, each one of its items. */
  function Pick<T>(items: seq<T>, checked: map<int, bool>, want: bool): (r: seq<T>)
    ensures |r| <= |items|
    ensures forall k :: 0 <= k < |r| ==> r[k] in items
  {
    if items == [] then []
    else
      assert items == items[..|items| - 1] + [items[|items| - 1]];
      var p := Pick(items[..|items| - 1], checked, want);
      if IsChecked(checked, |items| - 1) == want then p + [items[|items| - 1]] else p
  }

  /** `r` holds the items of `s` at positions `p`. */
  ghost predicate AtPositions<T>(r: seq<T>, s: seq<T>, p: seq<nat>) {
    |r| == |p| && forall k :: 0 <= k < |r| ==> p[k] < |s| && r[k] == s[p[k]]
  }

  lemma AtPositionsExtend<T>(r: seq<T>, s: seq<T>, p: seq<nat>, i: nat)
    requires AtPositions(r, s, p) && i < |s|
    ensures AtPositions(r + [s[i]], s, p + [i])
  {
  }

  lemma AtPositionsWiden<T>(r: seq<T>, s: seq<T>, p: seq<nat>, x: T)
    requires AtPositions(r, s, p)
    ensures AtPositions(r, s + [x], p)
  {
  }

  /** The selection is the items at the selected positions, in their original order. */
  lemma {:induction false} PickIsPositions<T>(items: seq<T>, checked: map<int, bool>, want: bool)
    ensures AtPositions(Pick(items, checked, want), items, Positions(|items|, checked, want))
  {
    if items != [] {
      var n := |items|;
      var front := items[..n - 1];
      PickIsPositions(front, checked, want);
      assert items == front + [items[n - 1]];
      AtPositionsWiden(Pick(front, checked, want), front, Positions(n - 1, checked, want), items[n - 1]);
      if IsChecked(checked, n - 1) == want {
        AtPositionsExtend(Pick(front, checked, want), items, Positions(n - 1, checked, want), n - 1);
      }
    }
  }

  /** Selecting from a list with one more item: that item is added at the end exactly when it has the mark. */
  lemma PickSnoc<T>(front: seq<T>, x: T, checked: map<int, bool>, want: bool)
    ensures Pick(front + [x], checked, want) ==
      if IsChecked(checked, |front|) == want then Pick(front, checked, want) + [x] else Pick(front, checked, want)
  {
    assert (front + [x])[..|front|] == front;
  }

  /** The unchecked and the checked items split the list: together they are all of it, each once. */
  lemma {:induction false} PickPartition<T>(items: seq<T>, checked: map<int, bool>)
    ensures |Pick(items, checked, false)| + |Pick(items, checked, true)| == |items|
    ensures multiset(Pick(items, checked, false)) + multiset(Pick(items, checked, true)) == multiset(items)
  {
    if items != [] {
      var n := |items|;
      var front, last := items[..n - 1], items[n - 1];
      PickPartition(front, checked);
      assert items == front + [last];
      PickSnoc(front, last, checked, false);
      PickSnoc(front, last, checked, true);
    }
  }

  /** The number of unchecked positions is the number of positions minus the checked ones. */
  lemma {:induction false} PositionsPartition(n: nat, checked: map<int, bool>)
    ensures |Positions(n, checked, false)| + |Positions(n, checked, true)| == n
  {
    if n > 0 {
      PositionsPartition(n - 1, checked);
    }
  }

  /** Some item is selected exactly when some position below the length has the mark. */
  lemma PickNonEmpty<T>(items: seq<T>, checked: map<int, bool>, want: bool)
    ensures Pick(items, checked, want) != [] <==> exists i :: 0 <= i < |items| && IsChecked(checked, i) == want
  {
    PickIsPositions(items, checked, want);
    var p := Positions(|items|, checked, want);
    if exists i :: 0 <= i < |items| && IsChecked(checked, i) == want {
      var i :| 0 <= i < |items| && IsChecked(checked, i) == want;
      assert i in p;
    }
  }

  /** `items.indexOf(x)`: the first position holding `x`, or -1. */
  function IndexOf<T(==)>(s: seq<T>, x: T): (r: int)
    ensures -1 <= r < |s|
    ensures r >= 0 ==> s[r] == x && forall k :: 0 <= k < r ==> s[k] != x
    ensures r == -1 ==> x !in s
  {
    if s == [] then -1
    else if s[0] == x then 0
    else var r := IndexOf(s[1..], x); if r == -1 then -1 else r + 1
  }

  /** In a list without repetitions, `indexOf` finds each entry at its own position. */
  lemma IndexOfDistinct<T>(s: seq<T>)
    requires Distinct(s)
    ensures forall p :: 0 <= p < |s| ==> IndexOf(s, s[p]) == p
  {
  }
}
