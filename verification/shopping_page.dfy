/**
 * The shopping page (frontend/src/components/pages/ShoppingPage.jsx): the
 * items fetched from the shopping list and the check marks the user sets.
 * Unchecked items are listed first and checked ones under a divider, each
 * toggling its own position.
 */
module ShoppingPage {
  import opened Text
  import opened Sequences
  import opened Views
  import opened Checklist

  class Page {
    var items: seq<ShoppingEntry>
    var checked: map<int, bool>

    /** The page once the list has arrived: nothing checked. */
    constructor (items: seq<ShoppingEntry>)
      ensures this.items == items && checked == map[]
    {
      this.items := items;
      checked := map[];
    }

    /** `toggle(index)`: that position flips, every other keeps its mark, and the items stay. */
    method Toggle(index: int)
      modifies this
      ensures checked == Toggled(old(checked), index)
      ensures items == old(items)
    {
      checked := Toggled(checked, index);
    }

    /** `clearAll`: every position unchecked. */
    method ClearAll()
      modifies this
      ensures checked == map[] && items == old(items)
      ensures forall i :: !IsChecked(checked, i)
    {
      checked := map[];
    }

    /** `uncheckedItems`: the unchecked items, in their original relative order. */
    function UncheckedItems(): (r: seq<ShoppingEntry>)
      reads this
      ensures AtPositions(r, items, Positions(|items|, checked, false))
    {
      PickIsPositions(items, checked, false);
      Pick(items, checked, false)
    }

    /** `checkedItems`: the checked items, in their original relative order. */
    function CheckedItems(): (r: seq<ShoppingEntry>)
      reads this
      ensures AtPositions(r, items, Positions(|items|, checked, true))
    {
      PickIsPositions(items, checked, true);
      Pick(items, checked, true)
    }

    /** `checkedCount`. */
    function CheckedCount(): nat
      reads this
    {
      |CheckedItems()|
    }

    /**
     * The subtitle: `買い物なし` for an empty list, otherwise `残り {items.length - checkedCount}件`,
     * whose number is that of the unchecked items.
     */
    function Subtitle(): (s: string)
      reads this
      ensures s == "買い物なし" <==> |items| == 0
      ensures |items| > 0 ==> s == "残り " + IntToString(|UncheckedItems()|) + "件"
    {
      PickPartition(items, checked);
      if |items| == 0 then "買い物なし"
      else
        var s := "残り " + IntToString(|items| - CheckedCount()) + "件";
        assert s[0] != "買い物なし"[0];
        s
    }

    /** `checkedCount > 0`: the clear button is shown exactly when some item is checked. */
    predicate ShowsClearButton()
      reads this
      ensures ShowsClearButton() <==> exists i :: 0 <= i < |items| && IsChecked(checked, i)
    {
      PickNonEmpty(items, checked, true);
      CheckedCount() > 0
    }

    /**
     * The fetched entries as objects: each is a separate object, named here
     * by its position in the fetched array, so no two are the same.
     */
    function Refs(): (r: seq<nat>)
      reads this
      ensures |r| == |items| && Distinct(r)
      ensures forall i :: 0 <= i < |r| ==> r[i] == i
    {
      seq(|items|, i => i)
    }

    /**
     * The objects of `uncheckedItems` (for `false`) or `checkedItems` (for
     * `true`): the positions with that mark, in order, each showing the
     * entry the value list shows at the same place.
     */
    function Rows(want: bool): (r: seq<nat>)
      reads this
      ensures r == Positions(|items|, checked, want)
      ensures |r| == |Pick(items, checked, want)|
      ensures forall k :: 0 <= k < |r| ==> r[k] < |items| && items[r[k]] == Pick(items, checked, want)[k]
    {
      var refs := Refs();
      var p := Positions(|items|, checked, want);
      PickIsPositions(refs, checked, want);
      PickIsPositions(items, checked, want);
      var r := Pick(refs, checked, want);
      assert r == p;
      r
    }

    /**
     * The original positions the rows toggle: `items.indexOf(item)` of each
     * row object, which is that object's own position, or -1 for an object
     * not in the list.
     */
    function RowTargets(rows: seq<nat>): (r: seq<int>)
      reads this
      ensures |r| == |rows|
      ensures forall k :: 0 <= k < |rows| && rows[k] < |items| ==> r[k] == rows[k]
      ensures forall k :: 0 <= k < |rows| && rows[k] >= |items| ==> r[k] == -1
    {
      var refs := Refs();
      var r := seq(|rows|, k requires 0 <= k < |rows| => IndexOf(refs, rows[k]));
      IndexOfDistinct(refs);
      assert forall k :: 0 <= k < |rows| && rows[k] < |items| ==> refs[rows[k]] == rows[k];
      r
    }
  }

  /**
   * The two lists split the items: the remaining count `items.length -
   * checkedCount` is the number of unchecked items, and the unchecked and
   * checked items are together all items, each once.
   */
  lemma RemainingIsUnchecked(page: Page)
    ensures |page.items| - page.CheckedCount() == |page.UncheckedItems()|
    ensures multiset(page.UncheckedItems()) + multiset(page.CheckedItems()) == multiset(page.items)
  {
    PickPartition(page.items, page.checked);
  }

  /**
   * Each row of either list toggles the position its entry was fetched at:
   * the unchecked rows toggle exactly the unchecked positions, the checked
   * rows exactly the checked ones, whatever entries are equal in value.
   */
  lemma RowsToggleOwnPosition(page: Page)
    ensures page.RowTargets(page.Rows(false)) == Positions(|page.items|, page.checked, false)
    ensures page.RowTargets(page.Rows(true)) == Positions(|page.items|, page.checked, true)
  {
    forall want: bool
      ensures page.RowTargets(page.Rows(want)) == page.Rows(want)
    {
      var rows := page.Rows(want);
      forall k | 0 <= k < |rows|
        ensures page.RowTargets(rows)[k] == rows[k]
      {
      }
    }
  }
}
