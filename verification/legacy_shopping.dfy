/**
 * The older shopping page (frontend/src/pages/Shopping.jsx): one list in the
 * original order, each row with a checkbox, a struck-through name once
 * checked, and a badge naming the kind of entry.
 */
module LegacyShopping {
  import opened Wrappers
  import opened Text
  import opened Views
  import opened Checklist
  import ShoppingPage

  /** What one `<li>` shows: the checkbox, whether the name is struck through, the name, the detail and the badge. */
  datatype Row = Row(checkbox: bool, struck: bool, name: string, detail: string, badge: string)

  /** The badge: `食材` for `type === "food"`, `日用品` for every other type. */
  function KindBadge(kind: string): (b: string)
    ensures b == "食材" <==> kind == "food"
    ensures b == "日用品" <==> kind != "food"
  {
    if kind == "food" then "食材" else "日用品"
  }

  class Page {
    var items: seq<ShoppingEntry>
    var checked: map<int, bool>

    constructor (items: seq<ShoppingEntry>)
      ensures this.items == items && checked == map[]
    {
      this.items := items;
      checked := map[];
    }

    /** `toggle(index)`: that position flips, every other keeps its mark. */
    method Toggle(index: int)
      modifies this
      ensures checked == Toggled(old(checked), index)
      ensures items == old(items)
    {
      checked := Toggled(checked, index);
    }

    /** `uncheckedCount`: never more than the number of items. */
    function UncheckedCount(): (n: nat)
      reads this
      ensures n <= |items|
    {
      |Pick(items, checked, false)|
    }

    /** `残り {uncheckedCount}件`, shown only for a non-empty list. */
    function CountLabel(): (shown: Option<string>)
      reads this
      ensures shown.Some? <==> |items| > 0
    {
      if |items| > 0 then Some("残り " + IntToString(UncheckedCount()) + "件") else None
    }

    /** The empty message is shown exactly when there is no item. */
    predicate ShowsEmptyMessage()
      reads this
    {
      |items| == 0
    }

    /** Row `index` of the list. */
    function RowAt(index: nat): (row: Row)
      reads this
      requires index < |items|
      ensures row.checkbox == IsChecked(checked, index) && row.struck == row.checkbox
      ensures row.name == items[index].name && row.detail == items[index].detail
      ensures row.badge == KindBadge(items[index].kind)
    {
      var mark := IsChecked(checked, index);
      Row(mark, mark, items[index].name, items[index].detail, KindBadge(items[index].kind))
    }
  }

  /** The unchecked count is the number of positions left unchecked. */
  lemma UncheckedCountIsPositions(list: Page)
    ensures list.UncheckedCount() == |Positions(|list.items|, list.checked, false)|
    ensures list.UncheckedCount() == |list.items| - |Positions(|list.items|, list.checked, true)|
  {
    PickIsPositions(list.items, list.checked, false);
    PositionsPartition(|list.items|, list.checked);
  }

  /** For the same items and marks, both shopping pages show the same remaining count. */
  lemma PagesAgree(list: Page, page: ShoppingPage.Page)
    requires list.items == page.items && list.checked == page.checked
    ensures |list.items| > 0 ==> list.CountLabel() == Some(page.Subtitle())
    ensures |list.items| == 0 <==> list.ShowsEmptyMessage()
  {
    ShoppingPage.RemainingIsUnchecked(page);
  }
}
