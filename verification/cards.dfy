/**
 * What the two inventory cards share (FoodCard.jsx and DailyCard.jsx): the
 * three colour tones and the emoji lookup, which walks a keyword table in its
 * listed order and takes the first keyword, other than `default`, that the
 * name contains.
 */
module Cards {
  import opened Wrappers
  import opened Text

  /** The CSS colour classes `terracotta`, `amber` and `sage`. */
  datatype Tone = Terracotta | Amber | Sage

  /** The entries of an emoji object, as `Object.entries` lists them. */
  type EmojiTable = seq<(string, string)>

  const DefaultKey: string := "default"

  /** Entry `i` is taken for `name`: its key is not `default` and occurs in the name. */
  predicate Hit(table: EmojiTable, i: nat, name: string)
    requires i < |table|
  {
    table[i].0 != DefaultKey && Contains(name, table[i].0)
  }

  /** The position of the first entry at or after `from` that is taken for `name`. */
  function FirstHit(table: EmojiTable, name: string, from: nat): (r: Option<nat>)
    requires from <= |table|
    ensures r.Some? ==> from <= r.value < |table| && Hit(table, r.value, name)
    ensures r.Some? ==> forall j :: from <= j < r.value ==> !Hit(table, j, name)
    ensures r.None? <==> forall j :: from <= j < |table| ==> !Hit(table, j, name)
    decreases |table| - from
  {
    if from == |table| then None
    else if Hit(table, from, name) then Some(from)
    else FirstHit(table, name, from + 1)
  }

  /** The emoji `getEmoji` shows: that of the first entry taken, or the `default` emoji. */
  function EmojiFor(table: EmojiTable, fallback: string, name: string): string {
    match FirstHit(table, name, 0)
    case Some(i) => table[i].1
    case None => fallback
  }

  /**
   * When entry `w` is the only keyed entry whose emoji is the fallback, the
   * fallback shows exactly when no key before `w` is taken and either `w` is
   * taken or no key after it is.
   */
  lemma FallbackShownWhen(table: EmojiTable, fallback: string, name: string, w: nat)
    requires 0 < w < |table| && table[0].0 == DefaultKey && table[w].1 == fallback
    requires forall i :: 1 <= i < |table| && i != w ==> table[i].1 != fallback
    ensures EmojiFor(table, fallback, name) == fallback <==>
      && (forall j :: 0 <= j < w ==> !Hit(table, j, name))
      && (Hit(table, w, name) || forall j :: w < j < |table| ==> !Hit(table, j, name))
  {
    match FirstHit(table, name, 0)
    case None =>
    case Some(i) =>
      assert i != 0;
  }

  /** `getEmoji`: the `for ... of Object.entries(...)` loop with its early return. */
  method GetEmoji(table: EmojiTable, fallback: string, name: string) returns (emoji: string)
    ensures emoji == EmojiFor(table, fallback, name)
  {
    for i := 0 to |table|
      invariant forall j :: 0 <= j < i ==> !Hit(table, j, name)
    {
      var (key, e) := table[i];
      if key != DefaultKey && Contains(name, key) {
        assert Hit(table, i, name);
        return e;
      }
    }
    return fallback;
  }
}
