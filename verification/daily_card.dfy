/**
 * The supply card (frontend/src/components/ui/DailyCard.jsx): the emoji chosen
 * from the name, and the dots, colour and label chosen from the stock level
 * string the API sent.
 */
module DailyCard {
  import opened Wrappers
  import opened Text
  import opened Schemas
  import opened Cards

  /** `supplyEmojis`, in its listed order. */
  const SupplyEmojis: EmojiTable := [
    ("default", "📦"),
    ("トイレットペーパー", "🧻"), ("ティッシュ", "🤧"), ("洗剤", "🧴"),
    ("シャンプー", "🧴"), ("石鹸", "🧼"), ("歯磨き", "🪥"), ("歯ブラシ", "🪥"),
    ("ゴミ袋", "🗑"), ("ラップ", "📦"), ("スポンジ", "🧽"), ("柔軟剤", "🌸"),
    ("ハンドソープ", "🧴"), ("電池", "🔋")
  ]

  /** `supplyEmojis.default`. */
  const SupplyFallback: string := "📦"

  /** The position of `ラップ`, the one key whose emoji is also the fallback. */
  const WrapIndex: nat := 9

  /**
   * The supply emoji: the box shows when no key occurs in the name, or when
   * `ラップ` is the first that does; every other match shows its own emoji.
   */
  function SupplyEmoji(name: string): (e: string)
    ensures SupplyEmojis[WrapIndex].0 == "ラップ"
    ensures e == SupplyFallback <==>
      && (forall j :: 0 <= j < WrapIndex ==> !Hit(SupplyEmojis, j, name))
      && (Hit(SupplyEmojis, WrapIndex, name) || forall j :: WrapIndex < j < |SupplyEmojis| ==> !Hit(SupplyEmojis, j, name))
  {
    assert forall i :: 1 <= i < |SupplyEmojis| && i != WrapIndex ==> SupplyEmojis[i].1 != SupplyFallback;
    FallbackShownWhen(SupplyEmojis, SupplyFallback, name, WrapIndex);
    EmojiFor(SupplyEmojis, SupplyFallback, name)
  }

  /** The key `default` is skipped: a name that only contains the word `default` gets the fallback. */
  lemma DefaultKeyNeverMatches(name: string)
    requires forall j :: 1 <= j < |SupplyEmojis| ==> !Contains(name, SupplyEmojis[j].0)
    ensures SupplyEmoji(name) == SupplyFallback
  {
    assert forall j :: 0 <= j < |SupplyEmojis| ==> !Hit(SupplyEmojis, j, name);
  }

  /** One entry of `levelConfig`. */
  datatype LevelConfig = LevelConfig(dots: nat, tone: Tone, caption: string)

  /** `levelConfig[level]`: the three stock levels are keys, nothing else is. */
  function LevelConfigOf(level: string): Option<LevelConfig> {
    if level == "少ない" then Some(LevelConfig(1, Terracotta, "少ない"))
    else if level == "普通" then Some(LevelConfig(3, Amber, "普通"))
    else if level == "多い" then Some(LevelConfig(5, Sage, "十分"))
    else None
  }

  /** `levelConfig[item.stock_level] || levelConfig['普通']`. */
  function ConfigFor(level: string): (c: LevelConfig)
    ensures ParseStockLevel(level).Some? ==> Some(c) == LevelConfigOf(level)
    ensures ParseStockLevel(level).None? ==> Some(c) == LevelConfigOf(StockLevelText(Normal))
  {
    match LevelConfigOf(level)
    case Some(c) => c
    case None => LevelConfigOf("普通").value
  }

  /** A string that is not a stock level is shown as 普通. */
  lemma UnknownLevelShowsNormal(level: string)
    requires ParseStockLevel(level).None?
    ensures ConfigFor(level) == ConfigFor(StockLevelText(Normal))
  {
  }

  /** The dots grow with the level, 1, 3 and 5, and only 多い is relabelled, as 十分. */
  lemma LevelConfigs()
    ensures ConfigFor(StockLevelText(Low)).dots < ConfigFor(StockLevelText(Normal)).dots < ConfigFor(StockLevelText(High)).dots
    ensures forall l :: ConfigFor(StockLevelText(l)).caption == if l == High then "十分" else StockLevelText(l)
    ensures forall l :: ConfigFor(StockLevelText(l)).dots <= 5
  {
  }

  /**
   * `[1, 2, 3, 4, 5].map(n => n <= config.dots)`: the five dots, filled ones
   * first, as many filled as the level's dot count (all five beyond that).
   */
  function Dots(c: LevelConfig): (r: seq<bool>)
    ensures |r| == 5
    ensures forall i :: 0 <= i < 5 ==> (r[i] <==> i < c.dots)
    ensures forall i, j :: 0 <= i < j < 5 && r[j] ==> r[i]
    ensures CountFilled(r) == if c.dots <= 5 then c.dots else 5
  {
    var r := seq(5, k => k + 1 <= c.dots);
    PrefixCount(r, if c.dots <= 5 then c.dots else 5);
    r
  }

  /** The number of filled dots. */
  function CountFilled(dots: seq<bool>): (n: nat)
    ensures n == multiset(dots)[true]
  {
    if dots == [] then 0
    else
      assert dots == [dots[0]] + dots[1..];
      (if dots[0] then 1 else 0) + CountFilled(dots[1..])
  }

  /** A sequence that is `true` on its first `k` positions and `false` after has `k` filled. */
  lemma {:induction false} PrefixCount(d: seq<bool>, k: nat)
    requires k <= |d|
    requires forall i :: 0 <= i < |d| ==> (d[i] <==> i < k)
    ensures CountFilled(d) == k
  {
    if d != [] {
      var t := d[1..];
      if k > 0 {
        PrefixCount(t, k - 1);
      } else {
        PrefixCount(t, 0);
      }
    }
  }
}
