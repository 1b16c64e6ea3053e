/**
 * The food card (frontend/src/components/ui/FoodCard.jsx): the emoji chosen
 * from the name, and the colour, width and badge of the bar drawn from the
 * number of days left. `days` is a parameter; the browser's own date arithmetic
 * that produces it is not modelled.
 */
module FoodCard {
  import opened Text
  import opened Cards

  /** `foodEmojis`, in its listed order. */
  const FoodEmojis: EmojiTable := [
    ("default", "🥗"),
    ("肉", "🥩"), ("魚", "🐟"), ("野菜", "🥬"), ("果物", "🍎"),
    ("卵", "🥚"), ("牛乳", "🥛"), ("パン", "🍞"), ("米", "🍚"),
    ("豆腐", "🧈"), ("納豆", "🫘"), ("チーズ", "🧀"), ("ヨーグルト", "🥛"),
    ("鶏", "🍗"), ("豚", "🥓"), ("牛", "🥩")
  ]

  /** `foodEmojis.default`. */
  const FoodFallback: string := "🥗"

  /** The food emoji: the salad shows exactly when no key occurs in the name. */
  function FoodEmoji(name: string): (e: string)
    ensures e == FoodFallback <==> forall j :: 0 <= j < |FoodEmojis| ==> !Hit(FoodEmojis, j, name)
  {
    assert forall i :: 1 <= i < |FoodEmojis| ==> FoodEmojis[i].1 != FoodFallback;
    EmojiFor(FoodEmojis, FoodFallback, name)
  }

  /** 肉 is the first key tried, so any name containing it gets the meat emoji. */
  lemma MeatHasPriority(name: string)
    requires Contains(name, "肉")
    ensures FoodEmoji(name) == "🥩"
  {
    assert Hit(FoodEmojis, 1, name);
    assert !Hit(FoodEmojis, 0, name);
  }

  /** 牛乳 is tried before 牛: a name containing 牛乳 never reaches the beef entry. */
  lemma MilkBeforeBeef(name: string)
    requires Contains(name, "牛乳")
    ensures FirstHit(FoodEmojis, name, 0).Some? && FirstHit(FoodEmojis, name, 0).value <= 6
  {
    assert Hit(FoodEmojis, 6, name);
  }

  /** The name 牛乳 itself gets the milk emoji, although it also contains 牛. */
  lemma MilkIsMilk()
    ensures FoodEmoji("牛乳") == "🥛"
  {
    var milk := "牛乳";
    assert OccursAt(milk, "牛乳", 0);
    assert Hit(FoodEmojis, 6, milk);
    AbsentFirstChar(milk, "肉");
    AbsentFirstChar(milk, "魚");
    AbsentFirstChar(milk, "野菜");
    AbsentFirstChar(milk, "果物");
    AbsentFirstChar(milk, "卵");
    assert forall j :: 0 <= j < 6 ==> !Hit(FoodEmojis, j, milk);
  }

  /** `getBarColor`: two days or fewer, three to six days, seven or more. */
  function BarColor(days: int): (t: Tone)
    ensures t == Terracotta <==> days <= 2
    ensures t == Amber <==> 3 <= days <= 6
    ensures t == Sage <==> 7 <= days
  {
    if days <= 2 then Terracotta
    else if days <= 6 then Amber
    else Sage
  }

  /** How urgent a tone reads: terracotta above amber above sage. */
  function Urgency(t: Tone): nat {
    match t
    case Terracotta => 2
    case Amber => 1
    case Sage => 0
  }

  /** More days left never gives a more urgent colour. */
  lemma BarColorMonotone(fewer: int, more: int)
    requires fewer <= more
    ensures Urgency(BarColor(more)) <= Urgency(BarColor(fewer))
  {
  }

  function Min(a: real, b: real): real { if a <= b then a else b }
  function Max(a: real, b: real): real { if a >= b then a else b }

  /** `Math.max(5, Math.min(100, (days / 14) * 100))`, in exact arithmetic: a percentage kept within 5 and 100. */
  function BarWidth(days: int): (w: real)
    ensures 5.0 <= w <= 100.0
    ensures days >= 14 ==> w == 100.0
    ensures days <= 0 ==> w == 5.0
  {
    Max(5.0, Min(100.0, (days as real / 14.0) * 100.0))
  }

  /** The bar never shrinks as the days left grow. */
  lemma BarWidthMonotone(fewer: int, more: int)
    requires fewer <= more
    ensures BarWidth(fewer) <= BarWidth(more)
  {
    assert (fewer as real / 14.0) * 100.0 <= (more as real / 14.0) * 100.0;
  }

  const ExpiredBadge: string := "期限切れ"

  /** The badge: `期限切れ` exactly when no day is left, otherwise `あと`, the days and `日`. */
  function Badge(days: int): (b: string)
    ensures b == ExpiredBadge <==> days <= 0
    ensures days > 0 ==> 3 <= |b| && b[..2] == "あと" && b[|b| - 1] == '日'
  {
    if days <= 0 then ExpiredBadge
    else
      var b := "あと" + IntToString(days) + "日";
      assert b[0] != ExpiredBadge[0];
      assert b[..2] == "あと";
      b
  }

  /** The number between `あと` and `日` reads back as the days left. */
  lemma BadgeReadsBack(days: int)
    ensures days > 0 ==> var b := Badge(days);
      AllDigits(b[2..|b| - 1]) && ValueOf(b[2..|b| - 1]) == days
  {
    if days > 0 {
      var digits := IntToString(days);
      var b := "あと" + digits + "日";
      assert digits == NatToString(days);
      NatToStringRoundTrip(days);
      assert b[2..|b| - 1] == digits;
    }
  }
}
