/**
 * The recipe card (frontend/src/components/ui/RecipeCard.jsx): the title is
 * the first line of the recipe with a leading `【...】` tag removed and the
 * surrounding white space trimmed, or `おすすめレシピ` when nothing is left.
 * The recipe text itself is shown unchanged.
 */
module RecipeCard {
  import opened Wrappers
  import opened Text
  import opened Models
  import opened Recipe

  /** The ECMAScript line terminators, which `.` in a regular expression does not match. */
  predicate IsLineTerminator(c: char) {
    c == '\n' || c == '\r' || c == '\U{2028}' || c == '\U{2029}'
  }

  /** The characters `String.prototype.trim` removes: ECMAScript white space and line terminators. */
  predicate IsJsSpace(c: char) {
    || c == '\t' || c == '\U{000B}' || c == '\U{000C}' || c == ' ' || c == '\U{00A0}' || c == '\U{1680}'
    || ('\U{2000}' <= c <= '\U{200A}') || c == '\U{202F}' || c == '\U{205F}' || c == '\U{3000}' || c == '\U{FEFF}'
    || IsLineTerminator(c)
  }

  /** `recipe.split('\n')[0]`: everything before the first line feed. */
  function FirstLine(s: string): (r: string)
    ensures |r| <= |s| && r == s[..|r|]
    ensures '\n' !in r
    ensures |r| < |s| ==> s[|r|] == '\n'
  {
    if s == [] || s[0] == '\n' then [] else [s[0]] + FirstLine(s[1..])
  }

  /** The first line is everything before any line feed that has none before it. */
  lemma FirstLineAt(s: string, k: nat)
    requires k < |s| && s[k] == '\n' && '\n' !in s[..k]
    ensures FirstLine(s) == s[..k]
  {
  }

  /** Only the text before the first line feed decides the title. */
  lemma OnlyFirstLineMatters(line: string, rest: string)
    requires '\n' !in line
    ensures RecipeTitle(line + "\n" + rest) == RecipeTitle(line)
  {
    var s := line + "\n" + rest;
    assert s[..|line|] == line;
    FirstLineAt(s, |line|);
    assert FirstLine(line) == line;
  }

  /** Where `/^【.*?】/` ends: the first `】` from `i` on, unless a line terminator comes first. */
  function TagEnd(line: string, i: nat): (r: Option<nat>)
    requires i <= |line|
    ensures r.Some? ==> i <= r.value < |line| && line[r.value] == '】'
    ensures r.Some? ==> forall k :: i <= k < r.value ==> line[k] != '】' && !IsLineTerminator(line[k])
    ensures r.None? ==> forall k :: i <= k < |line| && line[k] == '】' ==> exists m :: i <= m < k && IsLineTerminator(line[m])
    decreases |line| - i
  {
    if i == |line| then None
    else if line[i] == '】' then Some(i)
    else if IsLineTerminator(line[i]) then None
    else TagEnd(line, i + 1)
  }

  /** `line.replace(/^【.*?】/, '')`: the shortest `【...】` at the start of the line is removed. */
  function StripTag(line: string): (r: string)
    ensures |r| <= |line| && r == line[|line| - |r|..]
  {
    if |line| > 0 && line[0] == '【' then
      match TagEnd(line, 1)
      case Some(j) => line[j + 1..]
      case None => line
    else line
  }

  /** A leading tag whose inside holds no `】` and no line terminator is removed, and only it. */
  lemma TaggedLine(inside: string, rest: string)
    requires '】' !in inside
    requires forall k :: 0 <= k < |inside| ==> !IsLineTerminator(inside[k])
    ensures StripTag("【" + inside + "】" + rest) == rest
  {
    var line := "【" + inside + "】" + rest;
    var j := |inside| + 1;
    assert line[j] == '】';
    forall k | 1 <= k < j
      ensures line[k] != '】' && !IsLineTerminator(line[k])
    {
      assert line[k] == inside[k - 1];
    }
    assert TagEnd(line, 1) == Some(j);
    assert line[j + 1..] == rest;
  }

  /** A line that does not open with `【`, or has no `】`, keeps all of its text. */
  lemma UntaggedLine(line: string)
    requires |line| == 0 || line[0] != '【' || '】' !in line
    ensures StripTag(line) == line
  {
  }

  /** `trimStart`. */
  function TrimStart(s: string): (r: string)
    ensures |r| <= |s| && r == s[|s| - |r|..]
    ensures forall k :: 0 <= k < |s| - |r| ==> IsJsSpace(s[k])
    ensures r != [] ==> !IsJsSpace(r[0])
  {
    if s != [] && IsJsSpace(s[0]) then TrimStart(s[1..]) else s
  }

  /** `trimEnd`. */
  function TrimEnd(s: string): (r: string)
    ensures |r| <= |s| && r == s[..|r|]
    ensures forall k :: |r| <= k < |s| ==> IsJsSpace(s[k])
    ensures r != [] ==> !IsJsSpace(r[|r| - 1])
  {
    if s != [] && IsJsSpace(s[|s| - 1]) then TrimEnd(s[..|s| - 1]) else s
  }

  /** `s[i..j]` is what is left of `s` once white space is removed before `i` and from `j` on. */
  ghost predicate TrimsTo(s: string, i: int, j: int) {
    && 0 <= i <= j <= |s|
    && (forall k :: 0 <= k < i ==> IsJsSpace(s[k]))
    && (forall k :: j <= k < |s| ==> IsJsSpace(s[k]))
  }

  /** Trimming the start and then the end of `s` leaves a slice of `s` with only white space cut off. */
  lemma TrimSlice(s: string, t: string, r: string)
    requires |t| <= |s| && t == s[|s| - |t|..] && forall k :: 0 <= k < |s| - |t| ==> IsJsSpace(s[k])
    requires |r| <= |t| && r == t[..|r|] && forall k :: |r| <= k < |t| ==> IsJsSpace(t[k])
    ensures TrimsTo(s, |s| - |t|, |s| - |t| + |r|) && r == s[|s| - |t|..|s| - |t| + |r|]
  {
    var i := |s| - |t|;
    forall k | i + |r| <= k < |s|
      ensures IsJsSpace(s[k])
    {
      assert s[k] == t[k - i];
    }
  }

  /** `trim`: the part of `s` left after white space is removed from both ends; only a string of white space trims to nothing. */
  function Trim(s: string): (r: string)
    ensures r == [] <==> forall k :: 0 <= k < |s| ==> IsJsSpace(s[k])
    ensures r != [] ==> !IsJsSpace(r[0]) && !IsJsSpace(r[|r| - 1])
    ensures exists i, j :: TrimsTo(s, i, j) && r == s[i..j]
  {
    var t := TrimStart(s);
    var r := TrimEnd(t);
    assert t != [] ==> !IsJsSpace(t[0]);
    TrimSlice(s, t, r);
    r
  }

  /** A string without white space at either end is left as it is. */
  lemma {:induction false} TrimNoop(s: string)
    requires s == [] || (!IsJsSpace(s[0]) && !IsJsSpace(s[|s| - 1]))
    ensures Trim(s) == s
  {
  }

  const DefaultTitle: string := "おすすめレシピ"

  /** The title the card shows: never empty, and never with white space at its ends. */
  function RecipeTitle(recipe: string): (title: string)
    ensures title != []
    ensures title == DefaultTitle || (!IsJsSpace(title[0]) && !IsJsSpace(title[|title| - 1]))
  {
    var t := Trim(StripTag(FirstLine(recipe)));
    if t == [] then DefaultTitle else t
  }

  /** The title of a recipe whose first line is `line`. */
  lemma TitleOfLine(recipe: string, line: string)
    requires FirstLine(recipe) == line
    ensures Trim(StripTag(line)) == [] ==> RecipeTitle(recipe) == DefaultTitle
    ensures Trim(StripTag(line)) != [] ==> RecipeTitle(recipe) == Trim(StripTag(line))
  {
  }

  /** A first line that is nothing but a tag gives the default title, not the tag's text. */
  lemma TagOnlyLineFallsBack(inside: string, rest: string)
    requires forall k :: 0 <= k < |inside| ==> inside[k] != '】' && !IsLineTerminator(inside[k])
    ensures RecipeTitle("【" + inside + "】" + "\n" + rest) == DefaultTitle
  {
    var line := "【" + inside + "】";
    var recipe := "【" + inside + "】" + "\n" + rest;
    assert recipe[|line|] == '\n' && recipe[..|line|] == line;
    assert '\n' !in line;
    FirstLineAt(recipe, |line|);
    TaggedLine(inside, "");
    assert line + "" == line;
    TitleOfLine(recipe, line);
  }

  /** The first line of the demo recipe is its title line, when no food name holds a line feed. */
  lemma DemoFirstLine(use: seq<FoodItem>)
    requires forall i :: 0 <= i < |use| ==> '\n' !in use[i].name
    ensures FirstLine(DemoRecipe(use)) == DemoTitleLine(use)
  {
    var title := DemoTitleLine(use);
    JoinAvoids('\n', "、", FoodNames(use));
    assert '\n' !in title;
    FirstLineAt(DemoRecipe(use), |title|);
  }

  /** The demo title line is the `【提案レシピ】` tag followed by the names and the demo suffix. */
  lemma DemoTitleLineTagged(use: seq<FoodItem>)
    ensures StripTag(DemoTitleLine(use)) == Join("、", FoodNames(use)) + DemoSuffix
  {
    var shown := Join("、", FoodNames(use)) + DemoSuffix;
    assert DemoTitleLine(use) == "【" + DemoTagName + "】" + shown;
    TaggedLine(DemoTagName, shown);
  }

  /** The demo recipe is shown under the names of its ingredients and the demo suffix, without its tag. */
  lemma DemoTitleShown(use: seq<FoodItem>)
    requires forall i :: 0 <= i < |use| ==> '\n' !in use[i].name
    ensures RecipeTitle(DemoRecipe(use)) == Trim(Join("、", FoodNames(use)) + DemoSuffix)
    ensures RecipeTitle(DemoRecipe(use)) != DefaultTitle
  {
    var shown := Join("、", FoodNames(use)) + DemoSuffix;
    DemoFirstLine(use);
    DemoTitleLineTagged(use);
    assert shown[|shown| - 1] == '）';
    TrimKeepsLast(shown);
    TitleOfLine(DemoRecipe(use), DemoTitleLine(use));
  }

  /** A string ending in `）` trims to a string ending in `）`, which is not the default title. */
  lemma TrimKeepsLast(s: string)
    requires |s| > 0 && s[|s| - 1] == '）'
    ensures Trim(s) != [] && Trim(s) != DefaultTitle
  {
    var t := Trim(s);
    assert !IsJsSpace(s[|s| - 1]);
    var i, j :| TrimsTo(s, i, j) && t == s[i..j];
    assert j == |s| && t != [];
    assert t[|t| - 1] == '）';
    assert DefaultTitle[|DefaultTitle| - 1] == 'ピ';
  }
}
