/**
 * Decimal rendering of integers (Python's `str(int)` and JavaScript's template
 * interpolation agree on integers), zero-padded fields as in `%02d`/`%04d`,
 * substring search (`String.prototype.includes`) and `str.join`.
 */
module Text {

  predicate IsDigit(c: char) {
    '0' <= c <= '9'
  }

  predicate AllDigits(s: string) {
    forall i :: 0 <= i < |s| ==> IsDigit(s[i])
  }

  function DigitChar(d: nat): (c: char)
    requires d < 10
    ensures IsDigit(c)
  {
    "0123456789"[d]
  }

  function DigitValue(c: char): (d: nat)
    requires IsDigit(c)
    ensures d < 10
  {
    (c as int) - ('0' as int)
  }

  lemma DigitRoundTrip(d: nat)
    requires d < 10
    ensures DigitValue(DigitChar(d)) == d
  {
  }

  function Pow10(k: nat): (p: nat)
    ensures p >= 1
  {
    if k == 0 then 1 else 10 * Pow10(k - 1)
  }

  /** The decimal digits of `n`, most significant first, without leading zeros. */
  function NatToString(n: nat): (s: string)
    ensures |s| >= 1 && AllDigits(s)
    ensures |s| > 1 ==> s[0] != '0'
  {
    if n < 10 then [DigitChar(n)] else NatToString(n / 10) + [DigitChar(n % 10)]
  }

  /** The number a string of decimal digits denotes. */
  function ValueOf(s: string): nat
    requires AllDigits(s)
  {
    if s == [] then 0 else 10 * ValueOf(s[..|s| - 1]) + DigitValue(s[|s| - 1])
  }

  lemma {:induction false} NatToStringRoundTrip(n: nat)
    ensures ValueOf(NatToString(n)) == n
  {
    if n >= 10 {
      var s := NatToString(n);
      assert s[..|s| - 1] == NatToString(n / 10);
      NatToStringRoundTrip(n / 10);
      DigitRoundTrip(n % 10);
    } else {
      DigitRoundTrip(n);
    }
  }

  /** A number below 10^k needs at most k digits. */
  lemma {:induction false} NatToStringLength(n: nat, k: nat)
    requires 1 <= k && n < Pow10(k)
    ensures |NatToString(n)| <= k
  {
    if n >= 10 {
      assert k >= 2;
      NatToStringLength(n / 10, k - 1);
    }
  }

  /** `str(n)` in Python, `${n}` in JavaScript. */
  function IntToString(n: int): (s: string)
    ensures |s| >= 1
    ensures s[0] == '-' <==> n < 0
  {
    if n < 0 then "-" + NatToString(-n) else NatToString(n)
  }

  lemma SignedDigits(n: int)
    requires n < 0
    ensures IntToString(n)[1..] == NatToString(-n)
  {
    var d := NatToString(-n);
    assert ("-" + d)[1..] == d;
  }

  /** `int(s)`: an optional minus sign followed by decimal digits. */
  function IntValueOf(s: string): int
    requires |s| >= 1
    requires s[0] == '-' ==> AllDigits(s[1..])
    requires s[0] != '-' ==> AllDigits(s)
  {
    if s[0] == '-' then -(ValueOf(s[1..]) as int) else ValueOf(s)
  }

  lemma NegativeRoundTrip(m: int)
    requires m > 0
    ensures IntValueOf(IntToString(-m)) == -m
  {
    SignedDigits(-m);
    NatToStringRoundTrip(m);
  }

  /** Reading a printed integer back gives the integer. */
  lemma IntToStringRoundTrip(n: int)
    ensures IntValueOf(IntToString(n)) == n
  {
    if n < 0 {
      NegativeRoundTrip(-n);
    } else {
      NatToStringRoundTrip(n);
    }
  }

  /** Distinct integers print differently. */
  lemma IntToStringInjective(a: int, b: int)
    requires IntToString(a) == IntToString(b)
    ensures a == b
  {
    IntToStringRoundTrip(a);
    IntToStringRoundTrip(b);
  }

  function Zeros(k: nat): (s: string)
    ensures |s| == k && forall i :: 0 <= i < k ==> s[i] == '0'
  {
    if k == 0 then [] else "0" + Zeros(k - 1)
  }

  /** `"%0*d" % (width, n)`: the digits of `n`, padded on the left with zeros to `width`. */
  function PadDigits(n: nat, width: nat): (s: string)
    ensures AllDigits(s)
    ensures |s| == if |NatToString(n)| < width then width else |NatToString(n)|
  {
    var digits := NatToString(n);
    if |digits| < width then Zeros(width - |digits|) + digits else digits
  }

  lemma {:induction false} LeadingZeroValue(s: string)
    requires AllDigits(s)
    ensures AllDigits("0" + s) && ValueOf("0" + s) == ValueOf(s)
  {
    if s != [] {
      var t := "0" + s;
      assert t[..|t| - 1] == "0" + s[..|s| - 1];
      LeadingZeroValue(s[..|s| - 1]);
    }
  }

  lemma {:induction false} ZerosValue(k: nat, s: string)
    requires AllDigits(s)
    ensures AllDigits(Zeros(k) + s) && ValueOf(Zeros(k) + s) == ValueOf(s)
  {
    if k > 0 {
      var t := Zeros(k - 1) + s;
      ZerosValue(k - 1, s);
      assert Zeros(k) + s == "0" + t;
      LeadingZeroValue(t);
    } else {
      assert Zeros(k) + s == s;
    }
  }

  /** Padding never changes the number a field denotes. */
  lemma PadDigitsRoundTrip(n: nat, width: nat)
    ensures ValueOf(PadDigits(n, width)) == n
  {
    var digits := NatToString(n);
    NatToStringRoundTrip(n);
    assert ValueOf(digits) == n;
    if |digits| < width {
      var padded := Zeros(width - |digits|) + digits;
      assert PadDigits(n, width) == padded;
      ZerosValue(width - |digits|, digits);
      assert ValueOf(padded) == ValueOf(digits);
    } else {
      assert PadDigits(n, width) == digits;
    }
  }

  /** A number below 10^width fills exactly `width` characters. */
  lemma PadDigitsLength(n: nat, width: nat)
    requires 1 <= width && n < Pow10(width)
    ensures |PadDigits(n, width)| == width
  {
    NatToStringLength(n, width);
  }

  /** `name.includes(key)`: `key` occurs in `s` as a contiguous piece. */
  predicate Contains(s: string, key: string) {
    exists i :: 0 <= i <= |s| && OccursAt(s, key, i)
  }

  predicate OccursAt(s: string, key: string, i: nat) {
    i + |key| <= |s| && s[i..i + |key|] == key
  }

  /** A key whose first character does not appear in `s` does not occur in it. */
  lemma AbsentFirstChar(s: string, key: string)
    requires |key| > 0 && key[0] !in s
    ensures !Contains(s, key)
  {
    forall i | 0 <= i <= |s|
      ensures !OccursAt(s, key, i)
    {
      if i + |key| <= |s| {
        assert s[i..i + |key|][0] == s[i];
      }
    }
  }

  predicate StartsWith(s: string, prefix: string) {
    |prefix| <= |s| && s[..|prefix|] == prefix
  }

  /**
   * A text that does not start with `tag` still does not once followed by a
   * tail whose first character is not in `tag`.
   */
  lemma NotPrefixPastName(name: string, tail: string, tag: string)
    requires !StartsWith(name, tag) && tail != [] && tail[0] !in tag
    ensures !StartsWith(name + tail, tag)
  {
    var s := name + tail;
    if |name| < |tag| <= |s| {
      assert s[..|tag|][|name|] == tail[0] != tag[|name|];
    } else if |tag| <= |name| {
      assert s[..|tag|] == name[..|tag|];
    }
  }

  /** A string starts with whatever is put in front of it. */
  lemma StartsWithConcat(prefix: string, rest: string)
    ensures StartsWith(prefix + rest, prefix)
  {
    assert (prefix + rest)[..|prefix|] == prefix;
  }

  /** `sep.join(parts)` in Python. */
  function Join(sep: string, parts: seq<string>): (s: string)
    ensures parts == [] ==> s == []
    ensures |parts| >= 1 ==> StartsWith(s, parts[0])
  {
    if parts == [] then []
    else if |parts| == 1 then parts[0]
    else parts[0] + sep + Join(sep, parts[1..])
  }

  /** A character found in neither the separator nor any part is not in the joined string. */
  lemma {:induction false} JoinAvoids(c: char, sep: string, parts: seq<string>)
    requires c !in sep
    requires forall i :: 0 <= i < |parts| ==> c !in parts[i]
    ensures c !in Join(sep, parts)
  {
    if |parts| > 1 {
      JoinAvoids(c, sep, parts[1..]);
    }
  }

  /**
   * Lexicographic order by code point, the order this model takes for an
   * `ORDER BY` on a text column.
   */
  predicate TextLe(a: string, b: string) {
    a == [] || (b != [] && (a[0] < b[0] || (a[0] == b[0] && TextLe(a[1..], b[1..]))))
  }

  lemma {:induction false} TextLeTotal(a: string, b: string)
    ensures TextLe(a, b) || TextLe(b, a)
  {
    if a != [] && b != [] && a[0] == b[0] {
      TextLeTotal(a[1..], b[1..]);
    }
  }

  lemma {:induction false} TextLeTransitive(a: string, b: string, c: string)
    requires TextLe(a, b) && TextLe(b, c)
    ensures TextLe(a, c)
  {
    if a != [] && b != [] && c != [] && a[0] == b[0] == c[0] {
      TextLeTransitive(a[1..], b[1..], c[1..]);
    }
  }

  lemma {:induction false} TextLeAntisymmetric(a: string, b: string)
    requires TextLe(a, b) && TextLe(b, a)
    ensures a == b
  {
    if a != [] && b != [] {
      TextLeAntisymmetric(a[1..], b[1..]);
      assert a == [a[0]] + a[1..] && b == [b[0]] + b[1..];
    }
  }
}
