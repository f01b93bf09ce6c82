/**
 * The string operations the core relies on: `lowercase`, `equals`/`contains`
 * with `ignoreCase`, `isBlank`, `toIntOrNull`, `Int.toString` and the binary
 * string order used by `ORDER BY name`. Case is folded for ASCII letters only.
 */
module Text {
  import opened ShoppingItems
  import opened Sorting

  /** ASCII lower-casing of one character. */
  function Lower(c: char): (r: char)
    ensures 'A' <= c <= 'Z' ==> 'a' <= r <= 'z'
    ensures !('A' <= c <= 'Z') ==> r == c
  {
    if 'A' <= c <= 'Z' then (c as int + 32) as char else c
  }

  /** `lowercase()`. */
  function LowerString(s: string): (r: string)
    ensures |r| == |s|
    ensures forall i :: 0 <= i < |s| ==> r[i] == Lower(s[i])
  {
    seq(|s|, i requires 0 <= i < |s| => Lower(s[i]))
  }

  /** Two strings whose lowercase forms agree before index `k` and differ upward at `k` are ordered that way. */
  lemma {:induction false} LowerStrLeAt(a: string, b: string, k: nat)
    requires k < |a| && k < |b|
    requires forall i :: 0 <= i < k ==> Lower(a[i]) == Lower(b[i])
    requires Lower(a[k]) < Lower(b[k])
    ensures StrLe(LowerString(a), LowerString(b)) && LowerString(a) != LowerString(b)
    decreases k
  {
    if k > 0 {
      LowerStrLeAt(a[1..], b[1..], k - 1);
      assert LowerString(a)[1..] == LowerString(a[1..]);
      assert LowerString(b)[1..] == LowerString(b[1..]);
    }
    assert LowerString(a)[k] != LowerString(b)[k];
  }

  /** `a.equals(b, ignoreCase = true)`. */
  predicate EqualsIgnoreCase(a: string, b: string) {
    |a| == |b| && forall i :: 0 <= i < |a| ==> Lower(a[i]) == Lower(b[i])
  }

  /** `hay.contains(needle, ignoreCase = true)`: some window of `hay` equals `needle` ignoring case. */
  predicate ContainsIgnoreCase(hay: string, needle: string) {
    exists i :: 0 <= i && i + |needle| <= |hay| && MatchesAt(hay, needle, i)
  }

  /** `needle` occurs in `hay` at index `i`, ignoring case. */
  predicate MatchesAt(hay: string, needle: string, i: nat)
    requires i + |needle| <= |hay|
  {
    EqualsIgnoreCase(hay[i..i + |needle|], needle)
  }

  /** Every string contains the empty string. */
  lemma ContainsEmpty(hay: string)
    ensures ContainsIgnoreCase(hay, "")
  {
    assert MatchesAt(hay, "", 0);
  }

  /** Kotlin's `Char.isWhitespace()`: Java whitespace or a Unicode space separator. */
  predicate IsWhitespace(c: char) {
    || '\U{9}' <= c <= '\U{D}'         // tab, line feed, vertical tab, form feed, carriage return
    || '\U{1C}' <= c <= '\U{20}'       // file/group/record/unit separators, space
    || c == '\U{A0}' || c == '\U{1680}'
    || '\U{2000}' <= c <= '\U{200A}'   // en quad .. hair space
    || c == '\U{2028}' || c == '\U{2029}' || c == '\U{202F}' || c == '\U{205F}' || c == '\U{3000}'
  }

  /** `isBlank()`: empty or whitespace only. */
  predicate IsBlank(s: string) {
    forall i :: 0 <= i < |s| ==> IsWhitespace(s[i])
  }

  /**
   * The BINARY collation of `ORDER BY name`: lexicographic by character code,
   * a proper prefix first. (Code-point order is the order of the UTF-8 bytes.)
   */
  predicate StrLe(a: string, b: string)
    decreases |a|
  {
    if a == [] then true
    else if b == [] then false
    else if a[0] != b[0] then a[0] < b[0]
    else StrLe(a[1..], b[1..])
  }

  lemma {:induction false} StrLeTotal(a: string, b: string)
    ensures StrLe(a, b) || StrLe(b, a)
    decreases |a|
  {
    if a != [] && b != [] && a[0] == b[0] {
      StrLeTotal(a[1..], b[1..]);
    }
  }

  lemma {:induction false} StrLeAntisymmetric(a: string, b: string)
    requires StrLe(a, b) && StrLe(b, a)
    ensures a == b
    decreases |a|
  {
    if a != [] {
      StrLeAntisymmetric(a[1..], b[1..]);
      assert a == [a[0]] + a[1..] && b == [b[0]] + b[1..];
    }
  }

  lemma {:induction false} StrLeTransitive(a: string, b: string, c: string)
    requires StrLe(a, b) && StrLe(b, c)
    ensures StrLe(a, c)
    decreases |a|
  {
    if a != [] && a[0] == b[0] && b[0] == c[0] {
      StrLeTransitive(a[1..], b[1..], c[1..]);
    }
  }

  /** StrLe is a total order, so it can drive a sort. */
  lemma StrLeIsTotalOrder()
    ensures IsTotalOrder(StrLe)
  {
    forall a, b ensures StrLe(a, b) || StrLe(b, a) { StrLeTotal(a, b); }
    forall a, b | StrLe(a, b) && StrLe(b, a) ensures a == b { StrLeAntisymmetric(a, b); }
    forall a, b, c | StrLe(a, b) && StrLe(b, c) ensures StrLe(a, c) { StrLeTransitive(a, b, c); }
  }

  predicate IsDigit(c: char) {
    '0' <= c <= '9'
  }

  predicate AllDigits(s: string) {
    forall i :: 0 <= i < |s| ==> IsDigit(s[i])
  }

  /** The number a string of decimal digits denotes (unbounded). */
  function DigitsValue(ds: string): nat
    requires AllDigits(ds)
    decreases |ds|
  {
    if ds == [] then 0
    else 10 * DigitsValue(ds[..|ds| - 1]) + (ds[|ds| - 1] as int - '0' as int)
  }

  /**
   * `toIntOrNull()`: an optional `+` or `-`, then at least one decimal digit,
   * and the value must fit a 32-bit Int (down to -2^31 with a minus sign).
   */
  function ToIntOrNull(s: string): (r: Option<Int32>)
    ensures r.Some? ==> |s| > 0
    ensures r.Some? && s[0] == '-' ==> r.value <= 0
  {
    if |s| == 0 then None
    else
      var digits := if s[0] == '-' || s[0] == '+' then s[1..] else s;
      if |digits| == 0 || !AllDigits(digits) then None
      else
        var v: int := if s[0] == '-' then -(DigitsValue(digits) as int) else DigitsValue(digits);
        if MinInt <= v <= MaxInt then Some(v) else None
  }

  function DigitChar(d: nat): (c: char)
    requires d < 10
  {
    ('0' as int + d) as char
  }

  /** The decimal digits of a natural number, most significant first, no leading zeros. */
  function NatDigits(n: nat): string
    decreases n
  {
    if n < 10 then [DigitChar(n)] else NatDigits(n / 10) + [DigitChar(n % 10)]
  }

  /** `Int.toString()`. */
  function IntToString(n: int): string {
    if n < 0 then "-" + NatDigits(-n) else NatDigits(n)
  }

  lemma {:induction false} NatDigitsValue(n: nat)
    ensures |NatDigits(n)| > 0 && AllDigits(NatDigits(n))
    ensures DigitsValue(NatDigits(n)) == n
    decreases n
  {
    if n >= 10 {
      NatDigitsValue(n / 10);
      var ds := NatDigits(n);
      assert ds[..|ds| - 1] == NatDigits(n / 10);
    }
  }

  /**
   * Printing a price and parsing the text back gives the same price; the
   * decimal text of a number outside the 32-bit range does not parse.
   */
  lemma IntToStringRoundTrip(n: int)
    ensures MinInt <= n <= MaxInt ==> ToIntOrNull(IntToString(n)) == Some(n)
    ensures n < MinInt || MaxInt < n ==> ToIntOrNull(IntToString(n)) == None
  {
    var m: int := if n < 0 then -(n as int) else n;
    NatDigitsValue(m);
    var ds := NatDigits(m);
    assert IsDigit(ds[0]);
    if n < 0 {
      assert IntToString(n)[1..] == ds;
    }
  }
}
