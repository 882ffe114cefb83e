/**
 * The string operations the source takes from JavaScript: `\d` digits, ASCII case mapping
 * (`toLowerCase`, `toUpperCase`), `includes`, the `<` order on strings, and the decimal
 * rendering of a whole number inside a template literal.
 */
module Text {

  predicate IsDigit(c: char) { '0' <= c <= '9' }

  predicate IsUpper(c: char) { 'A' <= c <= 'Z' }

  predicate IsLower(c: char) { 'a' <= c <= 'z' }

  predicate AllDigits(s: string) { forall i :: 0 <= i < |s| ==> IsDigit(s[i]) }

  function LowerChar(c: char): (r: char)
    ensures IsUpper(c) ==> r as int == c as int + 32
    ensures !IsUpper(c) ==> r == c
    ensures !IsUpper(r)
  {
    if IsUpper(c) then (c as int + 32) as char else c
  }

  function UpperChar(c: char): (r: char)
    ensures IsLower(c) ==> r as int == c as int - 32
    ensures !IsLower(c) ==> r == c
    ensures !IsLower(r)
  {
    if IsLower(c) then (c as int - 32) as char else c
  }

  /** `toLowerCase` on the ASCII letters; every other character is kept. */
  function ToLower(s: string): (r: string)
    ensures |r| == |s|
    ensures forall i :: 0 <= i < |s| ==> r[i] == LowerChar(s[i])
  {
    if s == [] then [] else [LowerChar(s[0])] + ToLower(s[1..])
  }

  /** Lower-casing twice is lower-casing once. */
  lemma ToLowerIdempotent(s: string)
    ensures ToLower(ToLower(s)) == ToLower(s)
  {
  }

  /** `needle` stands in `hay` starting at position `i`. */
  ghost predicate OccursAt(hay: string, needle: string, i: int)
  {
    0 <= i && i + |needle| <= |hay| && hay[i..i + |needle|] == needle
  }

  /** `needle` occurs in `hay` at some position. */
  ghost predicate OccursIn(hay: string, needle: string)
  {
    exists i :: OccursAt(hay, needle, i)
  }

  /**
   * `hay.includes(needle)`: try every starting position from the left. The empty needle is
   * found everywhere, and a needle longer than the haystack nowhere.
   */
  function Includes(hay: string, needle: string): (r: bool)
    ensures needle == [] ==> r
    ensures r ==> |needle| <= |hay|
  {
    if needle <= hay then true
    else if hay == [] then false
    else Includes(hay[1..], needle)
  }

  lemma {:induction false} OccursImpliesIncludes(hay: string, needle: string, i: int)
    requires OccursAt(hay, needle, i)
    ensures Includes(hay, needle)
    decreases i
  {
    if i == 0 {
      assert needle == hay[..|needle|];
    } else if !(needle <= hay) {
      assert hay[1..][i - 1..i - 1 + |needle|] == hay[i..i + |needle|];
      OccursImpliesIncludes(hay[1..], needle, i - 1);
    }
  }

  lemma {:induction false} IncludesImpliesOccurs(hay: string, needle: string)
    requires Includes(hay, needle)
    ensures OccursIn(hay, needle)
  {
    if needle <= hay {
      assert OccursAt(hay, needle, 0);
    } else {
      IncludesImpliesOccurs(hay[1..], needle);
      var i :| OccursAt(hay[1..], needle, i);
      assert hay[1..][i..i + |needle|] == hay[i + 1..i + 1 + |needle|];
      assert OccursAt(hay, needle, i + 1);
    }
  }

  /** `includes` holds exactly when the needle occurs at some position. */
  lemma IncludesIffOccurs(hay: string, needle: string)
    ensures Includes(hay, needle) <==> OccursIn(hay, needle)
  {
    if Includes(hay, needle) {
      IncludesImpliesOccurs(hay, needle);
    }
    forall i | OccursAt(hay, needle, i)
      ensures Includes(hay, needle)
    {
      OccursImpliesIncludes(hay, needle, i);
    }
  }

  /**
   * JavaScript's `a < b` on strings: lexicographic by character code. No string is less than
   * itself, and a proper prefix is less than the string it starts.
   */
  predicate StrLess(a: string, b: string)
    ensures StrLess(a, b) ==> a != b
    ensures a < b ==> StrLess(a, b)
  {
    if a == [] then b != []
    else if b == [] then false
    else if a[0] < b[0] then true
    else if a[0] == b[0] then StrLess(a[1..], b[1..])
    else false
  }

  lemma {:induction false} StrLessTransitive(a: string, b: string, c: string)
    requires StrLess(a, b) && StrLess(b, c)
    ensures StrLess(a, c)
  {
    if a != [] && b != [] && c != [] && a[0] == b[0] && b[0] == c[0] {
      StrLessTransitive(a[1..], b[1..], c[1..]);
    }
  }

  /** Two different strings are always ordered one way or the other. */
  lemma {:induction false} StrLessTotal(a: string, b: string)
    requires a != b
    ensures StrLess(a, b) || StrLess(b, a)
  {
    if a != [] && b != [] && a[0] == b[0] {
      assert a == [a[0]] + a[1..] && b == [b[0]] + b[1..];
      StrLessTotal(a[1..], b[1..]);
    }
  }

  lemma {:induction false} StrLessAsymmetric(a: string, b: string)
    ensures StrLess(a, b) ==> !StrLess(b, a)
  {
    if a != [] && b != [] && a[0] == b[0] {
      StrLessAsymmetric(a[1..], b[1..]);
    }
  }

  /** "Not less" is transitive: the source's comparator orders keys as a total preorder. */
  lemma StrNotLessTransitive(a: string, b: string, c: string)
    requires !StrLess(b, a) && !StrLess(c, b)
    ensures !StrLess(c, a)
  {
    if a != b && b != c {
      StrLessTotal(a, b);
      StrLessTotal(b, c);
      StrLessTransitive(a, b, c);
      StrLessAsymmetric(a, c);
    }
  }

  function DigitChar(d: nat): (c: char)
    requires d < 10
    ensures IsDigit(c)
  {
    ('0' as int + d) as char
  }

  function DigitValue(c: char): (d: nat)
    requires IsDigit(c)
    ensures d < 10
  {
    c as int - '0' as int
  }

  /** A whole number as a template literal renders it: decimal digits, no leading zero. */
  function NatToString(n: nat): (s: string)
    ensures |s| >= 1 && AllDigits(s)
    ensures |s| > 1 ==> s[0] != '0'
  {
    if n < 10 then [DigitChar(n)] else NatToString(n / 10) + [DigitChar(n % 10)]
  }

  /** The value of a string of decimal digits (what `parseFloat` gives for one). */
  function DigitsValue(s: string): nat
    requires AllDigits(s)
  {
    if s == [] then 0 else DigitsValue(s[..|s| - 1]) * 10 + DigitValue(s[|s| - 1])
  }

  /** Reading a rendered number back gives the number. */
  lemma {:induction false} NatToStringRoundTrip(n: nat)
    ensures DigitsValue(NatToString(n)) == n
  {
    if n >= 10 {
      var s := NatToString(n);
      NatToStringRoundTrip(n / 10);
      assert s[..|s| - 1] == NatToString(n / 10);
    }
  }

  /** Different numbers render differently. */
  lemma NatToStringInjective(m: nat, n: nat)
    requires NatToString(m) == NatToString(n)
    ensures m == n
  {
    NatToStringRoundTrip(m);
    NatToStringRoundTrip(n);
  }
}
