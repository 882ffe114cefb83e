/**
 * `formatNumber` (src/utils/formatters.ts): keep the decimal digits of the input, then put
 * a comma before every digit that is followed by a positive multiple of three digits.
 */
module Formatters {
  import opened Text
  import opened Seqs

  /** `value.replace(/\D/g, '')`: the ASCII digits of `s`, in order. */
  function Digits(s: string): (r: string)
    ensures AllDigits(r)
    ensures |r| <= |s|
  {
    if s == [] then [] else (if IsDigit(s[0]) then [s[0]] else []) + Digits(s[1..])
  }

  /**
   * `.replace(/\B(?=(\d{3})+(?!\d))/g, ',')` on a digit string `d`, from position `p` on.
   * A comma goes at position `p` when it is not a word boundary (`0 < p`; an end of a
   * non-empty digit string is one) and the digits that follow number a positive multiple of 3.
   * Commas are only ever added, so the result is no shorter than the digits from `p` on.
   */
  function GroupFrom(d: string, p: nat): (r: string)
    requires p <= |d|
    ensures |d| - p <= |r|
    decreases |d| - p
  {
    if p == |d| then []
    else (if 0 < p && (|d| - p) % 3 == 0 then "," else "") + [d[p]] + GroupFrom(d, p + 1)
  }

  /** `formatNumber(value)`: at least as long as the input's digits, and empty exactly when it has none. */
  function FormatNumber(s: string): (r: string)
    ensures |Digits(s)| <= |r|
    ensures r == "" <==> Digits(s) == ""
  {
    GroupFrom(Digits(s), 0)
  }

  /** The grouping written the other way round: split off the last three digits and group the rest. */
  function Chunked(d: string): string
  {
    if |d| <= 3 then d else Chunked(d[..|d| - 3]) + "," + d[|d| - 3..]
  }

  /** A comma-grouped numeral: a first group of 1 to 3 digits, then groups of a comma and 3 digits. */
  predicate Grouped(r: string)
  {
    if |r| <= 3 then 1 <= |r| && AllDigits(r)
    else r[|r| - 4] == ',' && AllDigits(r[|r| - 3..]) && Grouped(r[..|r| - 4])
  }

  /** `s` without its commas. */
  function StripCommas(s: string): string
  {
    if s == [] then [] else (if s[0] == ',' then [] else [s[0]]) + StripCommas(s[1..])
  }

  /** Only digits and commas. */
  predicate DigitsAndCommas(s: string)
  {
    forall i :: 0 <= i < |s| ==> IsDigit(s[i]) || s[i] == ','
  }

  lemma {:induction false} GroupFromShape(d: string, p: nat)
    requires AllDigits(d) && p <= |d|
    ensures DigitsAndCommas(GroupFrom(d, p))
    ensures StripCommas(GroupFrom(d, p)) == d[p..]
    ensures Digits(GroupFrom(d, p)) == d[p..]
    decreases |d| - p
  {
    if p < |d| {
      GroupFromShape(d, p + 1);
      var c: string := if 0 < p && (|d| - p) % 3 == 0 then "," else "";
      var rest := GroupFrom(d, p + 1);
      var r := GroupFrom(d, p);
      assert r == c + [d[p]] + rest;
      SplitFirst(d[p..]);
      assert StripCommas(r) == d[p..] by {
        StripCommasAppend(c + [d[p]], rest);
        StripCommasAppend(c, [d[p]]);
      }
      assert Digits(r) == d[p..] by {
        DigitsAppend(c + [d[p]], rest);
        DigitsAppend(c, [d[p]]);
      }
    }
  }

  lemma {:induction false} StripCommasAppend(a: string, b: string)
    ensures StripCommas(a + b) == StripCommas(a) + StripCommas(b)
  {
    if a == [] {
      assert a + b == b;
    } else {
      var h := if a[0] == ',' then [] else [a[0]];
      assert (a + b)[0] == a[0] && (a + b)[1..] == a[1..] + b;
      StripCommasAppend(a[1..], b);
      ConcatAssoc(h, StripCommas(a[1..]), StripCommas(b));
    }
  }

  lemma {:induction false} DigitsAppend(a: string, b: string)
    ensures Digits(a + b) == Digits(a) + Digits(b)
  {
    if a == [] {
      assert a + b == b;
    } else {
      var h := if IsDigit(a[0]) then [a[0]] else [];
      assert (a + b)[0] == a[0] && (a + b)[1..] == a[1..] + b;
      DigitsAppend(a[1..], b);
      ConcatAssoc(h, Digits(a[1..]), Digits(b));
    }
  }

  lemma {:induction false} DigitsOfDigits(s: string)
    requires AllDigits(s)
    ensures Digits(s) == s
  {
    if s != [] {
      DigitsOfDigits(s[1..]);
    }
  }

  /** The output holds only digits and commas. */
  lemma OutputAlphabet(s: string)
    ensures DigitsAndCommas(FormatNumber(s))
  {
    GroupFromShape(Digits(s), 0);
  }

  /** Deleting the commas gives back exactly the input's digits, in order. */
  lemma CommasRoundTrip(s: string)
    ensures StripCommas(FormatNumber(s)) == Digits(s)
  {
    GroupFromShape(Digits(s), 0);
  }

  /** Formatting a formatted number changes nothing. */
  lemma FormatIdempotent(s: string)
    ensures FormatNumber(FormatNumber(s)) == FormatNumber(s)
  {
    GroupFromShape(Digits(s), 0);
  }

  /** Without digits the result is empty; up to three digits come back unchanged. */
  lemma ShortInputs(s: string)
    ensures Digits(s) == "" ==> FormatNumber(s) == ""
    ensures AllDigits(s) && |s| <= 3 ==> FormatNumber(s) == s
  {
    if AllDigits(s) && |s| <= 3 {
      DigitsOfDigits(s);
      NoCommaUnderThree(s, 0);
    }
  }

  lemma {:induction false} NoCommaUnderThree(d: string, p: nat)
    requires p <= |d| && (|d| <= 3 || |d| - p < 3)
    ensures GroupFrom(d, p) == d[p..]
    decreases |d| - p
  {
    if p < |d| {
      NoCommaUnderThree(d, p + 1);
      assert d[p..] == [d[p]] + d[p + 1..];
    }
  }

  /** Where the digits left from `p` on number a multiple of three, a comma goes before `d[p]`. */
  lemma GroupFromComma(d: string, p: nat)
    requires 0 < p < |d| && (|d| - p) % 3 == 0
    ensures GroupFrom(d, p) == "," + ([d[p]] + GroupFrom(d, p + 1))
  {
  }

  /** A comma goes before the last three digits of a longer number, and none after it. */
  lemma GroupFromLastThree(d: string)
    requires |d| > 3
    ensures GroupFrom(d, |d| - 3) == "," + d[|d| - 3..]
  {
    var m := |d| - 3;
    GroupFromComma(d, m);
    NoCommaUnderThree(d, m + 1);
    SplitFirst(d[m..]);
  }

  /** The last three digits and the comma before them split off a group of the rest. */
  lemma {:induction false} GroupFromSplitLast(d: string, p: nat)
    requires |d| > 3 && p <= |d| - 3
    ensures GroupFrom(d, p) == GroupFrom(d[..|d| - 3], p) + "," + d[|d| - 3..]
    decreases |d| - p
  {
    var m := |d| - 3;
    var h, tail := d[..m], d[m..];
    if p == m {
      GroupFromLastThree(d);
      assert GroupFrom(h, p) == [];
    } else {
      var lead: string := (if 0 < p && (|d| - p) % 3 == 0 then "," else "") + [d[p]];
      var g := GroupFrom(h, p + 1);
      assert GroupFrom(h, p) == lead + g by {
        assert (m - p) % 3 == (|d| - p) % 3;
        assert h[p] == d[p];
      }
      assert GroupFrom(d, p) == lead + GroupFrom(d, p + 1);
      GroupFromSplitLast(d, p + 1);
      ConcatAssoc(lead, g, ",");
      ConcatAssoc(lead, g + ",", tail);
    }
  }

  /** The regular expression groups the same way as splitting off threes from the right. */
  lemma {:induction false} GroupFromIsChunked(d: string)
    ensures GroupFrom(d, 0) == Chunked(d)
    decreases |d|
  {
    if |d| <= 3 {
      NoCommaUnderThree(d, 0);
    } else {
      GroupFromSplitLast(d, 0);
      GroupFromIsChunked(d[..|d| - 3]);
    }
  }

  lemma {:induction false} ChunkedIsGrouped(d: string)
    requires AllDigits(d) && d != ""
    ensures Grouped(Chunked(d))
    decreases |d|
  {
    if |d| > 3 {
      var head := Chunked(d[..|d| - 3]);
      ChunkedIsGrouped(d[..|d| - 3]);
      var r := Chunked(d);
      assert r == head + "," + d[|d| - 3..];
      assert r[..|r| - 4] == head;
      assert r[|r| - 3..] == d[|d| - 3..];
    }
  }

  lemma {:induction false} GroupedEnds(r: string)
    requires Grouped(r)
    ensures r != "" && r[0] != ',' && r[|r| - 1] != ','
    decreases |r|
  {
    if |r| > 3 {
      GroupedEnds(r[..|r| - 4]);
      assert r[0] == r[..|r| - 4][0];
    }
  }

  /**
   * With at least one digit, the first group has 1 to 3 digits and every later group exactly 3,
   * so the result neither starts nor ends with a comma.
   */
  lemma OutputGrouped(s: string)
    requires Digits(s) != ""
    ensures Grouped(FormatNumber(s))
    ensures FormatNumber(s)[0] != ',' && FormatNumber(s)[|FormatNumber(s)| - 1] != ','
  {
    GroupFromIsChunked(Digits(s));
    ChunkedIsGrouped(Digits(s));
    GroupedEnds(FormatNumber(s));
  }

  lemma GroupingExample()
    ensures FormatNumber("12345") == "12,345"
  {
    DigitsOfDigits("12345");
    GroupFromIsChunked("12345");
    assert "12345"[..2] == "12" && "12345"[2..] == "345";
  }

  lemma NoDigitsExample()
    ensures FormatNumber("abc") == ""
  {
    assert Digits("abc") == "";
  }
}
