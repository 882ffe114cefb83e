/**
 * The product administration screen (src/pages/admin/Products.tsx): the tab and search
 * filter, the column sort and its direction toggle, and the rate-band editor, whose
 * handlers copy the product's `rateGrid`, assign one entry and hand the product on.
 */
module AdminProducts {
  import opened Wrappers
  import opened Text
  import opened Seqs
  import opened Catalog
  import opened Powers
  import Formatters
  import EditableGrid
  import RateResolution

  // ---------------------------------------------------------------- filter

  function NameOf(p: Product): Option<string> { if p.data.None? then None else p.data.value.productName }

  function CarrierOf(p: Product): Option<string> { if p.data.None? then None else p.data.value.carrier }

  function InstitutionOf(p: Product): Option<string> { if p.data.None? then None else p.data.value.institution }

  /** `(field?.toLowerCase() || '')`. */
  function Lowered(s: Option<string>): string
  {
    ToLower(StrOr(s, ""))
  }

  /**
   * The search clause: an empty query, or the lower-cased query inside one of the three
   * lower-cased names. A non-empty query therefore never matches a product all of whose
   * three names are shorter than it.
   */
  predicate MatchesSearch(p: Product, query: string)
    ensures MatchesSearch(p, query) && query != "" ==>
      |query| <= |StrOr(NameOf(p), "")| || |query| <= |StrOr(CarrierOf(p), "")| || |query| <= |StrOr(InstitutionOf(p), "")|
  {
    query == ""
    || Includes(Lowered(NameOf(p)), ToLower(query))
    || Includes(Lowered(CarrierOf(p)), ToLower(query))
    || Includes(Lowered(InstitutionOf(p)), ToLower(query))
  }

  /** The `filter` callback: the product's type is the active tab and it matches the search. */
  predicate Shown(p: Product, tab: ProductType, query: string)
  {
    p.kind == tab && MatchesSearch(p, query)
  }

  /** `filteredProducts`. */
  function FilterProducts(products: seq<Product>, tab: ProductType, query: string): (r: seq<Product>)
    ensures |r| <= |products|
    ensures forall i :: 0 <= i < |r| ==> r[i].kind == tab && MatchesSearch(r[i], query)
  {
    if products == [] then []
    else (if Shown(products[0], tab, query) then [products[0]] else []) + FilterProducts(products[1..], tab, query)
  }

  /** A product is listed exactly when it is in the catalog, of the tab's type and matching the search. */
  lemma {:induction false} FilterMembership(products: seq<Product>, tab: ProductType, query: string, p: Product)
    ensures p in FilterProducts(products, tab, query) <==> p in products && Shown(p, tab, query)
  {
    if products != [] {
      FilterMembership(products[1..], tab, query, p);
      assert products == [products[0]] + products[1..];
    }
  }

  /** Filtering works piece by piece, so the listed products keep their catalog order. */
  lemma {:induction false} FilterAppend(a: seq<Product>, b: seq<Product>, tab: ProductType, query: string)
    ensures FilterProducts(a + b, tab, query) == FilterProducts(a, tab, query) + FilterProducts(b, tab, query)
  {
    if a == [] {
      assert a + b == b;
    } else {
      var h := if Shown(a[0], tab, query) then [a[0]] else [];
      assert (a + b)[0] == a[0] && (a + b)[1..] == a[1..] + b;
      FilterAppend(a[1..], b, tab, query);
      ConcatAssoc(h, FilterProducts(a[1..], tab, query), FilterProducts(b, tab, query));
    }
  }

  /** A list whose every product is shown comes back whole. */
  lemma {:induction false} FilterKeepsShown(products: seq<Product>, tab: ProductType, query: string)
    requires forall i :: 0 <= i < |products| ==> Shown(products[i], tab, query)
    ensures FilterProducts(products, tab, query) == products
  {
    if products != [] {
      FilterKeepsShown(products[1..], tab, query);
      assert products == [products[0]] + products[1..];
    }
  }

  /** With an empty query the tab alone decides. */
  lemma EmptyQueryKeepsTab(products: seq<Product>, tab: ProductType, p: Product)
    ensures p in FilterProducts(products, tab, "") <==> p in products && p.kind == tab
  {
    FilterMembership(products, tab, "", p);
  }

  /** The search ignores the case of the query. */
  lemma SearchIgnoresCase(p: Product, query: string)
    ensures MatchesSearch(p, query) == MatchesSearch(p, ToLower(query))
  {
    ToLowerIdempotent(query);
  }

  /** A non-empty query matches exactly when it occurs, lower-cased, in the lower-cased product name, carrier or institution. */
  lemma SearchIsSubstring(p: Product, query: string)
    requires query != ""
    ensures MatchesSearch(p, query) <==>
      OccursIn(Lowered(NameOf(p)), ToLower(query))
      || OccursIn(Lowered(CarrierOf(p)), ToLower(query))
      || OccursIn(Lowered(InstitutionOf(p)), ToLower(query))
  {
    var q := ToLower(query);
    IncludesIffOccurs(Lowered(NameOf(p)), q);
    IncludesIffOccurs(Lowered(CarrierOf(p)), q);
    IncludesIffOccurs(Lowered(InstitutionOf(p)), q);
  }

  // ---------------------------------------------------------------- sort

  datatype Direction = Asc | Desc

  datatype SortConfig = SortConfig(key: string, direction: Direction)

  /**
   * `a.data?.[key] || ''`. The columns sort by 'productName', 'institution', 'term' and 'rate';
   * a product's `data` holds the first two (and `carrier`) as text and neither 'term' nor 'rate',
   * which therefore read as ''.
   */
  function SortKey(p: Product, key: string): (r: string)
    ensures key == "term" || key == "rate" ==> r == ""
    ensures p.data.None? ==> r == ""
  {
    if key == "productName" then StrOr(NameOf(p), "")
    else if key == "institution" then StrOr(InstitutionOf(p), "")
    else if key == "carrier" then StrOr(CarrierOf(p), "")
    else ""
  }

  /** The comparator returns a negative number: `a` goes before `b`. */
  predicate Before(a: Product, b: Product, c: SortConfig)
  {
    if c.direction == Asc then StrLess(SortKey(a, c.key), SortKey(b, c.key))
    else StrLess(SortKey(b, c.key), SortKey(a, c.key))
  }

  /** No later product goes strictly before an earlier one. */
  predicate SortedBy(r: seq<Product>, c: SortConfig)
  {
    forall i, j :: 0 <= i < j < |r| ==> !Before(r[j], r[i], c)
  }

  /** Insert `x` ahead of the first product that does not go strictly before it, which keeps the sort stable. */
  function Insert(x: Product, t: seq<Product>, c: SortConfig): seq<Product>
  {
    if t == [] || !Before(t[0], x, c) then [x] + t else [t[0]] + Insert(x, t[1..], c)
  }

  /** The sort puts the list in comparator order and neither drops nor duplicates a product. */
  function SortBy(s: seq<Product>, c: SortConfig): (r: seq<Product>)
    ensures SortedBy(r, c)
    ensures multiset(r) == multiset(s)
  {
    if s == [] then []
    else
      var rest := SortBy(s[1..], c);
      InsertSorted(s[0], rest, c);
      InsertPermutes(s[0], rest, c);
      assert s == [s[0]] + s[1..];
      Insert(s[0], rest, c)
  }

  /** The products of `s` whose sort key under `key` is `k`, in their order in `s`. */
  function KeyedBy(s: seq<Product>, k: string, key: string): seq<Product>
  {
    if s == [] then [] else (if SortKey(s[0], key) == k then [s[0]] else []) + KeyedBy(s[1..], k, key)
  }

  /** Putting `y` in front adds it in front of the products with its key. */
  lemma KeyedCons(y: Product, u: seq<Product>, k: string, key: string)
    ensures KeyedBy([y] + u, k, key) == (if SortKey(y, key) == k then [y] else []) + KeyedBy(u, k, key)
  {
    assert ([y] + u)[0] == y && ([y] + u)[1..] == u;
  }

  /** Inserting `x` puts it first among the products with its key. */
  lemma {:induction false} InsertKeyed(x: Product, t: seq<Product>, c: SortConfig, k: string)
    ensures KeyedBy(Insert(x, t, c), k, c.key) == (if SortKey(x, c.key) == k then [x] else []) + KeyedBy(t, k, c.key)
  {
    if t == [] || !Before(t[0], x, c) {
      KeyedCons(x, t, k, c.key);
    } else {
      var hx := if SortKey(x, c.key) == k then [x] else [];
      var h0 := if SortKey(t[0], c.key) == k then [t[0]] else [];
      var rest := KeyedBy(t[1..], k, c.key);
      assert SortKey(t[0], c.key) != SortKey(x, c.key);
      InsertKeyed(x, t[1..], c, k);
      KeyedCons(t[0], Insert(x, t[1..], c), k, c.key);
      SplitFirst(t);
      KeyedCons(t[0], t[1..], k, c.key);
      if h0 == [] {
        assert h0 + (hx + rest) == hx + rest == hx + (h0 + rest);
      } else {
        assert hx == [];
        assert h0 + (hx + rest) == h0 + rest == hx + (h0 + rest);
      }
    }
  }

  /** The sort is stable: products with the same key keep the order they had. */
  lemma {:induction false} SortByStable(s: seq<Product>, c: SortConfig, k: string)
    ensures KeyedBy(SortBy(s, c), k, c.key) == KeyedBy(s, k, c.key)
  {
    if s != [] {
      SortByStable(s[1..], c, k);
      InsertKeyed(s[0], SortBy(s[1..], c), c, k);
    }
  }

  /**
   * `sortedProducts`: the filtered list as it is without a sort config, else a permutation of it,
   * ascending or descending by the key, in which products with the same key keep their order.
   */
  function SortedProducts(filtered: seq<Product>, config: Option<SortConfig>): (r: seq<Product>)
    ensures config.None? ==> r == filtered
    ensures config.Some? ==> multiset(r) == multiset(filtered)
    ensures config.Some? ==> forall i, j :: 0 <= i < j < |r| ==>
      if config.value.direction == Asc then !StrLess(SortKey(r[j], config.value.key), SortKey(r[i], config.value.key))
      else !StrLess(SortKey(r[i], config.value.key), SortKey(r[j], config.value.key))
    ensures config.Some? ==> forall k :: KeyedBy(r, k, config.value.key) == KeyedBy(filtered, k, config.value.key)
  {
    if config.None? then filtered
    else
      var r := SortBy(filtered, config.value);
      assert forall k :: KeyedBy(r, k, config.value.key) == KeyedBy(filtered, k, config.value.key) by {
        forall k
          ensures KeyedBy(r, k, config.value.key) == KeyedBy(filtered, k, config.value.key)
        {
          SortByStable(filtered, config.value, k);
        }
      }
      r
  }

  lemma BeforeAsymmetric(a: Product, b: Product, c: SortConfig)
    ensures Before(a, b, c) ==> !Before(b, a, c)
  {
    StrLessAsymmetric(SortKey(a, c.key), SortKey(b, c.key));
  }

  lemma NotBeforeTransitive(a: Product, b: Product, d: Product, c: SortConfig)
    requires !Before(b, a, c) && !Before(d, b, c)
    ensures !Before(d, a, c)
  {
    var ka, kb, kd := SortKey(a, c.key), SortKey(b, c.key), SortKey(d, c.key);
    if c.direction == Asc {
      StrNotLessTransitive(ka, kb, kd);
    } else {
      StrNotLessTransitive(kd, kb, ka);
    }
  }

  lemma {:induction false} InsertPermutes(x: Product, t: seq<Product>, c: SortConfig)
    ensures multiset(Insert(x, t, c)) == multiset(t) + multiset{x}
  {
    if t != [] && Before(t[0], x, c) {
      InsertPermutes(x, t[1..], c);
      assert t == [t[0]] + t[1..];
    }
  }

  lemma {:induction false} InsertSorted(x: Product, t: seq<Product>, c: SortConfig)
    requires SortedBy(t, c)
    ensures SortedBy(Insert(x, t, c), c)
  {
    if t == [] {
    } else if !Before(t[0], x, c) {
      forall j | 0 <= j < |t|
        ensures !Before(t[j], x, c)
      {
        if j > 0 {
          NotBeforeTransitive(x, t[0], t[j], c);
        }
      }
      assert Insert(x, t, c) == [x] + t;
    } else {
      var rest := Insert(x, t[1..], c);
      InsertSorted(x, t[1..], c);
      InsertPermutes(x, t[1..], c);
      forall i | 0 <= i < |rest|
        ensures !Before(rest[i], t[0], c)
      {
        assert rest[i] in multiset(rest);
        if rest[i] == x {
          BeforeAsymmetric(t[0], x, c);
        } else {
          assert rest[i] in multiset(t[1..]);
          var j :| 0 <= j < |t[1..]| && t[1..][j] == rest[i];
          assert t[j + 1] == rest[i];
        }
      }
      assert Insert(x, t, c) == [t[0]] + rest;
    }
  }

  /** `requestSort(key)`. */
  function RequestSort(config: Option<SortConfig>, key: string): (r: SortConfig)
    ensures r.key == key
    ensures r.direction == Desc <==> config == Some(SortConfig(key, Asc))
  {
    if config.Some? && config.value.key == key && config.value.direction == Asc then SortConfig(key, Desc)
    else SortConfig(key, Asc)
  }

  /** Clicking one column again flips the direction; clicking another column starts ascending. */
  lemma RepeatedClicksAlternate(config: Option<SortConfig>, key: string, other: string)
    ensures RequestSort(Some(RequestSort(config, key)), key).direction != RequestSort(config, key).direction
    ensures other != key ==> RequestSort(Some(RequestSort(config, key)), other).direction == Asc
  {
  }

  // ---------------------------------------------------------------- band editor

  /** `editingProduct.data?.rateGrid || []`. */
  function GridOf(p: Product): seq<Band>
  {
    if p.data.Some? && p.data.value.rateGrid.Some? then p.data.value.rateGrid.value else []
  }

  /** `{ ...p.data }`, empty when there is no `data`. */
  function DataOf(p: Product): ProductData
  {
    if p.data.Some? then p.data.value else NoData
  }

  /** `{ ...editingProduct, data: { ...editingProduct.data, rateGrid: grid } }`. */
  function WithGrid(p: Product, grid: seq<Band>): (r: Product)
  {
    p.(data := Some(DataOf(p).(rateGrid := Some(grid))))
  }

  /** The grid changes and nothing else about the product does. */
  lemma WithGridEffect(p: Product, grid: seq<Band>)
    ensures GridOf(WithGrid(p, grid)) == grid
    ensures WithGrid(p, grid).(data := p.data) == p
    ensures DataOf(WithGrid(p, grid)).(rateGrid := DataOf(p).rateGrid) == DataOf(p)
  {
  }

  /** The band "Add Band" appends. */
  function NewBand(kind: ProductType): Band
  {
    if kind == LifeInsurance then
      Band(None, None, None, None, Some(Finite(0.0)), None, Some(Finite(30.0)), Some("Male"), Some("No"))
    else
      Band(None, None, Some(Finite(0.0)), Some(Finite(0.0)), Some(Finite(0.0)), None, None, None, None)
  }

  /**
   * The "Add Band" handler: it appends the default band of the product's kind, keeps the others
   * (a missing grid counts as empty) and changes nothing else about the product.
   */
  function AddBand(p: Product): (r: Product)
    ensures |GridOf(r)| == |GridOf(p)| + 1
    ensures GridOf(r)[..|GridOf(p)|] == GridOf(p)
    ensures GridOf(r)[|GridOf(p)|] == NewBand(p.kind)
    ensures p.kind == LifeInsurance ==> GridOf(r)[|GridOf(p)|].age == Some(Finite(30.0)) && GridOf(r)[|GridOf(p)|].gender == Some("Male")
                                        && GridOf(r)[|GridOf(p)|].tobaccoUse == Some("No") && GridOf(r)[|GridOf(p)|].rate == Some(Finite(0.0))
    ensures p.kind != LifeInsurance ==> GridOf(r)[|GridOf(p)|].min == Some(Finite(0.0)) && GridOf(r)[|GridOf(p)|].max == Some(Finite(0.0))
                                        && GridOf(r)[|GridOf(p)|].rate == Some(Finite(0.0))
    ensures r.(data := p.data) == p
  {
    assert (GridOf(p) + [NewBand(p.kind)])[..|GridOf(p)|] == GridOf(p);
    WithGrid(p, GridOf(p) + [NewBand(p.kind)])
  }

  /**
   * A first band added to a product whose rates sit in `bands` becomes its `rateGrid`: it covers
   * every amount and its rate is 0, so every amount now resolves to the 4% default.
   */
  lemma AddBandToLegacyProduct(x: real)
    requires x >= 0.0
    ensures RateResolution.RateForInvestment(30000.0, EnhancedMoneyMarket()) == 0.045
    ensures RateResolution.RateForInvestment(x, AddBand(EnhancedMoneyMarket())) == RateResolution.DefaultRate
  {
  }

  /**
   * The "remove" handler, `rateGrid?.filter((_, i) => i !== index) || []`: it deletes exactly the
   * band at `index`, keeps the order of the rest and changes nothing else about the product.
   */
  function RemoveBand(p: Product, index: int): (r: Product)
    ensures 0 <= index < |GridOf(p)| ==> GridOf(r) == GridOf(p)[..index] + GridOf(p)[index + 1..]
    ensures !(0 <= index < |GridOf(p)|) ==> GridOf(r) == GridOf(p)
    ensures r.(data := p.data) == p
  {
    if 0 <= index < |GridOf(p)| then
      EditableGrid.DropAtInside(GridOf(p), index);
      WithGrid(p, EditableGrid.DropAt(GridOf(p), index))
    else
      EditableGrid.DropAtOutside(GridOf(p), index);
      WithGrid(p, EditableGrid.DropAt(GridOf(p), index))
  }

  /** An input of the band editor, with the text typed or chosen. */
  datatype BandInput =
    | AgeInput(text: string)
    | GenderInput(choice: string)
    | TobaccoInput(choice: string)
    | MinInput(text: string)
    | MaxInput(text: string)
    | RateInput(text: string)

  /** `value ? parseFloat(value) : 0` on `text.replace(/[^0-9]/g, '')`. */
  function ParseAmount(text: string): (r: Num)
    ensures r == Finite(DigitsValue(Formatters.Digits(text)) as real)
  {
    var value := Formatters.Digits(text);
    if value != "" then Finite(DigitsValue(value) as real) else Finite(0.0)
  }

  /** Typing an amount back as it is displayed with thousands separators gives the amount. */
  lemma AmountRoundTrip(n: nat)
    ensures ParseAmount(NatToString(n)) == Finite(n as real)
    ensures ParseAmount(Formatters.FormatNumber(NatToString(n))) == Finite(n as real)
  {
    Formatters.DigitsOfDigits(NatToString(n));
    NatToStringRoundTrip(n);
    Formatters.GroupFromShape(NatToString(n), 0);
  }

  /** `text.replace(/[^0-9.]/g, '')`. */
  function KeepDecimal(s: string): (r: string)
    ensures forall i :: 0 <= i < |r| ==> IsDigit(r[i]) || r[i] == '.'
  {
    if s == [] then [] else (if IsDigit(s[0]) || s[0] == '.' then [s[0]] else []) + KeepDecimal(s[1..])
  }

  /** The longest prefix of digits. */
  function LeadingDigits(s: string): (r: string)
    ensures AllDigits(r) && r <= s
    ensures |r| < |s| ==> !IsDigit(s[|r|])
  {
    if s != [] && IsDigit(s[0]) then [s[0]] + LeadingDigits(s[1..]) else []
  }

  /**
   * `parseFloat` on a string of digits and dots: the integer digits, then the digits after a
   * first dot; no digit on either side is NaN, and anything from a second dot on is ignored.
   */
  function ParseFloat(t: string): (r: Num)
    ensures r.NaN? <==> !(t != [] && IsDigit(t[0])) && !(|t| >= 2 && t[0] == '.' && IsDigit(t[1]))
    ensures r.Finite? ==> r.v >= 0.0
  {
    var whole := LeadingDigits(t);
    var rest := t[|whole|..];
    var fraction := if rest != [] && rest[0] == '.' then LeadingDigits(rest[1..]) else "";
    if whole == "" && fraction == "" then NaN
    else Finite(DecimalValue(whole, fraction))
  }

  /** The value of a numeral with integer digits `whole` and fraction digits `fraction`. */
  function DecimalValue(whole: string, fraction: string): (r: real)
    requires AllDigits(whole) && AllDigits(fraction)
    ensures r >= DigitsValue(whole) as real
  {
    PowAtLeastOne(10.0, |fraction|);
    DigitsValue(whole) as real + DigitsValue(fraction) as real / Pow(10.0, |fraction|)
  }

  /** `value ? parseFloat(value) / 100 : 0` on the kept digits and dots. */
  function ParseRate(text: string): (r: Num)
    ensures KeepDecimal(text) == "" ==> r == Finite(0.0)
    ensures KeepDecimal(text) != "" && ParseFloat(KeepDecimal(text)).NaN? ==> r == NaN
    ensures KeepDecimal(text) != "" && ParseFloat(KeepDecimal(text)).Finite? ==> r == Finite(ParseFloat(KeepDecimal(text)).v / 100.0)
  {
    var value := KeepDecimal(text);
    if value == "" then Finite(0.0)
    else match ParseFloat(value)
      case Finite(v) => Finite(v / 100.0)
      case NaN => NaN
  }

  lemma {:induction false} KeepDecimalOfDigits(s: string)
    requires AllDigits(s)
    ensures KeepDecimal(s) == s && LeadingDigits(s) == s
  {
    if s != [] {
      KeepDecimalOfDigits(s[1..]);
    }
  }

  /** Digits alone are read as that many hundredths. */
  lemma ParseRateOfDigits(s: string)
    requires AllDigits(s) && s != ""
    ensures ParseRate(s) == Finite(DigitsValue(s) as real / 100.0)
  {
    KeepDecimalOfDigits(s);
    assert s[|s|..] == [];
  }

  /** A whole percentage typed in is read as that many hundredths. */
  lemma RateRoundTrip(n: nat)
    ensures ParseRate(NatToString(n)) == Finite(n as real / 100.0)
  {
    ParseRateOfDigits(NatToString(n));
    NatToStringRoundTrip(n);
  }

  lemma {:induction false} LeadingDigitsStop(w: string, rest: string)
    requires AllDigits(w) && (rest == [] || !IsDigit(rest[0]))
    ensures LeadingDigits(w + rest) == w
  {
    if w == [] {
      assert w + rest == rest;
    } else {
      assert (w + rest)[0] == w[0] && (w + rest)[1..] == w[1..] + rest;
      LeadingDigitsStop(w[1..], rest);
    }
  }

  /** A decimal numeral (digits, a dot, digits) is read as its whole part plus its fraction. */
  lemma ParseFloatDecimal(w: string, fr: string)
    requires AllDigits(w) && AllDigits(fr) && (w != "" || fr != "")
    ensures ParseFloat(w + "." + fr) == Finite(DecimalValue(w, fr))
  {
    var t := w + "." + fr;
    assert t == w + ("." + fr);
    LeadingDigitsStop(w, "." + fr);
    assert LeadingDigits(t) == w;
    assert t[|w|..] == "." + fr;
    assert ("." + fr)[1..] == fr;
    KeepDecimalOfDigits(fr);
    assert t[|w|..] != [] && t[|w|..][0] == '.' && LeadingDigits(t[|w|..][1..]) == fr;
  }

  lemma DecimalExample()
    ensures DecimalValue("4", "5") == 4.5
  {
    assert DigitsValue("4") == 4 && DigitsValue("5") == 5;
    assert Pow(10.0, 1) == 10.0;
  }

  lemma RateExampleFraction()
    ensures ParseRate("4.5") == Finite(0.045)
  {
    assert KeepDecimal("4.5") == "4" + "." + "5" by {
      assert KeepDecimal("4.5") == "4.5";
    }
    ParseFloatDecimal("4", "5");
    DecimalExample();
  }

  lemma RateExampleStripped()
    ensures ParseRate("12%") == Finite(0.12)
  {
    assert KeepDecimal("%") == "";
    assert KeepDecimal("12%") == "12";
    assert "12"[..1] == "1";
    assert DigitsValue("12") == 12;
    ParseRateOfDigits("12");
  }

  lemma RateExampleNoDigits()
    ensures ParseRate("abc") == Finite(0.0)
  {
    assert KeepDecimal("abc") == "";
  }

  lemma RateExampleDotOnly()
    ensures ParseRate(".") == NaN
  {
    assert KeepDecimal(".") == ".";
    assert LeadingDigits(".") == "" && "."[1..] == "";
  }

  /**
   * The white space `parseInt` skips before the number (StrWhiteSpaceChar, section 7.2 and 7.3
   * of ECMA-262): tab, vertical tab, form feed, the byte order mark, the four line terminators,
   * and every space separator of Unicode category Zs.
   */
  predicate LeadingSpace(c: char)
  {
    c == '\t' || c == '\U{000B}' || c == '\U{000C}' || c == '\U{FEFF}'
    || c == '\n' || c == '\r' || c == '\U{2028}' || c == '\U{2029}'
    || SpaceSeparator(c)
  }

  /** Unicode category Zs: the space, the no-break space, the Ogham space mark, the en quad to the hair space, and three more. */
  predicate SpaceSeparator(c: char)
  {
    c == ' ' || c == '\U{00A0}' || c == '\U{1680}' || '\U{2000}' <= c <= '\U{200A}'
    || c == '\U{202F}' || c == '\U{205F}' || c == '\U{3000}'
  }

  function TrimStart(s: string): (r: string)
    ensures |r| <= |s| && r == s[|s| - |r|..]
    ensures r != [] ==> !LeadingSpace(r[0])
  {
    if s != [] && LeadingSpace(s[0]) then TrimStart(s[1..]) else s
  }

  /** `parseInt(text)`: skip white space, an optional sign, then the leading decimal digits; none is NaN. */
  function ParseInt(text: string): (r: Num)
    ensures r.Finite? && r.v < 0.0 ==> TrimStart(text) != [] && TrimStart(text)[0] == '-'
  {
    var t := TrimStart(text);
    var negative := t != [] && t[0] == '-';
    var body := if t != [] && (t[0] == '-' || t[0] == '+') then t[1..] else t;
    var digits := LeadingDigits(body);
    if digits == "" then NaN
    else Finite(if negative then -(DigitsValue(digits) as real) else DigitsValue(digits) as real)
  }

  /** Digits alone are read as their value. */
  lemma ParseIntOfDigits(s: string)
    requires AllDigits(s) && s != ""
    ensures ParseInt(s) == Finite(DigitsValue(s) as real)
  {
    KeepDecimalOfDigits(s);
    assert IsDigit(s[0]);
    assert !LeadingSpace(s[0]);
    assert TrimStart(s) == s;
    assert s[0] != '-' && s[0] != '+';
  }

  /**
   * Digits followed by anything that is not a digit are read as the digits' value: the number
   * input's `3.5` reads as 3 and `1e3` as 1.
   */
  lemma ParseIntDigitsThenRest(w: string, rest: string)
    requires AllDigits(w) && w != "" && (rest == [] || !IsDigit(rest[0]))
    ensures ParseInt(w + rest) == Finite(DigitsValue(w) as real)
  {
    var t := w + rest;
    assert t[0] == w[0] && IsDigit(t[0]);
    assert !LeadingSpace(t[0]);
    assert TrimStart(t) == t;
    assert t[0] != '-' && t[0] != '+';
    LeadingDigitsStop(w, rest);
  }

  /** A minus sign before digits gives the negated value: `-5` reads as -5. */
  lemma ParseIntNegative(w: string)
    requires AllDigits(w) && w != ""
    ensures ParseInt("-" + w) == Finite(-(DigitsValue(w) as real))
  {
    var t := "-" + w;
    assert t[0] == '-';
    assert !LeadingSpace(t[0]);
    assert TrimStart(t) == t;
    assert t[1..] == w;
    KeepDecimalOfDigits(w);
  }

  /** An age typed as digits is read as that number; an empty field gives NaN. */
  lemma AgeRoundTrip(n: nat)
    ensures ParseInt(NatToString(n)) == Finite(n as real)
    ensures ParseInt("") == NaN
  {
    ParseIntOfDigits(NatToString(n));
    NatToStringRoundTrip(n);
    assert TrimStart("") == "" && LeadingDigits("") == "";
  }

  /**
   * The band after one input, `{ ...band, field: parsed }`: the input sets its one field to the
   * parsed text, so putting that field back gives the band as it was.
   */
  function Edited(b: Band, input: BandInput): (r: Band)
    ensures input.AgeInput? ==> r.(age := b.age) == b && r.age == Some(ParseInt(input.text))
    ensures input.GenderInput? ==> r.(gender := b.gender) == b && r.gender == Some(input.choice)
    ensures input.TobaccoInput? ==> r.(tobaccoUse := b.tobaccoUse) == b && r.tobaccoUse == Some(input.choice)
    ensures input.MinInput? ==> r.(min := b.min) == b && r.min == Some(ParseAmount(input.text))
    ensures input.MaxInput? ==> r.(max := b.max) == b && r.max == Some(ParseAmount(input.text))
    ensures input.RateInput? ==> r.(rate := b.rate) == b && r.rate == Some(ParseRate(input.text))
  {
    match input
    case AgeInput(t) => b.(age := Some(ParseInt(t)))
    case GenderInput(s) => b.(gender := Some(s))
    case TobaccoInput(s) => b.(tobaccoUse := Some(s))
    case MinInput(t) => b.(min := Some(ParseAmount(t)))
    case MaxInput(t) => b.(max := Some(ParseAmount(t)))
    case RateInput(t) => b.(rate := Some(ParseRate(t)))
  }

  /**
   * An edit handler of the band grid: copy `rateGrid`, assign the edited band at `index`, and hand
   * the product on with the new grid. The index is that of a rendered row.
   */
  method EditBand(p: Product, index: nat, input: BandInput) returns (r: Product)
    requires index < |GridOf(p)|
    ensures |GridOf(r)| == |GridOf(p)|
    ensures GridOf(r)[index] == Edited(GridOf(p)[index], input)
    ensures forall i :: 0 <= i < |GridOf(p)| && i != index ==> GridOf(r)[i] == GridOf(p)[i]
    ensures r == WithGrid(p, GridOf(r))
  {
    var grid := GridOf(p);
    var newRateGrid := new Band[|grid|](i requires 0 <= i < |grid| => grid[i]);
    newRateGrid[index] := Edited(grid[index], input);
    r := WithGrid(p, newRateGrid[..]);
  }

  /** Two grids that agree on the fields a `rateGrid` lookup reads. */
  ghost predicate SameAmountFields(g: seq<Band>, h: seq<Band>)
  {
    |g| == |h| && forall i :: 0 <= i < |g| ==> g[i].minAmount == h[i].minAmount && g[i].maxAmount == h[i].maxAmount && g[i].rate == h[i].rate
  }

  lemma {:induction false} SameAmountFieldsSameCovering(g: seq<Band>, h: seq<Band>, x: real)
    requires SameAmountFields(g, h)
    ensures RateResolution.FirstCovering(g, RateResolution.AmountNames, x) == RateResolution.FirstCovering(h, RateResolution.AmountNames, x)
  {
    if g != [] {
      SameAmountFieldsSameCovering(g[1..], h[1..], x);
    }
  }

  /**
   * The editor's amount columns write `min` and `max`, which a `rateGrid` lookup never reads (it
   * reads `minAmount` and `maxAmount`): editing an amount leaves every resolved rate as it was.
   */
  lemma AmountEditKeepsRates(p: Product, index: nat, input: BandInput, x: real)
    requires index < |GridOf(p)|
    requires input.MinInput? || input.MaxInput?
    ensures RateResolution.RateForInvestment(x, WithGrid(p, GridOf(p)[index := Edited(GridOf(p)[index], input)])) ==
            RateResolution.RateForInvestment(x, p)
  {
    var g := GridOf(p);
    var h := g[index := Edited(g[index], input)];
    assert SameAmountFields(h, g);
    SameAmountFieldsSameCovering(h, g, x);
  }
}
