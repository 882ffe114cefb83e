/**
 * Rate resolution of the results screen (`getRateForInvestment`, src/components/Results.tsx):
 * the first band of the product's amount-banded list that covers the investment gives the
 * rate, with the fallbacks of JavaScript's `||` chain down to a 4% default.
 */
module RateResolution {
  import opened Wrappers
  import opened Catalog

  const DefaultRate: real := 0.04

  /** The field names a list's bands are read through: `rateGrid` rows by `minAmount`/`maxAmount`, `bands` rows by `min`/`max`. */
  datatype Naming = AmountNames | LegacyNames

  /** `(b.minAmount || 0)`, resp. `(b.min || 0)`. */
  function LowerBound(b: Band, naming: Naming): real
  {
    match naming
    case AmountNames => NumOr(b.minAmount, 0.0)
    case LegacyNames => NumOr(b.min, 0.0)
  }

  /** `(b.maxAmount || Infinity)`, resp. `(b.max || Infinity)`; `None` is infinity. */
  function UpperBound(b: Band, naming: Naming): Option<real>
  {
    var hi := if naming == AmountNames then b.maxAmount else b.max;
    if Truthy(hi) then Some(hi.value.v) else None
  }

  /** The `find` predicate: the investment lies within the band, both ends included. */
  predicate Covers(b: Band, naming: Naming, x: real)
  {
    x >= LowerBound(b, naming) && (UpperBound(b, naming).None? || x <= UpperBound(b, naming).value)
  }

  /** `Array.prototype.find` over the list, as the index of the band it returns. */
  function FirstCovering(list: seq<Band>, naming: Naming, x: real): (r: Option<nat>)
    ensures r.Some? ==> r.value < |list| && Covers(list[r.value], naming, x)
    ensures r.Some? ==> forall j :: 0 <= j < r.value ==> !Covers(list[j], naming, x)
    ensures r.None? ==> forall j :: 0 <= j < |list| ==> !Covers(list[j], naming, x)
  {
    if list == [] then None
    else if Covers(list[0], naming, x) then Some(0)
    else match FirstCovering(list[1..], naming, x)
      case None => None
      case Some(i) => Some(i + 1)
  }

  /** `band?.rate || list[0]?.rate || 0.04` for a non-empty list. */
  function ResolveIn(list: seq<Band>, naming: Naming, x: real): real
    requires list != []
  {
    var found := FirstCovering(list, naming, x);
    if found.Some? && Truthy(list[found.value].rate) then list[found.value].rate.value.v
    else NumOr(list[0].rate, DefaultRate)
  }

  /** A list is consulted when it is present and non-empty (`list?.length`). */
  predicate NonEmpty(list: Option<seq<Band>>)
  {
    list.Some? && list.value != []
  }

  /** The list the lookup consults: a non-empty `rateGrid`, else non-empty `bands`, else none. */
  function ActiveList(p: Product): Option<(seq<Band>, Naming)>
  {
    if p.data.None? then None
    else if NonEmpty(p.data.value.rateGrid) then Some((p.data.value.rateGrid.value, AmountNames))
    else if NonEmpty(p.data.value.bands) then Some((p.data.value.bands.value, LegacyNames))
    else None
  }

  /** The resolved rate is the truthy rate of some band of the list that was consulted. */
  ghost predicate RateOfSomeBand(r: real, active: Option<(seq<Band>, Naming)>)
  {
    active.Some? && exists i :: 0 <= i < |active.value.0| && Truthy(active.value.0[i].rate) && active.value.0[i].rate.value.v == r
  }

  /** `getRateForInvestment(investment, product)`. */
  function RateForInvestment(x: real, p: Product): (r: real)
    ensures p.data.None? ==> r == DefaultRate
    ensures ActiveList(p).None? ==> r == DefaultRate
    ensures r == DefaultRate || RateOfSomeBand(r, ActiveList(p))
    ensures r != 0.0
  {
    if p.data.None? then DefaultRate
    else if NonEmpty(p.data.value.rateGrid) then ResolveIn(p.data.value.rateGrid.value, AmountNames, x)
    else if NonEmpty(p.data.value.bands) then ResolveIn(p.data.value.bands.value, LegacyNames, x)
    else DefaultRate
  }

  /** `i` is the first band, in list order, covering `x`. */
  predicate FirstCovers(list: seq<Band>, naming: Naming, x: real, i: nat)
  {
    i < |list| && Covers(list[i], naming, x) && forall j :: 0 <= j < i ==> !Covers(list[j], naming, x)
  }

  /** First match wins: the first covering band's rate is the result when it is non-zero. */
  lemma FirstMatchWins(x: real, p: Product, i: nat)
    requires ActiveList(p).Some?
    requires FirstCovers(ActiveList(p).value.0, ActiveList(p).value.1, x, i)
    requires Truthy(ActiveList(p).value.0[i].rate)
    ensures RateForInvestment(x, p) == ActiveList(p).value.0[i].rate.value.v
  {
    var (list, naming) := ActiveList(p).value;
    var found := FirstCovering(list, naming, x);
    assert found == Some(i);
  }

  /** A covering band whose rate is 0 or missing falls through to the first band's rate, then 4%. */
  lemma ZeroRateFallsThrough(x: real, p: Product, i: nat)
    requires ActiveList(p).Some?
    requires FirstCovers(ActiveList(p).value.0, ActiveList(p).value.1, x, i)
    requires !Truthy(ActiveList(p).value.0[i].rate)
    ensures RateForInvestment(x, p) == NumOr(ActiveList(p).value.0[0].rate, DefaultRate)
  {
    var (list, naming) := ActiveList(p).value;
    var found := FirstCovering(list, naming, x);
    assert found == Some(i);
  }

  /** With no covering band (a gap, or an amount outside every band) the first band's rate is used, then 4%. */
  lemma NoMatchFallsBack(x: real, p: Product)
    requires ActiveList(p).Some?
    requires forall j :: 0 <= j < |ActiveList(p).value.0| ==> !Covers(ActiveList(p).value.0[j], ActiveList(p).value.1, x)
    ensures RateForInvestment(x, p) == NumOr(ActiveList(p).value.0[0].rate, DefaultRate)
  {
    var (list, naming) := ActiveList(p).value;
    assert FirstCovering(list, naming, x).None?;
  }

  /** A non-empty `rateGrid` takes precedence: the `bands` list is then never read. */
  lemma RateGridTakesPrecedence(x: real, p: Product, other: Option<seq<Band>>)
    requires p.data.Some? && NonEmpty(p.data.value.rateGrid)
    ensures RateForInvestment(x, p) == RateForInvestment(x, p.(data := Some(p.data.value.(bands := other))))
  {
  }

  /** A legacy band renamed to the `minAmount`/`maxAmount` convention. */
  function Renamed(b: Band): Band
  {
    b.(minAmount := b.min, maxAmount := b.max, min := None, max := None)
  }

  function RenamedAll(list: seq<Band>): (r: seq<Band>)
    ensures |r| == |list|
    ensures forall i :: 0 <= i < |list| ==> r[i] == Renamed(list[i])
  {
    if list == [] then [] else [Renamed(list[0])] + RenamedAll(list[1..])
  }

  lemma {:induction false} RenamedFirstCovering(list: seq<Band>, x: real)
    ensures FirstCovering(RenamedAll(list), AmountNames, x) == FirstCovering(list, LegacyNames, x)
  {
    if list != [] {
      RenamedFirstCovering(list[1..], x);
      assert RenamedAll(list)[1..] == RenamedAll(list[1..]);
    }
  }

  /** Both field conventions resolve alike: `bands` with `min`/`max` give the rate the same rows give as a `rateGrid`. */
  lemma LegacyBandsResolveLikeRateGrid(x: real, p: Product)
    requires p.data.Some? && !NonEmpty(p.data.value.rateGrid) && NonEmpty(p.data.value.bands)
    ensures RateForInvestment(x, p) ==
            RateForInvestment(x, p.(data := Some(p.data.value.(rateGrid := Some(RenamedAll(p.data.value.bands.value)), bands := None))))
  {
    RenamedFirstCovering(p.data.value.bands.value, x);
  }

  /** No amount lies in two bands of the list. */
  ghost predicate Disjoint(list: seq<Band>, naming: Naming)
  {
    forall j, k, y :: 0 <= j < k < |list| && Covers(list[j], naming, y) ==> !Covers(list[k], naming, y)
  }

  /** In a grid of disjoint bands, any two amounts of the same band get the same rate. */
  lemma SameBandSameRate(x1: real, x2: real, p: Product, i: nat)
    requires ActiveList(p).Some? && Disjoint(ActiveList(p).value.0, ActiveList(p).value.1)
    requires i < |ActiveList(p).value.0|
    requires Covers(ActiveList(p).value.0[i], ActiveList(p).value.1, x1)
    requires Covers(ActiveList(p).value.0[i], ActiveList(p).value.1, x2)
    ensures RateForInvestment(x1, p) == RateForInvestment(x2, p)
  {
    var (list, naming) := ActiveList(p).value;
    assert FirstCovering(list, naming, x1) == Some(i);
    assert FirstCovering(list, naming, x2) == Some(i);
  }

  /** A product whose data carries only `rateGrid`. */
  function GridProduct(grid: seq<Band>): Product
  {
    Product(None, OtherType, "", 0, 0.0, None, Some(NoData.(rateGrid := Some(grid))))
  }

  /** A three-band grid whose top band has no `maxAmount` and so no upper bound. */
  function ExampleGrid(): seq<Band>
  {
    [AmountBand(0.0, 9999.0, 0.035), AmountBand(10000.0, 49999.0, 0.04), AmountBand(50000.0, 0.0, 0.042).(maxAmount := None)]
  }

  /** Both ends of a band are included, and the top band reaches any amount above its minimum. */
  lemma ExampleGridRates()
    ensures RateForInvestment(9999.0, GridProduct(ExampleGrid())) == 0.035
    ensures RateForInvestment(10000.0, GridProduct(ExampleGrid())) == 0.04
  {
  }

  lemma ExampleGridTopBand()
    ensures RateForInvestment(1000000.0, GridProduct(ExampleGrid())) == 0.042
  {
  }

  /** Amounts outside every band (below the first, or in the gap after 9999) get the first band's rate. */
  lemma ExampleGridFallbacks()
    ensures RateForInvestment(-5.0, GridProduct(ExampleGrid())) == 0.035
    ensures RateForInvestment(9999.5, GridProduct(ExampleGrid())) == 0.035
  {
  }

  /** Products without data, or without a non-empty list, get the 4% default. */
  lemma DefaultRateCases(x: real, p: Product)
    ensures RateForInvestment(x, p.(data := None)) == 0.04
    ensures RateForInvestment(x, p.(data := Some(NoData.(rateGrid := Some([]), bands := Some([]))))) == 0.04
  {
  }

  /** Catalog fixtures: annuity-1 above its top band falls back to its first band; money-market-2 resolves through `bands`. */
  lemma CatalogRates()
    ensures RateForInvestment(75000.0, CatalogAnnuities()[0]) == 0.035
  {
  }

  lemma CatalogRateAboveTopBand()
    ensures RateForInvestment(2000000.0, CatalogAnnuities()[0]) == 0.03
  {
  }

  lemma LegacyCatalogRate()
    ensures RateForInvestment(30000.0, EnhancedMoneyMarket()) == 0.045
  {
  }
}
