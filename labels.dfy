/**
 * The short texts the results screen derives from a product (src/components/Results.tsx):
 * the term badge, the term circle and the legend label of the comparison chart.
 */
module Labels {
  import opened Wrappers
  import opened Text
  import opened Catalog
  import opened GrowthSeries
  import opened Projection
  import opened ComparisonSeries

  /** `getTermBadge(type, termType)`. */
  function TermBadge(kind: ProductType, termType: string): (r: string)
    ensures r == "" <==> kind == OtherType
    ensures kind == MoneyMarket ==> r == "Short" || r == "Intermediate" || r == "Long"
  {
    match kind
    case CD => "CD"
    case MoneyMarket => if termType == "short" then "Short" else if termType == "intermediate" then "Intermediate" else "Long"
    case Annuity => "Annuity"
    case LifeInsurance => "Life"
    case OtherType => ""
  }

  /** The horizon a badge names, in years. */
  function BadgeYears(badge: string): nat
  {
    if badge == "Short" then 1 else if badge == "Intermediate" then 3 else 5
  }

  /** A money-market card's badge names the horizon its projection is computed over. */
  lemma BadgeMatchesCardYears(termType: string)
    ensures BadgeYears(TermBadge(MoneyMarket, termType)) == CardYears(termType)
  {
  }

  /** `getTermCircle(product)`; `None` is a missing product. */
  function TermCircle(p: Option<Product>): (r: string)
    ensures p.None? ==> r == ""
    ensures p.Some? && InCDBranch(p.value) ==> r == NatToString(CDMonths(p.value)) + "m"
  {
    if p.None? then ""
    else if p.value.kind == CD || p.value.termMonths != 0 then
      NatToString(if p.value.termMonths != 0 then p.value.termMonths else 12) + "m"
    else if p.value.kind == Annuity then
      NatToString(if p.value.data.Some? then p.value.data.value.termYears.GetOr(0) else 0) + "y"
    else if p.value.kind == MoneyMarket then
      (if p.value.termType == "short" then "1y"
       else if p.value.termType == "intermediate" then "3y"
       else if p.value.termType == "long" then "5y"
       else "")
    else if p.value.kind == LifeInsurance then "Life"
    else ""
  }

  /** The ad-hoc `{ termMonths }` object a CD card without a catalog product passes to `getTermCircle`. */
  function TermMonthsOnly(termMonths: nat): Product
  {
    Product(None, OtherType, "", termMonths, 0.0, None, None)
  }

  /** A CD circle shows the month count of the product's comparison line. */
  lemma CDCircleCountsChartMonths(p: Product, investment: real, who: Profile)
    requires InCDBranch(p)
    ensures TermCircle(Some(p)) == NatToString(|ComparisonSeriesOf(p, investment, who)| - 1) + "m"
  {
    CDChartShape(p, investment, who);
  }

  /** The three CD cards show 12m, 36m and 60m. */
  lemma CDCardCircles()
    ensures TermCircle(Some(TermMonthsOnly(12))) == "12m"
    ensures TermCircle(Some(TermMonthsOnly(36))) == "36m"
    ensures TermCircle(Some(TermMonthsOnly(60))) == "60m"
  {
  }

  /** A money-market circle on a tab's card shows the years of the card's projection and of its comparison line. */
  lemma MoneyMarketCircleCountsYears(p: Product, investment: real, who: Profile)
    requires p.kind == MoneyMarket && p.termMonths == 0
    requires p.termType == "short" || p.termType == "intermediate" || p.termType == "long"
    ensures TermCircle(Some(p)) == NatToString(CardYears(p.termType)) + "y"
    ensures TermCircle(Some(p)) == NatToString((|ComparisonSeriesOf(p, investment, who)| - 1) / 12) + "y"
  {
    MoneyMarketChartEndsAtCard(p, investment, who);
  }

  /** An annuity circle shows the year count of the product's comparison line. */
  lemma AnnuityCircleCountsChartYears(p: Product, investment: real, who: Profile)
    requires p.kind == Annuity && p.termMonths == 0 && AnnuityReady(p)
    requires p.data.value.termYears.value != 0
    ensures ChartReady(p)
    ensures TermCircle(Some(p)) == NatToString(|ComparisonSeriesOf(p, investment, who)| - 1) + "y"
  {
    AnnuityChartOmitsBonus(p, investment, who);
  }

  /** `getProductLabel(product)`: the legend label of a comparison line. */
  function ProductLabel(p: Product): (r: string)
    ensures r != ""
    ensures p.data.Some? && Present(p.data.value.productName) ==> r == p.data.value.productName.value
  {
    var name := if p.data.Some? then p.data.value.productName else None;
    if Present(name) then name.value
    else if p.kind == CD then NatToString(p.termMonths) + "mo CD"
    else if p.kind == LifeInsurance then "Life Insurance"
    else if p.kind == Annuity then StrOr(name, "Annuity")
    else if p.kind == MoneyMarket then StrOr(name, "Money Market")
    else "Product"
  }

  /**
   * The per-family fallbacks: the annuity and money-market branches test `productName` again,
   * but only after the first test failed, so they always give the fixed text.
   */
  lemma ProductLabelFallbacks(p: Product)
    requires !(p.data.Some? && Present(p.data.value.productName))
    ensures p.kind == CD ==> ProductLabel(p) == NatToString(p.termMonths) + "mo CD"
    ensures p.kind == LifeInsurance ==> ProductLabel(p) == "Life Insurance"
    ensures p.kind == Annuity ==> ProductLabel(p) == "Annuity"
    ensures p.kind == MoneyMarket ==> ProductLabel(p) == "Money Market"
    ensures p.kind == OtherType ==> ProductLabel(p) == "Product"
  {
  }

  /** Two unnamed CDs of different terms get different labels. */
  lemma UnnamedCDLabelsDiffer(p: Product, q: Product)
    requires p.kind == CD && q.kind == CD && p.termMonths != q.termMonths
    requires !(p.data.Some? && Present(p.data.value.productName))
    requires !(q.data.Some? && Present(q.data.value.productName))
    ensures ProductLabel(p) != ProductLabel(q)
  {
    var a := NatToString(p.termMonths);
    var b := NatToString(q.termMonths);
    if a + "mo CD" == b + "mo CD" {
      assert |a| == |b|;
      assert a == (a + "mo CD")[..|a|];
      assert b == (b + "mo CD")[..|b|];
      NatToStringInjective(p.termMonths, q.termMonths);
    }
  }
}
