/**
 * `getComparisonGrowthData` (src/components/Results.tsx): which growth series the comparison
 * chart draws for a selected product, and how its end point relates to the value on the
 * product's card.
 */
module ComparisonSeries {
  import opened Wrappers
  import opened Powers
  import opened Catalog
  import opened RateResolution
  import opened Projection
  import opened GrowthSeries

  /** The CD branch is taken for a CD, and for any product that carries a truthy `termMonths`. */
  predicate InCDBranch(p: Product)
  {
    p.kind == CD || p.termMonths != 0
  }

  /** `product.termMonths || 12`. */
  function CDMonths(p: Product): nat
  {
    if p.termMonths != 0 then p.termMonths else 12
  }

  /** `product.rate || 0.04`. */
  function CDRate(p: Product): real
  {
    if p.rate != 0.0 then p.rate else DefaultRate
  }

  /** The chart's money-market horizon: 1 year, 3 for `'intermediate'`, 5 for `'long'`. */
  function ChartYears(termType: string): nat
  {
    if termType == "long" then 5 else if termType == "intermediate" then 3 else 1
  }

  /** The card's money-market horizon (the `years` of `renderMoneyMarketCards`): 1 for `'short'`, 3 for `'intermediate'`, else 5. */
  function CardYears(termType: string): nat
  {
    if termType == "short" then 1 else if termType == "intermediate" then 3 else 5
  }

  /** The annuity branch reads `product.data.termYears` without a guard, so the product must carry `data`. */
  predicate ChartReady(p: Product)
  {
    !InCDBranch(p) && p.kind == Annuity ==> p.data.Some?
  }

  /**
   * The series `getComparisonGrowthData` returns. It is empty exactly for a product of no known
   * family and for an annuity without a truthy `termYears`; otherwise it starts at the investment.
   */
  function ComparisonSeriesOf(p: Product, investment: real, who: Profile): (r: seq<Point>)
    requires ChartReady(p)
    ensures r == [] <==> !InCDBranch(p) && (p.kind == OtherType || (p.kind == Annuity && p.data.value.termYears.GetOr(0) == 0))
    ensures r != [] ==> r[0].value == investment
  {
    if InCDBranch(p) then Series(investment, CDRate(p), CDMonths(p), 0, Month)
    else if p.kind == MoneyMarket then Series(investment, RateForInvestment(investment, p), ChartYears(p.termType) * 12, 0, Month)
    else if p.kind == Annuity then Series(investment, RateForInvestment(investment, p), 0, p.data.value.termYears.GetOr(0), Year)
    else if p.kind == LifeInsurance then Series(investment, LifeRate(who.age, who.gender, who.tobaccoUse), 0, 30, Year)
    else []
  }

  /** `getComparisonGrowthData`, with its own step-by-step copy of the life-insurance rate rule. */
  method ComparisonGrowthData(p: Product, investment: real, who: Profile) returns (data: seq<Point>)
    requires ChartReady(p)
    ensures data == ComparisonSeriesOf(p, investment, who)
  {
    if p.kind == CD || p.termMonths != 0 {
      var months := if p.termMonths != 0 then p.termMonths else 12;
      var rate := if p.rate != 0.0 then p.rate else 0.04;
      data := GrowthData(investment, rate, months, 0, Month);
    } else if p.kind == MoneyMarket {
      var years := 1;
      if p.termType == "intermediate" {
        years := 3;
      }
      if p.termType == "long" {
        years := 5;
      }
      var rate := RateForInvestment(investment, p);
      data := GrowthData(investment, rate, years * 12, 0, Month);
    } else if p.kind == Annuity {
      var rate := RateForInvestment(investment, p);
      data := GrowthData(investment, rate, 0, p.data.value.termYears.GetOr(0), Year);
    } else if p.kind == LifeInsurance {
      var baseRate := 0.04;
      if who.age < 30 {
        baseRate := baseRate + 0.01;
      } else if who.age > 60 {
        baseRate := baseRate - 0.01;
      }
      if who.gender == "female" {
        baseRate := baseRate + 0.005;
      }
      if who.tobaccoUse == "yes" {
        baseRate := baseRate - 0.01;
      }
      data := GrowthData(investment, baseRate, 0, 30, Year);
    } else {
      data := [];
    }
  }

  /** The CD line has one point per month of the term (12 by default) and ends at the monthly-compounded value. */
  lemma CDChartShape(p: Product, investment: real, who: Profile)
    requires InCDBranch(p)
    ensures var s := ComparisonSeriesOf(p, investment, who);
      && |s| == CDMonths(p) + 1
      && s[|s| - 1].value == investment * Pow(1.0 + CDRate(p) / 12.0, CDMonths(p))
  {
    MonthSeriesShape(investment, CDRate(p), CDMonths(p));
  }

  /** Monthly compounding at a twelfth of the rate never ends below yearly compounding, year for year. */
  lemma MonthlyBeatsYearly(investment: real, r: real, k: nat)
    requires investment >= 0.0 && r >= 0.0
    ensures investment * Pow(1.0 + r, k) <= investment * Pow(1.0 + r / 12.0, 12 * k)
  {
    var yearly := Pow(1.0 + r / 12.0, 12);
    PowBernoulli(r / 12.0, 12);
    assert (12 as real) * (r / 12.0) == r;
    PowMonotoneBase(1.0 + r, yearly, k);
    PowMul(1.0 + r / 12.0, 12, k);
    ScaleMonotone(investment, Pow(1.0 + r, k), Pow(1.0 + r / 12.0, 12 * k));
  }

  /**
   * The CD card compounds yearly and the CD line monthly: over whole years, at a non-negative
   * rate, the line never ends below the card's projection.
   */
  lemma CDChartEndsAtLeastAtCard(p: Product, investment: real, who: Profile)
    requires InCDBranch(p) && CDMonths(p) % 12 == 0
    requires investment >= 0.0 && CDRate(p) >= 0.0
    ensures var s := ComparisonSeriesOf(p, investment, who);
      s[|s| - 1].value >= CDReturn(investment, CDMonths(p), CDRate(p))
  {
    var k := CDMonths(p) / 12;
    var s := ComparisonSeriesOf(p, investment, who);
    CDChartShape(p, investment, who);
    assert CDMonths(p) == 12 * k;
    MonthlyBeatsYearly(investment, CDRate(p), k);
    assert CDReturn(investment, CDMonths(p), CDRate(p)) == investment * Pow(1.0 + CDRate(p), k);
    assert s[|s| - 1].value == investment * Pow(1.0 + CDRate(p) / 12.0, 12 * k);
  }

  /** For the three horizons the money-market tabs show, the line ends exactly at the card's projection. */
  lemma MoneyMarketChartEndsAtCard(p: Product, investment: real, who: Profile)
    requires p.kind == MoneyMarket && p.termMonths == 0
    requires p.termType == "short" || p.termType == "intermediate" || p.termType == "long"
    ensures var s := ComparisonSeriesOf(p, investment, who);
      && |s| == 12 * CardYears(p.termType) + 1
      && s[|s| - 1].value == MoneyMarketReturn(investment, p, CardYears(p.termType))
  {
    assert ChartYears(p.termType) == CardYears(p.termType);
    MonthSeriesShape(investment, RateForInvestment(investment, p), ChartYears(p.termType) * 12);
  }

  /** The annuity line compounds the resolved rate over the term but leaves out the bonus the card adds. */
  lemma AnnuityChartOmitsBonus(p: Product, investment: real, who: Profile)
    requires p.kind == Annuity && p.termMonths == 0 && AnnuityReady(p)
    requires p.data.value.termYears.value != 0
    ensures ChartReady(p)
    ensures var s := ComparisonSeriesOf(p, investment, who);
      && |s| == p.data.value.termYears.value + 1
      && s[|s| - 1].value == AnnuityCardValue(investment, p) - investment * p.data.value.bonusRate.value
  {
    YearSeriesShape(investment, RateForInvestment(investment, p), p.data.value.termYears.value);
  }

  /** The life-insurance line has 31 yearly points and ends at the card's 30-year projection: the two copies of the rate rule agree. */
  lemma LifeChartEndsAtCard(p: Product, investment: real, who: Profile)
    requires p.kind == LifeInsurance && p.termMonths == 0
    ensures var s := ComparisonSeriesOf(p, investment, who);
      && |s| == 31
      && s[|s| - 1].value == LifeInsuranceValue(investment, who.age, who.gender, who.tobaccoUse)
  {
    YearSeriesShape(investment, LifeRate(who.age, who.gender, who.tobaccoUse), 30);
  }
}
