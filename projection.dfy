/**
 * The per-product return projections of the results screen (src/components/Results.tsx):
 * compound growth of an investment over the product's term, and the total shown under
 * the cards.
 */
module Projection {
  import opened Wrappers
  import opened Powers
  import opened Catalog
  import opened RateResolution
  import opened Seqs

  /**
   * `calculateCDReturn`: annual compounding over `termMonths / 12` years. The source's
   * exponent is fractional for a term that is not a whole number of years; every caller
   * passes 12, 36 or 60 months, and this model covers whole years only.
   */
  function CDReturn(investment: real, termMonths: nat, rate: real): (r: real)
    requires termMonths % 12 == 0
    ensures termMonths == 0 ==> r == investment
    ensures investment >= 0.0 && rate >= 0.0 ==> r >= investment
  {
    GrowthKeepsPrincipal(investment, 1.0 + rate, termMonths / 12);
    investment * Pow(1.0 + rate, termMonths / 12)
  }

  /** Nothing invested returns nothing, whatever the term and the rate. */
  lemma CDReturnEdges(termMonths: nat, rate: real)
    requires termMonths % 12 == 0
    ensures CDReturn(0.0, termMonths, rate) == 0.0
  {
  }

  /** A term of `12 * years` months compounds over `years` whole years. */
  lemma CDReturnYears(investment: real, years: nat, rate: real)
    ensures CDReturn(investment, 12 * years, rate) == investment * Pow(1.0 + rate, years)
  {
    assert (12 * years) / 12 == years;
  }

  /** Rolling a CD over: `a` years and then `b` more years give the same as `a + b` years at once. */
  lemma CDReturnRollsOver(investment: real, a: nat, b: nat, rate: real)
    ensures CDReturn(CDReturn(investment, 12 * a, rate), 12 * b, rate) == CDReturn(investment, 12 * (a + b), rate)
  {
    CDReturnYears(investment, a, rate);
    CDReturnYears(investment * Pow(1.0 + rate, a), b, rate);
    CDReturnYears(investment, a + b, rate);
    ScaledPowAdd(investment, 1.0 + rate, a, b);
  }

  /** At a non-negative rate a CD never returns less than it was given, and a longer term never returns less. */
  lemma CDReturnGrows(investment: real, m: nat, n: nat, rate: real)
    requires investment >= 0.0 && rate >= 0.0
    requires m % 12 == 0 && n % 12 == 0 && m <= n
    ensures investment <= CDReturn(investment, m, rate) <= CDReturn(investment, n, rate)
  {
    var a, b := m / 12, n / 12;
    assert m == 12 * a && n == 12 * b && a <= b;
    CDReturnYears(investment, a, rate);
    CDReturnYears(investment, b, rate);
    PowMonotoneExponent(1.0 + rate, a, b);
    ScaleMonotone(investment, Pow(1.0 + rate, a), Pow(1.0 + rate, b));
  }

  /** `calculateAnnuityReturn`: the principal compounds over the term, the bonus is a flat add-on. */
  function AnnuityReturn(investment: real, termYears: nat, initialRate: real, bonusRate: real): (r: real)
    ensures investment >= 0.0 && initialRate >= 0.0 && bonusRate >= 0.0 ==> r >= investment
  {
    GrowthKeepsPrincipal(investment, 1.0 + initialRate, termYears);
    assert investment >= 0.0 && bonusRate >= 0.0 ==> investment * bonusRate >= 0.0;
    investment * Pow(1.0 + initialRate, termYears) + investment * bonusRate
  }

  /** With no term the annuity returns the investment and its bonus; nothing invested returns nothing. */
  lemma AnnuityReturnEdges(investment: real, termYears: nat, initialRate: real, bonusRate: real)
    ensures AnnuityReturn(investment, 0, initialRate, bonusRate) == investment * (1.0 + bonusRate)
    ensures AnnuityReturn(0.0, termYears, initialRate, bonusRate) == 0.0
  {
  }

  /** The bonus is never compounded: whatever the term, it adds exactly `investment * bonusRate`. */
  lemma AnnuityBonusNotCompounded(investment: real, termYears: nat, initialRate: real, bonusRate: real)
    ensures AnnuityReturn(investment, termYears, initialRate, bonusRate) - AnnuityReturn(investment, termYears, initialRate, 0.0)
            == investment * bonusRate
    ensures AnnuityReturn(investment, termYears, initialRate, bonusRate) - AnnuityReturn(investment, termYears, initialRate, 0.0)
            == AnnuityReturn(investment, 0, initialRate, bonusRate) - investment
  {
  }

  /** The age part of the life-insurance rate: +1% under 30, -1% over 60. */
  function AgeAdjustment(age: int): real
  {
    if age < 30 then 0.01 else if age > 60 then -0.01 else 0.0
  }

  /** The gender part: +0.5% for `'female'`. */
  function GenderAdjustment(gender: string): real
  {
    if gender == "female" then 0.005 else 0.0
  }

  /** The tobacco part: -1% for `'yes'`. */
  function TobaccoAdjustment(tobaccoUse: string): real
  {
    if tobaccoUse == "yes" then -0.01 else 0.0
  }

  /** The effective life-insurance rate: 4% plus three independent adjustments. */
  function LifeRate(age: int, gender: string, tobaccoUse: string): (r: real)
    ensures 0.02 <= r <= 0.055
  {
    0.04 + AgeAdjustment(age) + GenderAdjustment(gender) + TobaccoAdjustment(tobaccoUse)
  }

  /** Each extreme of the life rate is met by exactly one kind of customer. */
  lemma LifeRateRange(age: int, gender: string, tobaccoUse: string)
    ensures LifeRate(age, gender, tobaccoUse) == 0.055 <==> age < 30 && gender == "female" && tobaccoUse != "yes"
    ensures LifeRate(age, gender, tobaccoUse) == 0.02 <==> age > 60 && gender != "female" && tobaccoUse == "yes"
  {
  }

  /** The investment compounded yearly at `rate` over the 30 years of a life-insurance projection. */
  function LifeValueAt(investment: real, rate: real): real
  {
    investment * Pow(1.0 + rate, 30)
  }

  /** The 30-year projection a life-insurance card shows. */
  function LifeInsuranceValue(investment: real, age: int, gender: string, tobaccoUse: string): (r: real)
    ensures investment >= 0.0 ==> r >= investment
  {
    var rate := LifeRate(age, gender, tobaccoUse);
    GrowthKeepsPrincipal(investment, 1.0 + rate, 30);
    LifeValueAt(investment, rate)
  }

  /** The projection lies between those at the lowest and at the highest life rate. */
  lemma LifeValueBetweenExtremes(investment: real, age: int, gender: string, tobaccoUse: string)
    requires investment >= 0.0
    ensures investment <= LifeValueAt(investment, 0.02) <= LifeInsuranceValue(investment, age, gender, tobaccoUse) <= LifeValueAt(investment, 0.055)
  {
    var rate := LifeRate(age, gender, tobaccoUse);
    LifeValueMonotoneInRate(investment, 0.02, rate);
    LifeValueMonotoneInRate(investment, rate, 0.055);
    GrowthKeepsPrincipal(investment, 1.02, 30);
  }

  /** `calculateLifeInsuranceReturn`: adjusts a local base rate step by step, then compounds it over 30 years. */
  method LifeInsuranceReturn(investment: real, age: int, gender: string, tobaccoUse: string) returns (value: real)
    ensures value == LifeInsuranceValue(investment, age, gender, tobaccoUse)
  {
    var baseRate := 0.04;
    if age < 30 {
      baseRate := baseRate + 0.01;
    } else if age > 60 {
      baseRate := baseRate - 0.01;
    }
    if gender == "female" {
      baseRate := baseRate + 0.005;
    }
    if tobaccoUse == "yes" {
      baseRate := baseRate - 0.01;
    }
    value := investment * Pow(1.0 + baseRate, 30);
  }

  /** Compounding a non-negative amount at a higher rate never gives less. */
  lemma LifeValueMonotoneInRate(investment: real, r1: real, r2: real)
    requires investment >= 0.0 && -1.0 <= r1 <= r2
    ensures LifeValueAt(investment, r1) <= LifeValueAt(investment, r2)
  {
    PowMonotoneBase(1.0 + r1, 1.0 + r2, 30);
    ScaleMonotone(investment, Pow(1.0 + r1, 30), Pow(1.0 + r2, 30));
  }

  /** A better-rated customer never gets a smaller life-insurance projection. */
  lemma LifeValueOrderedByRate(investment: real, age1: int, gender1: string, tobacco1: string, age2: int, gender2: string, tobacco2: string)
    requires investment >= 0.0
    requires LifeRate(age1, gender1, tobacco1) <= LifeRate(age2, gender2, tobacco2)
    ensures LifeInsuranceValue(investment, age1, gender1, tobacco1) <= LifeInsuranceValue(investment, age2, gender2, tobacco2)
  {
    LifeRateRange(age1, gender1, tobacco1);
    LifeValueMonotoneInRate(investment, LifeRate(age1, gender1, tobacco1), LifeRate(age2, gender2, tobacco2));
  }

  /** `calculateMoneyMarketReturn`: the resolved rate, compounded monthly over `years * 12` months. */
  function MoneyMarketReturn(investment: real, p: Product, years: nat): (r: real)
    ensures investment >= 0.0 && RateForInvestment(investment, p) >= 0.0 ==> r >= investment
  {
    var rate := RateForInvestment(investment, p);
    GrowthKeepsPrincipal(investment, 1.0 + rate / 12.0, years * 12);
    investment * Pow(1.0 + rate / 12.0, years * 12)
  }

  /** No years return the investment, and nothing invested returns nothing. */
  lemma MoneyMarketReturnEdges(investment: real, p: Product, years: nat)
    ensures MoneyMarketReturn(investment, p, 0) == investment
    ensures MoneyMarketReturn(0.0, p, years) == 0.0
  {
  }

  /** An annuity product whose `data.termYears` and `data.bonusRate` can be read. */
  predicate AnnuityReady(p: Product)
  {
    p.data.Some? && p.data.value.termYears.Some? && p.data.value.bonusRate.Some?
  }

  /** The annuity card's projection for a product of the catalog. */
  function AnnuityCardValue(investment: real, p: Product): (r: real)
    requires AnnuityReady(p)
    ensures investment >= 0.0 && WellRated(p) ==> r >= investment
  {
    var rate := RateForInvestment(investment, p);
    assert WellRated(p) ==> rate >= 0.0;
    AnnuityReturn(investment, p.data.value.termYears.value, rate, p.data.value.bonusRate.value)
  }

  /**
   * The `reduce` over the annuities: every annuity applied to the same investment, summed.
   * With well-rated annuities each one gives back at least the investment, so the sum counts
   * it once per annuity.
   */
  function AnnuitySum(annuities: seq<Product>, investment: real): (r: real)
    requires forall p :: p in annuities ==> AnnuityReady(p)
    ensures investment >= 0.0 && (forall p :: p in annuities ==> WellRated(p)) ==> r >= |annuities| as real * investment
  {
    if annuities == [] then 0.0
    else AnnuitySum(annuities[..|annuities| - 1], investment) + AnnuityCardValue(investment, annuities[|annuities| - 1])
  }

  /** `products.filter(p => p.type === 'annuity')`. */
  function AnnuitiesOf(catalog: seq<Product>): (r: seq<Product>)
    ensures forall p :: p in r <==> p in catalog && p.kind == Annuity
    ensures forall p :: multiset(r)[p] == if p.kind == Annuity then multiset(catalog)[p] else 0
  {
    if catalog == [] then []
    else
      var head := if catalog[0].kind == Annuity then [catalog[0]] else [];
      var rest := AnnuitiesOf(catalog[1..]);
      assert multiset(catalog) == multiset([catalog[0]]) + multiset(catalog[1..]) by {
        SplitFirst(catalog);
      }
      assert multiset(head + rest) == multiset(head) + multiset(rest);
      head + rest
  }

  /** `filter` keeps order: the annuities of two lists joined are those of each, in turn. */
  lemma {:induction false} AnnuitiesOfAppend(a: seq<Product>, b: seq<Product>)
    ensures AnnuitiesOf(a + b) == AnnuitiesOf(a) + AnnuitiesOf(b)
  {
    if a == [] {
      assert a + b == b;
    } else {
      var head := if a[0].kind == Annuity then [a[0]] else [];
      assert (a + b)[0] == a[0] && (a + b)[1..] == a[1..] + b;
      assert AnnuitiesOf(a + b) == head + AnnuitiesOf(a[1..] + b);
      AnnuitiesOfAppend(a[1..], b);
      ConcatAssoc(head, AnnuitiesOf(a[1..]), AnnuitiesOf(b));
    }
  }

  /** The four horizon buckets of the form. */
  datatype Allocation = Allocation(shortTerm: real, intermediate: real, longTerm: real, never: real)

  /** The customer attributes the life-insurance rate reads. */
  datatype Profile = Profile(age: int, gender: string, tobaccoUse: string)

  predicate CatalogReady(catalog: seq<Product>)
  {
    forall p :: p in catalog && p.kind == Annuity ==> AnnuityReady(p)
  }

  /** No bucket holds a negative amount. */
  predicate Funded(a: Allocation)
  {
    a.shortTerm >= 0.0 && a.intermediate >= 0.0 && a.longTerm >= 0.0 && a.never >= 0.0
  }

  /** Every annuity of the catalog is well rated. */
  ghost predicate AnnuitiesWellRated(catalog: seq<Product>)
  {
    forall p :: p in catalog && p.kind == Annuity ==> WellRated(p)
  }

  /** The annuities' part of the total counts the long-term amount once per annuity of the catalog. */
  lemma AnnuityPartCountsLongTerm(catalog: seq<Product>, longTerm: real)
    requires CatalogReady(catalog)
    ensures longTerm >= 0.0 && AnnuitiesWellRated(catalog) ==>
      AnnuitySum(AnnuitiesOf(catalog), longTerm) >= |AnnuitiesOf(catalog)| as real * longTerm
  {
    var annuities := AnnuitiesOf(catalog);
    if longTerm >= 0.0 && AnnuitiesWellRated(catalog) {
      assert forall p :: p in annuities ==> WellRated(p);
    }
  }

  /** `totalReturn`: the 12-month and 36-month CDs, every annuity on the long-term amount, and life insurance. */
  function TotalReturn(a: Allocation, who: Profile, catalog: seq<Product>): (r: real)
    requires CatalogReady(catalog)
    ensures Funded(a) && AnnuitiesWellRated(catalog) ==>
      r >= a.shortTerm + a.intermediate + |AnnuitiesOf(catalog)| as real * a.longTerm + a.never
  {
    PartsBoundTotal(a, who, catalog);
    CDReturn(a.shortTerm, 12, 0.04) + CDReturn(a.intermediate, 36, 0.045)
    + AnnuitySum(AnnuitiesOf(catalog), a.longTerm) + LifeInsuranceValue(a.never, who.age, who.gender, who.tobaccoUse)
  }

  /** Each part of the total is at least what was put into it, so the parts add up to at least the amounts. */
  lemma PartsBoundTotal(a: Allocation, who: Profile, catalog: seq<Product>)
    requires CatalogReady(catalog)
    ensures Funded(a) && AnnuitiesWellRated(catalog) ==>
      CDReturn(a.shortTerm, 12, 0.04) + CDReturn(a.intermediate, 36, 0.045)
      + AnnuitySum(AnnuitiesOf(catalog), a.longTerm) + LifeInsuranceValue(a.never, who.age, who.gender, who.tobaccoUse)
      >= a.shortTerm + a.intermediate + |AnnuitiesOf(catalog)| as real * a.longTerm + a.never
  {
    if Funded(a) && AnnuitiesWellRated(catalog) {
      FundedPartsBoundTotal(a, who, catalog);
    }
  }

  lemma FundedPartsBoundTotal(a: Allocation, who: Profile, catalog: seq<Product>)
    requires CatalogReady(catalog) && Funded(a) && AnnuitiesWellRated(catalog)
    ensures CDReturn(a.shortTerm, 12, 0.04) + CDReturn(a.intermediate, 36, 0.045)
      + AnnuitySum(AnnuitiesOf(catalog), a.longTerm) + LifeInsuranceValue(a.never, who.age, who.gender, who.tobaccoUse)
      >= a.shortTerm + a.intermediate + |AnnuitiesOf(catalog)| as real * a.longTerm + a.never
  {
    AnnuityPartCountsLongTerm(catalog, a.longTerm);
  }

  /**
   * `totalGrowth`: the total return less the four amounts. The long-term amount is put in once
   * but returned by every annuity, so with it added back the growth still counts it once per annuity.
   */
  function TotalGrowth(a: Allocation, who: Profile, catalog: seq<Product>): (r: real)
    requires CatalogReady(catalog)
    ensures Funded(a) && AnnuitiesWellRated(catalog) ==> r + a.longTerm >= |AnnuitiesOf(catalog)| as real * a.longTerm
  {
    PartsBoundTotal(a, who, catalog);
    TotalReturn(a, who, catalog) - (a.shortTerm + a.intermediate + a.longTerm + a.never)
  }

  lemma {:induction false} AnnuitySumOfNothing(annuities: seq<Product>)
    requires forall p :: p in annuities ==> AnnuityReady(p)
    ensures AnnuitySum(annuities, 0.0) == 0.0
  {
    if annuities != [] {
      AnnuitySumOfNothing(annuities[..|annuities| - 1]);
    }
  }

  /** Nothing invested, nothing returned. */
  lemma TotalReturnOfNothing(who: Profile, catalog: seq<Product>)
    requires CatalogReady(catalog)
    ensures TotalReturn(Allocation(0.0, 0.0, 0.0, 0.0), who, catalog) == 0.0
  {
    AnnuitySumOfNothing(AnnuitiesOf(catalog));
  }

  /** Every band rate the product could resolve to is non-negative. */
  ghost predicate NonNegativeRates(p: Product)
  {
    ActiveList(p).Some? ==> forall i :: 0 <= i < |ActiveList(p).value.0| && Truthy(ActiveList(p).value.0[i].rate) ==> ActiveList(p).value.0[i].rate.value.v >= 0.0
  }

  /** An annuity whose bonus and band rates are non-negative. */
  ghost predicate WellRated(p: Product)
  {
    AnnuityReady(p) && p.data.value.bonusRate.value >= 0.0 && NonNegativeRates(p)
  }

  /** Filtering a list of annuities keeps it whole. */
  lemma {:induction false} AnnuitiesOfAnnuities(catalog: seq<Product>)
    requires forall i :: 0 <= i < |catalog| ==> catalog[i].kind == Annuity
    ensures AnnuitiesOf(catalog) == catalog
  {
    if catalog != [] {
      AnnuitiesOfAnnuities(catalog[1..]);
    }
  }

  /** A catalog annuity record with a non-negative bonus and non-negative grid rates meets the counting lemma's hypotheses. */
  lemma AnnuityRecordNonNegative(id: string, carrier: string, name: string, years: nat, bonus: real, grid: seq<Band>)
    requires bonus >= 0.0
    requires forall i :: 0 <= i < |grid| && Truthy(grid[i].rate) ==> grid[i].rate.value.v >= 0.0
    ensures AnnuityReady(AnnuityRecord(id, carrier, name, years, bonus, grid))
    ensures WellRated(AnnuityRecord(id, carrier, name, years, bonus, grid))
  {
  }

  /** With only a long-term amount, the total is the annuities' part alone. */
  lemma TotalReturnOfLongTermOnly(longTerm: real, who: Profile, catalog: seq<Product>)
    requires CatalogReady(catalog)
    ensures TotalReturn(Allocation(0.0, 0.0, longTerm, 0.0), who, catalog) == AnnuitySum(AnnuitiesOf(catalog), longTerm)
  {
    assert CDReturn(0.0, 12, 0.04) == 0.0 && CDReturn(0.0, 36, 0.045) == 0.0;
    assert LifeInsuranceValue(0.0, who.age, who.gender, who.tobaccoUse) == 0.0;
  }

  /** A catalog made of well-rated annuities, money put only in the long-term bucket: the growth shown counts it once per annuity, less the one amount invested. */
  lemma TotalGrowthCountsLongTermPerAnnuity(longTerm: real, who: Profile, catalog: seq<Product>)
    requires longTerm >= 0.0
    requires forall i :: 0 <= i < |catalog| ==> catalog[i].kind == Annuity && AnnuityReady(catalog[i]) && WellRated(catalog[i])
    ensures CatalogReady(catalog)
    ensures TotalGrowth(Allocation(0.0, 0.0, longTerm, 0.0), who, catalog) >= (|catalog| as real - 1.0) * longTerm
  {
    AnnuitiesOfAnnuities(catalog);
    TotalReturnOfLongTermOnly(longTerm, who, catalog);
  }

  /** The shipped catalog's annuities are four well-rated annuities. */
  lemma CatalogAnnuitiesWellRated()
    ensures |CatalogAnnuities()| == 4
    ensures forall i :: 0 <= i < |CatalogAnnuities()| ==>
              CatalogAnnuities()[i].kind == Annuity && AnnuityReady(CatalogAnnuities()[i]) && WellRated(CatalogAnnuities()[i])
  {
    AnnuityRecordNonNegative("annuity-1", "SecureLife", "Golden Nest Egg", 10, 0.01,
      [AmountBand(0.0, 49999.0, 0.03), AmountBand(50000.0, 99999.0, 0.035), AmountBand(100000.0, 1000000.0, 0.04)]);
    AnnuityRecordNonNegative("annuity-2", "FutureGuard", "Silver Lining Plus", 15, 0.015,
      [AmountBand(0.0, 99999.0, 0.035), AmountBand(100000.0, 249999.0, 0.04), AmountBand(250000.0, 1000000.0, 0.045)]);
    AnnuityRecordNonNegative("annuity-3", "WealthShield", "Platinum Legacy", 20, 0.02,
      [AmountBand(0.0, 249999.0, 0.038), AmountBand(250000.0, 499999.0, 0.042), AmountBand(500000.0, 1000000.0, 0.046)]);
    AnnuityRecordNonNegative("annuity-4", "RetirementPlus", "Diamond Horizon", 25, 0.025,
      [AmountBand(0.0, 499999.0, 0.04), AmountBand(500000.0, 999999.0, 0.045), AmountBand(1000000.0, 2000000.0, 0.05)]);
  }

  /** With the shipped four annuities, money put only in the long-term bucket shows a growth of at least three times itself. */
  lemma CatalogTotalGrowthCountsLongTermFourTimes(longTerm: real, who: Profile)
    requires longTerm >= 0.0
    ensures CatalogReady(CatalogAnnuities())
    ensures TotalGrowth(Allocation(0.0, 0.0, longTerm, 0.0), who, CatalogAnnuities()) >= 3.0 * longTerm
  {
    var catalog := CatalogAnnuities();
    CatalogAnnuitiesWellRated();
    TotalGrowthCountsLongTermPerAnnuity(longTerm, who, catalog);
    assert (|catalog| as real - 1.0) * longTerm == 3.0 * longTerm;
  }
}
