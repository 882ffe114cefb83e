/**
 * The alternative calculator of src/utils/calculations.ts: one rate adjusted for the
 * customer, and a product list with one entry per non-empty horizon bucket.
 */
module Calculations {
  import opened Wrappers
  import opened Powers
  import opened Text
  import opened Catalog
  import opened Seqs

  /** The form the calculator reads. */
  datatype FormData = FormData(
    age: int, gender: string, tobaccoUse: string,
    shortTerm: real, intermediate: real, longTerm: real, never: real)

  /** A product the calculator returns; `termType` is absent on the annuity and life entries. */
  datatype CalcProduct = CalcProduct(
    id: string, kind: ProductType, name: string, termCircle: string,
    investment: real, projectedValue: real, rate: real, termType: Option<string>)

  /** The age factor: +2% under 30, +1% under 50. */
  function AgeFactor(age: int): real
  {
    if age < 30 then 0.02 else if age < 50 then 0.01 else 0.0
  }

  /** The rate every offer is derived from: 5% plus age, gender and tobacco factors, so between 3% and 8%. */
  function AdjustedRate(age: int, gender: string, tobaccoUse: string): (r: real)
    ensures 0.03 <= r <= 0.08
  {
    0.05 + AgeFactor(age) + (if gender == "female" then 0.01 else 0.0) + (if tobaccoUse == "yes" then -0.02 else 0.0)
  }

  /** Each extreme of the adjusted rate is met by exactly one kind of customer. */
  lemma AdjustedRateRange(age: int, gender: string, tobaccoUse: string)
    ensures AdjustedRate(age, gender, tobaccoUse) == 0.08 <==> age < 30 && gender == "female" && tobaccoUse != "yes"
    ensures AdjustedRate(age, gender, tobaccoUse) == 0.03 <==> age >= 50 && gender != "female" && tobaccoUse == "yes"
  {
  }

  /** The ids of the six offers, in the order they are pushed. */
  const OfferIds: seq<string> := ["cd-short", "cd-intermediate", "cd-long", "money-market-short", "annuity", "life-insurance"]

  /** The bucket offer `k` is funded from, and the condition under which it is pushed. */
  function Amount(f: FormData, k: nat): real
    requires k < 6
  {
    if k == 0 || k == 3 then f.shortTerm
    else if k == 1 then f.intermediate
    else if k == 2 then f.longTerm
    else f.never
  }

  /** The years offer `k` compounds over. */
  function OfferYears(k: nat): nat
    requires k < 6
  {
    if k == 0 || k == 3 then 1 else if k == 1 then 3 else if k == 2 then 5 else if k == 4 then 10 else 20
  }

  /** The multiplier offer `k` applies to the adjusted rate. */
  function RateFactor(k: nat): real
    requires k < 6
  {
    if k == 3 then 0.8 else if k == 4 then 1.2 else if k == 5 then 1.5 else 1.0
  }

  function OfferKind(k: nat): ProductType
    requires k < 6
  {
    if k < 3 then CD else if k == 3 then MoneyMarket else if k == 4 then Annuity else LifeInsurance
  }

  function OfferName(k: nat): string
    requires k < 6
  {
    ["Short-term CD", "Intermediate-term CD", "Long-term CD", "Money Market Account", "Fixed Annuity", "Whole Life Insurance"][k]
  }

  function OfferCircle(k: nat): string
    requires k < 6
  {
    ["1Y", "3Y", "5Y", "1Y", "10Y", "20Y"][k]
  }

  function OfferTermType(k: nat): Option<string>
    requires k < 6
  {
    if k == 0 || k == 3 then Some("short") else if k == 1 then Some("intermediate") else if k == 2 then Some("long") else None
  }

  /** The `rate` field of offer `k`, as the source writes it. */
  function OfferRate(r: real, k: nat): real
    requires k < 6
  {
    if k == 3 then r * 0.8 else if k == 4 then r * 1.2 else if k == 5 then r * 1.5 else r
  }

  /** The `projectedValue` field of offer `k`, with the formula the source writes for it. */
  function Projected(f: FormData, r: real, k: nat): real
    requires k < 6
  {
    if k == 0 then f.shortTerm * (1.0 + r)
    else if k == 1 then f.intermediate * Pow(1.0 + r, 3)
    else if k == 2 then f.longTerm * Pow(1.0 + r, 5)
    else if k == 3 then f.shortTerm * (1.0 + r * 0.8)
    else if k == 4 then f.never * Pow(1.0 + r * 1.2, 10)
    else f.never * Pow(1.0 + r * 1.5, 20)
  }

  /** The object literal of the `k`-th `push`. */
  function Offer(f: FormData, k: nat): CalcProduct
    requires k < 6
  {
    var r := AdjustedRate(f.age, f.gender, f.tobaccoUse);
    CalcProduct(OfferIds[k], OfferKind(k), OfferName(k), OfferCircle(k), Amount(f, k), Projected(f, r, k), OfferRate(r, k), OfferTermType(k))
  }

  /** The offer `k` contributes: itself when its bucket is positive. */
  function Optional(f: FormData, k: nat): seq<CalcProduct>
    requires k < 6
  {
    if Amount(f, k) > 0.0 then [Offer(f, k)] else []
  }

  /** The offers from the `k`-th on whose bucket is positive, in push order: at most one per remaining offer. */
  function OffersFrom(f: FormData, k: nat): (r: seq<CalcProduct>)
    requires k <= 6
    ensures |r| <= 6 - k
    decreases 6 - k
  {
    if k == 6 then []
    else Optional(f, k) + OffersFrom(f, k + 1)
  }

  /** What the first `k` conditional pushes leave in the list. */
  ghost function Pushed(f: FormData, k: nat): seq<CalcProduct>
    requires k <= 6
  {
    if k == 0 then [] else Pushed(f, k - 1) + Optional(f, k - 1)
  }

  lemma {:induction false} PushedThenRest(f: FormData, k: nat)
    requires k <= 6
    ensures Pushed(f, k) + OffersFrom(f, k) == OffersFrom(f, 0)
  {
    if k > 0 {
      PushedThenRest(f, k - 1);
      var before, here, rest := Pushed(f, k - 1), Optional(f, k - 1), OffersFrom(f, k);
      assert OffersFrom(f, k - 1) == here + rest;
      assert Pushed(f, k) == before + here;
      ConcatAssoc(before, here, rest);
    }
  }

  /** The three CD literals are the first three offers. */
  lemma CDOffersAsWritten(f: FormData, r: real)
    requires r == AdjustedRate(f.age, f.gender, f.tobaccoUse)
    ensures Offer(f, 0) == CalcProduct("cd-short", CD, "Short-term CD", "1Y", f.shortTerm, f.shortTerm * (1.0 + r), r, Some("short"))
    ensures Offer(f, 1) == CalcProduct("cd-intermediate", CD, "Intermediate-term CD", "3Y", f.intermediate, f.intermediate * Pow(1.0 + r, 3), r, Some("intermediate"))
    ensures Offer(f, 2) == CalcProduct("cd-long", CD, "Long-term CD", "5Y", f.longTerm, f.longTerm * Pow(1.0 + r, 5), r, Some("long"))
  {
  }

  /** The money-market, annuity and life literals are the last three offers. */
  lemma OtherOffersAsWritten(f: FormData, r: real)
    requires r == AdjustedRate(f.age, f.gender, f.tobaccoUse)
    ensures Offer(f, 3) == CalcProduct("money-market-short", MoneyMarket, "Money Market Account", "1Y", f.shortTerm, f.shortTerm * (1.0 + r * 0.8), r * 0.8, Some("short"))
    ensures Offer(f, 4) == CalcProduct("annuity", Annuity, "Fixed Annuity", "10Y", f.never, f.never * Pow(1.0 + r * 1.2, 10), r * 1.2, None)
    ensures Offer(f, 5) == CalcProduct("life-insurance", LifeInsurance, "Whole Life Insurance", "20Y", f.never, f.never * Pow(1.0 + r * 1.5, 20), r * 1.5, None)
  {
  }

  /** `calculateProducts`: six conditional pushes onto an initially empty list. */
  method CalculateProducts(f: FormData) returns (products: seq<CalcProduct>)
    ensures products == OffersFrom(f, 0)
  {
    var adjustedRate := AdjustedRate(f.age, f.gender, f.tobaccoUse);
    CDOffersAsWritten(f, adjustedRate);
    OtherOffersAsWritten(f, adjustedRate);
    assert Amount(f, 0) == f.shortTerm && Amount(f, 1) == f.intermediate && Amount(f, 2) == f.longTerm;
    assert Amount(f, 3) == f.shortTerm && Amount(f, 4) == f.never && Amount(f, 5) == f.never;
    products := [];
    if f.shortTerm > 0.0 {
      assert CalcProduct("cd-short", CD, "Short-term CD", "1Y", f.shortTerm, f.shortTerm * (1.0 + adjustedRate), adjustedRate, Some("short")) == Offer(f, 0);
      products := products + [CalcProduct("cd-short", CD, "Short-term CD", "1Y", f.shortTerm, f.shortTerm * (1.0 + adjustedRate), adjustedRate, Some("short"))];
    }
    assert products == Pushed(f, 1);
    if f.intermediate > 0.0 {
      assert CalcProduct("cd-intermediate", CD, "Intermediate-term CD", "3Y", f.intermediate, f.intermediate * Pow(1.0 + adjustedRate, 3), adjustedRate, Some("intermediate")) == Offer(f, 1);
      products := products + [CalcProduct("cd-intermediate", CD, "Intermediate-term CD", "3Y", f.intermediate, f.intermediate * Pow(1.0 + adjustedRate, 3), adjustedRate, Some("intermediate"))];
    }
    assert products == Pushed(f, 2);
    if f.longTerm > 0.0 {
      assert CalcProduct("cd-long", CD, "Long-term CD", "5Y", f.longTerm, f.longTerm * Pow(1.0 + adjustedRate, 5), adjustedRate, Some("long")) == Offer(f, 2);
      products := products + [CalcProduct("cd-long", CD, "Long-term CD", "5Y", f.longTerm, f.longTerm * Pow(1.0 + adjustedRate, 5), adjustedRate, Some("long"))];
    }
    assert products == Pushed(f, 3);
    if f.shortTerm > 0.0 {
      assert CalcProduct("money-market-short", MoneyMarket, "Money Market Account", "1Y", f.shortTerm, f.shortTerm * (1.0 + adjustedRate * 0.8), adjustedRate * 0.8, Some("short")) == Offer(f, 3);
      products := products + [CalcProduct("money-market-short", MoneyMarket, "Money Market Account", "1Y", f.shortTerm, f.shortTerm * (1.0 + adjustedRate * 0.8), adjustedRate * 0.8, Some("short"))];
    }
    assert products == Pushed(f, 4);
    if f.never > 0.0 {
      assert CalcProduct("annuity", Annuity, "Fixed Annuity", "10Y", f.never, f.never * Pow(1.0 + adjustedRate * 1.2, 10), adjustedRate * 1.2, None) == Offer(f, 4);
      products := products + [CalcProduct("annuity", Annuity, "Fixed Annuity", "10Y", f.never, f.never * Pow(1.0 + adjustedRate * 1.2, 10), adjustedRate * 1.2, None)];
    }
    assert products == Pushed(f, 5);
    if f.never > 0.0 {
      assert CalcProduct("life-insurance", LifeInsurance, "Whole Life Insurance", "20Y", f.never, f.never * Pow(1.0 + adjustedRate * 1.5, 20), adjustedRate * 1.5, None) == Offer(f, 5);
      products := products + [CalcProduct("life-insurance", LifeInsurance, "Whole Life Insurance", "20Y", f.never, f.never * Pow(1.0 + adjustedRate * 1.5, 20), adjustedRate * 1.5, None)];
    }
    assert products == Pushed(f, 6);
    PushedThenRest(f, 6);
  }

  /** Where an id stands in the push order. */
  function Rank(id: string): nat
  {
    if id == "cd-short" then 0 else if id == "cd-intermediate" then 1 else if id == "cd-long" then 2
    else if id == "money-market-short" then 3 else if id == "annuity" then 4 else 5
  }

  /** The term circle shows the years the offer compounds over. */
  lemma CircleShowsYears(k: nat)
    requires k < 6
    ensures OfferCircle(k) == NatToString(OfferYears(k)) + "Y"
  {
    if k == 4 {
      assert NatToString(10) == "10";
    } else if k == 5 {
      assert NatToString(20) == "20";
    }
  }

  /** Offer `k` carries the `k`-th id and is funded from its bucket. */
  lemma OfferFacts(f: FormData, k: nat)
    requires k < 6
    ensures Offer(f, k).id == OfferIds[k] && Rank(Offer(f, k).id) == k
    ensures Offer(f, k).investment == Amount(f, k)
  {
  }

  /** Offer `k` quotes its multiple of the adjusted rate, and its circle shows the years it compounds over. */
  lemma OfferRateAndCircle(f: FormData, k: nat)
    requires k < 6
    ensures Offer(f, k).rate == RateFactor(k) * AdjustedRate(f.age, f.gender, f.tobaccoUse)
    ensures Offer(f, k).termCircle == NatToString(OfferYears(k)) + "Y"
  {
    CircleShowsYears(k);
  }

  /** Every entry is a funded offer from the `k`-th on. */
  lemma {:induction false} OffersFromProvenance(f: FormData, k: nat)
    requires k <= 6
    ensures forall p :: p in OffersFrom(f, k) ==> exists j :: k <= j < 6 && p == Offer(f, j) && Amount(f, j) > 0.0
    decreases 6 - k
  {
    if k < 6 {
      OffersFromProvenance(f, k + 1);
    }
  }

  /** Offer `j` is in the list exactly when its bucket is positive. */
  lemma {:induction false} OffersFromMembership(f: FormData, k: nat, j: nat)
    requires k <= j < 6
    ensures Offer(f, j) in OffersFrom(f, k) <==> Amount(f, j) > 0.0
    decreases 6 - k
  {
    if k < j {
      OffersFromMembership(f, k + 1, j);
      OfferFacts(f, k);
      OfferFacts(f, j);
    } else {
      OffersFromProvenance(f, k + 1);
      if Offer(f, j) in OffersFrom(f, k + 1) {
        var i :| k + 1 <= i < 6 && Offer(f, j) == Offer(f, i) && Amount(f, i) > 0.0;
        OfferFacts(f, i);
        OfferFacts(f, j);
      }
    }
  }

  /** Strictly increasing ranks: the push order, each offer at most once. */
  predicate RankOrdered(s: seq<CalcProduct>)
  {
    forall a, b :: 0 <= a < b < |s| ==> Rank(s[a].id) < Rank(s[b].id)
  }

  /** Putting an entry of smaller rank than all the others in front keeps the order. */
  lemma ConsRankOrdered(h: CalcProduct, rest: seq<CalcProduct>)
    requires RankOrdered(rest)
    requires forall x :: x in rest ==> Rank(h.id) < Rank(x.id)
    ensures RankOrdered([h] + rest)
  {
    var all := [h] + rest;
    forall a, b | 0 <= a < b < |all|
      ensures Rank(all[a].id) < Rank(all[b].id)
    {
      assert all[b] == rest[b - 1] && rest[b - 1] in rest;
      if a > 0 {
        assert all[a] == rest[a - 1];
      }
    }
  }

  /** The offers from the `k + 1`-th on all rank after offer `k`. */
  lemma LaterOffersRankAfter(f: FormData, k: nat)
    requires k < 6
    ensures forall x :: x in OffersFrom(f, k + 1) ==> Rank(Offer(f, k).id) < Rank(x.id)
  {
    OffersFromProvenance(f, k + 1);
    OfferFacts(f, k);
    forall x | x in OffersFrom(f, k + 1)
      ensures Rank(Offer(f, k).id) < Rank(x.id)
    {
      var j :| k + 1 <= j < 6 && x == Offer(f, j) && Amount(f, j) > 0.0;
      OfferFacts(f, j);
    }
  }

  /** The entries follow the push order. */
  lemma {:induction false} OffersFromOrdered(f: FormData, k: nat)
    requires k <= 6
    ensures RankOrdered(OffersFrom(f, k))
    decreases 6 - k
  {
    if k < 6 {
      OffersFromOrdered(f, k + 1);
      if Amount(f, k) > 0.0 {
        LaterOffersRankAfter(f, k);
        ConsRankOrdered(Offer(f, k), OffersFrom(f, k + 1));
      } else {
        assert OffersFrom(f, k) == [] + OffersFrom(f, k + 1);
      }
    }
  }

  /** Every returned product was funded: its investment is positive. */
  lemma AllFunded(f: FormData)
    ensures forall p :: p in OffersFrom(f, 0) ==> p.investment > 0.0
    ensures |OffersFrom(f, 0)| <= 6
  {
    OffersFromProvenance(f, 0);
    forall p | p in OffersFrom(f, 0)
      ensures p.investment > 0.0
    {
      var j :| 0 <= j < 6 && p == Offer(f, j) && Amount(f, j) > 0.0;
      OfferFacts(f, j);
    }
  }

  /** The ids come in the fixed order cd-short, cd-intermediate, cd-long, money-market-short, annuity, life-insurance, each at most once. */
  lemma IdsInFixedOrder(f: FormData)
    ensures forall a, b :: 0 <= a < b < |OffersFrom(f, 0)| ==> Rank(OffersFrom(f, 0)[a].id) < Rank(OffersFrom(f, 0)[b].id)
    ensures forall a, b :: 0 <= a < b < |OffersFrom(f, 0)| ==> OffersFrom(f, 0)[a].id != OffersFrom(f, 0)[b].id
  {
    OffersFromOrdered(f, 0);
  }

  /** With nothing in any bucket, no product is offered. */
  lemma NothingInvestedNothingOffered(f: FormData)
    requires f.shortTerm <= 0.0 && f.intermediate <= 0.0 && f.longTerm <= 0.0 && f.never <= 0.0
    ensures OffersFrom(f, 0) == []
  {
  }

  /** The short-term bucket funds both the short CD and the money market; the never bucket both the annuity and life insurance. */
  lemma BucketsFundTheirPairs(f: FormData)
    ensures f.shortTerm > 0.0 <==> Offer(f, 0) in OffersFrom(f, 0) && Offer(f, 3) in OffersFrom(f, 0)
    ensures f.never > 0.0 <==> Offer(f, 4) in OffersFrom(f, 0) && Offer(f, 5) in OffersFrom(f, 0)
    ensures f.intermediate > 0.0 <==> Offer(f, 1) in OffersFrom(f, 0)
    ensures f.longTerm > 0.0 <==> Offer(f, 2) in OffersFrom(f, 0)
  {
    OffersFromMembership(f, 0, 0);
    OffersFromMembership(f, 0, 1);
    OffersFromMembership(f, 0, 2);
    OffersFromMembership(f, 0, 3);
    OffersFromMembership(f, 0, 4);
    OffersFromMembership(f, 0, 5);
  }

  /**
   * Every projection is the investment compounded yearly at the offer's own rate over the
   * years its term circle shows; the rate is the adjusted rate times 1, 0.8, 1.2 or 1.5.
   */
  lemma ProjectedCompounds(f: FormData, r: real, k: nat)
    requires k < 6
    ensures Projected(f, r, k) == Amount(f, k) * Pow(1.0 + OfferRate(r, k), OfferYears(k))
  {
    if k == 0 {
      assert Pow(1.0 + r, 1) == (1.0 + r) * Pow(1.0 + r, 0);
    } else if k == 3 {
      assert Pow(1.0 + r * 0.8, 1) == (1.0 + r * 0.8) * Pow(1.0 + r * 0.8, 0);
    } else if k == 1 {
      assert OfferYears(k) == 3 && OfferRate(r, k) == r;
    } else if k == 2 {
      assert OfferYears(k) == 5 && OfferRate(r, k) == r;
    } else if k == 4 {
      assert OfferYears(k) == 10 && OfferRate(r, k) == r * 1.2;
    } else {
      assert OfferYears(k) == 20 && OfferRate(r, k) == r * 1.5;
    }
  }

  lemma ProjectionsCompound(f: FormData, k: nat)
    requires k < 6
    ensures Offer(f, k).projectedValue == Offer(f, k).investment * Pow(1.0 + Offer(f, k).rate, OfferYears(k))
  {
    var r := AdjustedRate(f.age, f.gender, f.tobaccoUse);
    var o := Offer(f, k);
    assert o.investment == Amount(f, k) && o.rate == OfferRate(r, k) && o.projectedValue == Projected(f, r, k);
    ProjectedCompounds(f, r, k);
  }
}
