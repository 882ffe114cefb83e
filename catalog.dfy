/**
 * The shapes of the product records the engine reads (src/data/products.ts), the
 * ad-hoc product objects the results screen builds, and the JavaScript values and
 * truthiness rules the source relies on when it reads their optional fields.
 */
module Catalog {
  import opened Wrappers

  /** A number field of a rate band: finite, or NaN after a failed parse in the admin editor. */
  datatype Num = Finite(v: real) | NaN

  /** JavaScript truthiness of an optional number: undefined, 0 and NaN are falsy. */
  predicate Truthy(x: Option<Num>)
    ensures Truthy(x) <==> x != None && x != Some(NaN) && x != Some(Finite(0.0))
  {
    x.Some? && x.value.Finite? && x.value.v != 0.0
  }

  /** `x || d` for an optional number field. */
  function NumOr(x: Option<Num>, d: real): (r: real)
    ensures Truthy(x) ==> r == x.value.v
    ensures !Truthy(x) ==> r == d
  {
    if Truthy(x) then x.value.v else d
  }

  /** JavaScript truthiness of an optional string: undefined and "" are falsy. */
  predicate Present(s: Option<string>)
    ensures Present(s) <==> s != None && s != Some("")
  {
    s.Some? && s.value != ""
  }

  /** `s || d` for an optional string field. */
  function StrOr(s: Option<string>, d: string): (r: string)
    ensures Present(s) ==> r == s.value
    ensures !Present(s) ==> r == d
  {
    if Present(s) then s.value else d
  }

  /** A value a chart entry or an ad-hoc product holds under a key. */
  datatype Value = Number(v: real) | NonFiniteNumber | Null | OtherValue

  /** The `type` tag of a product; `OtherType` stands for any tag outside the four families. */
  datatype ProductType = CD | MoneyMarket | Annuity | LifeInsurance | OtherType

  /**
   * One row of a `rateGrid` or `bands` list. The catalog's grids use `minAmount`/`maxAmount`,
   * the legacy `bands` use `min`/`max`; the admin editor writes `min`/`max` and, for
   * life-insurance rows, `age`/`gender`/`tobaccoUse`. CD rows also carry `termMonths`.
   */
  datatype Band = Band(
    minAmount: Option<Num>,
    maxAmount: Option<Num>,
    min: Option<Num>,
    max: Option<Num>,
    rate: Option<Num>,
    termMonths: Option<Num>,
    age: Option<Num>,
    gender: Option<string>,
    tobaccoUse: Option<string>)

  /** The `data` record of a catalog product (only the fields some core code reads or writes). */
  datatype ProductData = ProductData(
    productName: Option<string>,
    carrier: Option<string>,
    institution: Option<string>,
    termYears: Option<nat>,
    bonusRate: Option<real>,
    rateGrid: Option<seq<Band>>,
    bands: Option<seq<Band>>)

  /**
   * A product as the results screen handles it: a catalog record, or an ad-hoc object
   * such as `{ type: 'cd', termMonths, rate }`. `termMonths` and `rate` hold 0 when the
   * object has no such field: every read of them is a truthiness test or `|| default`,
   * for which 0 and undefined behave alike.
   */
  datatype Product = Product(
    id: Option<string>,
    kind: ProductType,
    termType: string,
    termMonths: nat,
    rate: real,
    investment: Option<Value>,
    data: Option<ProductData>)

  const NoData := ProductData(None, None, None, None, None, None, None)

  /** A catalog band `{ minAmount, maxAmount, rate }`. */
  function AmountBand(lo: real, hi: real, rate: real): Band
  {
    Band(Some(Finite(lo)), Some(Finite(hi)), None, None, Some(Finite(rate)), None, None, None, None)
  }

  /** A legacy band `{ min, max, rate }`. */
  function LegacyBand(lo: real, hi: real, rate: real): Band
  {
    Band(None, None, Some(Finite(lo)), Some(Finite(hi)), Some(Finite(rate)), None, None, None, None)
  }

  function AnnuityRecord(id: string, carrier: string, name: string, years: nat, bonus: real, grid: seq<Band>): Product
  {
    Product(Some(id), Annuity, "long", 0, 0.0, None,
      Some(ProductData(Some(name), Some(carrier), None, Some(years), Some(bonus), Some(grid), None)))
  }

  /** The four annuities of the shipped catalog, in catalog order. */
  function CatalogAnnuities(): seq<Product>
  {
    [ AnnuityRecord("annuity-1", "SecureLife", "Golden Nest Egg", 10, 0.01,
        [AmountBand(0.0, 49999.0, 0.03), AmountBand(50000.0, 99999.0, 0.035), AmountBand(100000.0, 1000000.0, 0.04)]),
      AnnuityRecord("annuity-2", "FutureGuard", "Silver Lining Plus", 15, 0.015,
        [AmountBand(0.0, 99999.0, 0.035), AmountBand(100000.0, 249999.0, 0.04), AmountBand(250000.0, 1000000.0, 0.045)]),
      AnnuityRecord("annuity-3", "WealthShield", "Platinum Legacy", 20, 0.02,
        [AmountBand(0.0, 249999.0, 0.038), AmountBand(250000.0, 499999.0, 0.042), AmountBand(500000.0, 1000000.0, 0.046)]),
      AnnuityRecord("annuity-4", "RetirementPlus", "Diamond Horizon", 25, 0.025,
        [AmountBand(0.0, 499999.0, 0.04), AmountBand(500000.0, 999999.0, 0.045), AmountBand(1000000.0, 2000000.0, 0.05)]) ]
  }

  /** money-market-2, whose rates sit in a legacy `bands` list. */
  function EnhancedMoneyMarket(): Product
  {
    Product(Some("money-market-2"), MoneyMarket, "intermediate", 0, 0.0, None,
      Some(ProductData(Some("Enhanced Money Market"), None, Some("WealthGuard"), None, None, None,
        Some([LegacyBand(0.0, 24999.0, 0.038), LegacyBand(25000.0, 99999.0, 0.045),
              LegacyBand(100000.0, 249999.0, 0.048), LegacyBand(250000.0, 1000000.0, 0.051)]))))
  }
}
