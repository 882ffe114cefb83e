# investcalc core, modelled in Dafny

investcalc is an investment calculator. A customer splits money over four horizon buckets: short term, intermediate, long term and "never". The results screen projects the money into certificates of deposit (CDs), money-market accounts, annuities and whole life insurance.

This project models the calculation core behind those screens, with proofs:

- Rate resolution. A product's rate comes from its amount-banded `rateGrid` (or legacy `bands`), with JavaScript's `||` fallbacks down to a 4% default.
- The per-product return formulas and the screen's total return.
- The growth series the charts plot.
- The comparison chart.
  - Selecting a product for comparison.
  - The series drawn for each selected product.
  - Aligning those series into one table of entries.
  - The comparison modal's backward scan for the last finite value, and the growth derived from it.
- The term circles, badges and labels.
- The alternative calculator `calculateProducts`.
- The thousands-grouping formatter.
- The editable grid: cells, rows, columns and labels.
- The product administration screen: filter, sort, sort toggle and the rate-band editor.

One Dafny module stands for each component, in one file each:

| module | file | models |
|---|---|---|
| `RateResolution` | `rate_resolution.dfy` | `getRateForInvestment` |
| `Projection` | `projection.dfy` | `calculateCDReturn`, `calculateAnnuityReturn`, `calculateLifeInsuranceReturn`, `calculateMoneyMarketReturn`, `totalReturn` |
| `GrowthSeries` | `growth_series.dfy` | `getGrowthData` |
| `ComparisonSeries` | `comparison_series.dfy` | `getComparisonGrowthData` |
| `Labels` | `labels.dfy` | `getTermBadge`, `getTermCircle`, `getProductLabel` |
| `Selection` | `selection.dfy` | `handleProductSelect` and the cards' `isSelected` |
| `ChartAlignment` | `chart_alignment.dfy` | the chart lines and the padded chart data of the compare modal |
| `ComparisonModal` | `comparison_modal.dfy` | the series key, the backward last-value scan, investment and growth |
| `Calculations` | `calculations.dfy` | `calculateProducts` |
| `Formatters` | `formatters.dfy` | `formatNumber` |
| `EditableGrid` | `editable_grid.dfy` | `EditableGrid` |
| `AdminProducts` | `admin_products.dfy` | the admin products screen |

Shared modules:

- `Catalog` holds the product, band and value shapes, JavaScript truthiness, and the shipped catalog's annuities and `money-market-2` as fixtures.
- `Text` holds ASCII case mapping, `includes`, the `<` order on strings (by character code point), decimal rendering and digit values.
- `Powers` holds whole-number powers of reals: the addition and multiplication laws, monotonicity and Bernoulli's inequality.
- `Wrappers` holds `Option`; `Seqs` holds associativity of concatenation.

How the source is modelled:

- **Loops become methods.** Code that works by loops is written as a method with a loop. Each method is proved equal to a specification function, and the properties are proved about that function. These methods are:
  - `GrowthSeries.GrowthData`: the counting `push` loops;
  - `ChartAlignment.AlignChart` and `ChartAlignment.BuildEntry`: `Array.from` and `forEach`;
  - `Projection.LifeInsuranceReturn` and `ComparisonSeries.ComparisonGrowthData`: the step-by-step `baseRate` updates;
  - `Calculations.CalculateProducts`: the conditional `push` calls;
  - `ComparisonModal.ScanLastValue`: the backward loop with `break`;
  - `AdminProducts.EditBand`: it copies `rateGrid` into an array and assigns one entry.
- **Pure code becomes functions.** Code built from `find`, `filter`, `map`, `reduce`, spread and regular expressions becomes functions on values.
- **Sorting.** Since ECMAScript 2019, `Array.prototype.sort` must be stable. The admin screen's sort is modelled as an insertion sort proved stable (`AdminProducts.SortByStable`), so the order among equal keys is fixed.
- **Exact arithmetic.** Amounts and rates are exact `real` numbers.
- **JavaScript values.** A `Num` is a finite number or `NaN`, wrapped in `Option` for an absent field. The `||` fallbacks test truthiness, so `undefined`, `0` and `NaN` all fall through.
- **Absent fields on the top-level product.** The ad-hoc products the results screen builds, such as `{ type: 'cd', termMonths, rate }`, carry `termMonths` and `rate` on the product itself. A 0 there stands for an absent field: every read of them is a truthiness test or `|| default`, and those treat 0 and `undefined` alike.
- **`_id`.** It is an `Option<string>`, so two products without an id compare equal, as `undefined === undefined` does.

The model follows the code. For instance, **`getColLabel`** takes the *first* schema entry whose name matches (src/components/EditableGrid.tsx:17-18). If that entry's label is empty, it prettifies the column name. It does not look for a later entry with a label (`EditableGrid.ColLabelFirstEntry`).

The proofs also bring out these behaviours of the code as written:

- **Money-market horizons.**
  - The results card reads 1 year for `'short'`, 3 for `'intermediate'` and 5 for anything else (src/components/Results.tsx:292).
  - The comparison chart reads 3 for `'intermediate'`, 5 for `'long'` and 1 for anything else (src/components/Results.tsx:362-364).
  - They agree on the three term types the catalog uses (`ComparisonSeries.MoneyMarketChartEndsAtCard`), and differ on any other.
- **The CD comparison line** compounds monthly at a twelfth of the rate. The CD card compounds yearly. So the line ends at or above the card's value, never below it (`ComparisonSeries.CDChartEndsAtLeastAtCard`).
- **The annuity comparison line** compounds the resolved rate but leaves out the bonus the card adds (`ComparisonSeries.AnnuityChartOmitsBonus`).
- **The rate-band editor's amount columns** write `min` and `max` into `rateGrid` rows. A `rateGrid` lookup, however, reads `minAmount` and `maxAmount`. So editing an amount changes no resolved rate (`AdminProducts.AmountEditKeepsRates`). A band added to a product that has only legacy `bands` creates a `rateGrid`. Its single band then shadows the whole `bands` list, and every amount gets the 4% default (`AdminProducts.AddBandToLegacyProduct`).
- **Series keys.**
  - The comparison modal keys an unnamed CD's series `"<n>-Month CD"` (src/components/ComparisonModal.tsx:59, 82).
  - The results screen's chart lines label the same product `"<n>mo CD"` (src/components/Results.tsx:346).
  - The two never agree (`ComparisonModal.KeyIsNotChartLabel`).
- **`totalReturn`** adds one full annuity projection of the long-term amount per annuity in the catalog. So the growth it shows counts that amount several times over: with the shipped four annuities, money put only in the long-term bucket shows a growth of at least three times itself (`Projection.CatalogTotalGrowthCountsLongTermFourTimes`).

## Model

| member | source | states |
|---|---|---|
| RateResolution.FirstCovering | src/components/Results.tsx:66-69 | `find` returns the first band, in list order, whose bounds include the investment; if there is none, no band covers it |
| RateResolution.RateForInvestment | src/components/Results.tsx:59-84 | without `data`, or without a non-empty list, the rate is 0.04; otherwise it is 0.04 or the truthy rate of a band of the consulted list; it is never 0 |
| RateResolution.FirstMatchWins | src/components/Results.tsx:65-70 | the first covering band's rate is the result when it is non-zero |
| RateResolution.ZeroRateFallsThrough | src/components/Results.tsx:70 | a covering band with a zero or missing rate falls through to the first band's rate, then 4% |
| RateResolution.NoMatchFallsBack | src/components/Results.tsx:66-70 | with no covering band, the first band's rate is used, else 4% |
| RateResolution.RateGridTakesPrecedence | src/components/Results.tsx:64-80 | with a non-empty `rateGrid`, the `bands` list does not affect the rate |
| RateResolution.LegacyBandsResolveLikeRateGrid | src/components/Results.tsx:73-79 | legacy `bands` read through `min`/`max` resolve exactly as the same rows renamed to `minAmount`/`maxAmount` in a `rateGrid` |
| RateResolution.SameBandSameRate | src/components/Results.tsx:66-70 | in a grid of disjoint bands, two amounts in the same band get the same rate |
| RateResolution.ExampleGridRates | src/components/Results.tsx:66-70 | both ends of a band are included: 9999 gets 3.5% and 10000 gets 4% |
| RateResolution.ExampleGridTopBand | src/components/Results.tsx:68 | a band without `maxAmount` has no upper bound |
| RateResolution.ExampleGridFallbacks | src/components/Results.tsx:70 | an amount below every band, or in a gap between bands, gets the first band's rate |
| RateResolution.DefaultRateCases | src/components/Results.tsx:59-84 | no data, or empty `rateGrid` and `bands`, give 0.04 |
| RateResolution.CatalogRates | src/data/products.ts:59-63 | annuity-1 at 75 000 resolves to 3.5% |
| RateResolution.CatalogRateAboveTopBand | src/data/products.ts:59-63 | annuity-1 above its top band falls back to its first band's 3% |
| RateResolution.LegacyCatalogRate | src/data/products.ts:320-325 | money-market-2 at 30 000 resolves through its `bands` to 4.5% |
| Projection.CDReturn | src/components/Results.tsx:20-23 | a term of no months returns the investment; a non-negative investment at a non-negative rate never comes back smaller |
| Projection.CDReturnEdges | src/components/Results.tsx:20-23 | nothing invested returns 0, at every rate and whole-year term |
| Projection.CDReturnRollsOver | src/components/Results.tsx:20-23 | `a` years and then `b` more years at the same rate equal `a + b` years at once |
| Projection.CDReturnGrows | src/components/Results.tsx:20-23 | at a non-negative rate the CD returns at least the investment, and a longer term never returns less |
| Projection.AnnuityReturn | src/components/Results.tsx:25-29 | with a non-negative investment, rate and bonus, at least the investment comes back |
| Projection.AnnuityReturnEdges | src/components/Results.tsx:25-29 | a term of 0 years returns the investment plus its bonus; nothing invested returns nothing |
| Projection.AnnuityBonusNotCompounded | src/components/Results.tsx:25-29 | the bonus adds exactly `investment * bonusRate`, whatever the term |
| Projection.LifeRate | src/components/Results.tsx:33-43 | after the age, gender and tobacco adjustments the rate lies in [0.02, 0.055] |
| Projection.LifeRateRange | src/components/Results.tsx:33-43 | the rate is 0.055 exactly for a female under 30 who does not use tobacco, and 0.02 exactly for a non-female over 60 who does |
| Projection.LifeInsuranceValue | src/components/Results.tsx:31-47 | a non-negative amount never shrinks over the 30 years |
| Projection.LifeValueBetweenExtremes | src/components/Results.tsx:31-47 | the projection lies between the 30-year values at 2% and at 5.5%, both at least the amount |
| Projection.LifeInsuranceReturn | src/components/Results.tsx:31-47 | the step-by-step rate adjustment compounded over 30 years equals the rate rule's value |
| Projection.LifeValueMonotoneInRate | src/components/Results.tsx:46 | compounding a non-negative amount over 30 years at a higher rate never gives less |
| Projection.LifeValueOrderedByRate | src/components/Results.tsx:31-47 | a customer with a higher life rate never gets a smaller projection |
| Projection.MoneyMarketReturn | src/components/Results.tsx:49-57 | a non-negative investment at a non-negative resolved rate never comes back smaller |
| Projection.MoneyMarketReturnEdges | src/components/Results.tsx:49-57 | no years return the investment; nothing invested returns nothing |
| Projection.AnnuitiesOf | src/components/Results.tsx:166 | exactly the catalog's annuities are kept, each as many times as the catalog holds it, and nothing else |
| Projection.AnnuitiesOfAppend | src/components/Results.tsx:166 | the filter distributes over concatenation, so catalog order is kept |
| Projection.AnnuitiesOfAnnuities | src/components/Results.tsx:166 | filtering a list made only of annuities keeps it whole, in order |
| Projection.AnnuitySumOfNothing | src/components/Results.tsx:334-337 | the `reduce` over the annuities of a zero investment is 0 |
| Projection.TotalReturnOfNothing | src/components/Results.tsx:330-339 | nothing invested in any bucket gives a total return of 0 |
| Projection.AnnuityCardValue | src/components/Results.tsx:219-227 | an annuity card with non-negative rates and bonus shows at least the amount invested |
| Projection.AnnuitySum | src/components/Results.tsx:334-337 | for well-rated annuities and a non-negative amount, the `reduce` adds at least the amount once per annuity |
| Projection.AnnuityRecordNonNegative | src/data/products.ts:52-63 | a catalog annuity record with a non-negative bonus and non-negative grid rates is readable and well-rated |
| Projection.CatalogAnnuitiesWellRated | src/data/products.ts:27-183 | the shipped catalog has four annuities, each readable and well-rated |
| Projection.TotalReturn | src/components/Results.tsx:330-338 | with no negative bucket and well-rated annuities, the total is at least the short-term, intermediate and never amounts plus the long-term amount once per annuity |
| Projection.TotalGrowth | src/components/Results.tsx:329-339 | under the same conditions, the growth plus the long-term amount is at least that amount once per annuity, so the amount invested once is counted as returned by every annuity |
| Projection.TotalReturnOfLongTermOnly | src/components/Results.tsx:330-339 | with only a long-term amount, the total return is the annuities' sum alone |
| Projection.TotalGrowthCountsLongTermPerAnnuity | src/components/Results.tsx:330-339 | for a catalog of `n` well-rated annuities, the shown growth of a long-term-only amount is at least `n - 1` times it |
| Projection.CatalogTotalGrowthCountsLongTermFourTimes | src/components/Results.tsx:330-339 | with the shipped catalog, that growth is at least three times the amount |
| GrowthSeries.GrowthData | src/components/Results.tsx:87-111 | the counting loops build exactly the series the interval and term define |
| GrowthSeries.MonthSeriesShape | src/components/Results.tsx:89-93 | `termMonths + 1` points at months 0..termMonths, starting at the investment and ending at the monthly-compounded value |
| GrowthSeries.SixMonthSeriesShape | src/components/Results.tsx:94-103 | `termMonths / 6 + 1` points every six months, plus one exactly when the term is not a multiple of six; the last value is the value at the full term |
| GrowthSeries.YearSeriesShape | src/components/Results.tsx:104-108 | `termYears + 1` points at years 0..termYears, starting at the investment and ending at the yearly-compounded value |
| GrowthSeries.Series | src/components/Results.tsx:87-110 | no points exactly when the term the interval reads (months, or years for a yearly series) is absent or 0; otherwise the first point is the investment |
| GrowthSeries.MonthSeriesNonDecreasing | src/components/Results.tsx:89-93 | at a non-negative rate on a non-negative investment, the month series never decreases |
| GrowthSeries.TwelveMonthExample | src/components/Results.tsx:89-93 | 12 months at 4% on 10 000 give 13 points, from 10 000 to 10 000 · (1 + 0.04/12)^12 |
| ComparisonSeries.ComparisonGrowthData | src/components/Results.tsx:354-382 | the dispatch, with its own copy of the life-rate rule, builds the series the product's family defines |
| ComparisonSeries.CDChartShape | src/components/Results.tsx:355-359 | the CD line has one point per month of the term (12 by default) and ends at the monthly-compounded value |
| ComparisonSeries.MonthlyBeatsYearly | src/components/Results.tsx:358 | monthly compounding at a twelfth of a non-negative rate never ends below yearly compounding over the same years |
| ComparisonSeries.CDChartEndsAtLeastAtCard | src/components/Results.tsx:355-359 | for a whole number of years, the CD line ends at or above the CD card's projection |
| ComparisonSeries.MoneyMarketChartEndsAtCard | src/components/Results.tsx:360-367 | for the three term types, the money-market line has `12 * years + 1` points and ends at the card's projection |
| ComparisonSeries.AnnuityChartOmitsBonus | src/components/Results.tsx:368-371 | the annuity line has `termYears + 1` points and ends at the card's value less the bonus |
| ComparisonSeries.LifeChartEndsAtCard | src/components/Results.tsx:372-380 | the life line has 31 points and ends at the card's 30-year projection: the two copies of the rate rule agree |
| ComparisonSeries.ComparisonSeriesOf | src/components/Results.tsx:354-382 | no points exactly when the product is outside the CD branch and is either of no known family or an annuity without term years; otherwise the line starts at the investment |
| Labels.TermBadge | src/components/Results.tsx:122-128 | the badge is empty exactly for an unknown type; a money-market badge is Short, Intermediate or Long |
| Labels.BadgeMatchesCardYears | src/components/Results.tsx:124 | a money-market badge names the horizon its card projects over |
| Labels.TermCircle | src/components/Results.tsx:131-150 | a missing product gives ""; the CD branch shows the month count (12 by default) followed by `m` |
| Labels.CDCircleCountsChartMonths | src/components/Results.tsx:133-136 | a CD circle shows the number of months of the product's comparison line |
| Labels.CDCardCircles | src/components/Results.tsx:192 | the three CD cards show `12m`, `36m` and `60m` |
| Labels.MoneyMarketCircleCountsYears | src/components/Results.tsx:140-145 | a money-market circle shows the years of its card's projection and of its comparison line |
| Labels.AnnuityCircleCountsChartYears | src/components/Results.tsx:137-139 | an annuity circle shows the number of years of its comparison line |
| Labels.ProductLabel | src/components/Results.tsx:344-351 | the label is never empty and is the product name when there is one |
| Labels.ProductLabelFallbacks | src/components/Results.tsx:344-351 | without a name: `<n>mo CD`, `Life Insurance`, `Annuity`, `Money Market` or `Product`, by type |
| Labels.UnnamedCDLabelsDiffer | src/components/Results.tsx:346 | two unnamed CDs with different terms get different labels |
| Selection.WithoutId | src/components/Results.tsx:173 | no entry left has the product's id |
| Selection.WithoutIdCounts | src/components/Results.tsx:173 | every entry with another id is kept, as often as before; none with the id is |
| Selection.WithoutIdAppend | src/components/Results.tsx:173 | the filter keeps the order: it distributes over concatenation |
| Selection.WithoutAbsentId | src/components/Results.tsx:173 | filtering out an id no entry has changes nothing |
| Selection.Toggle | src/components/Results.tsx:169-178 | afterwards the product's id is selected exactly when it was not before |
| Selection.ToggleEffect | src/components/Results.tsx:169-178 | if the id is selected, every entry with it is removed and nothing else changes; otherwise the product is appended |
| Selection.ToggleTwiceRestores | src/components/Results.tsx:169-178 | toggling an unselected product twice gives back the selection it started from |
| Selection.IsSelected | src/components/Results.tsx:182-185 | a catalog card shows as selected exactly when an entry has its product's id |
| Selection.CardProductMatches | src/components/Results.tsx:182-185 | the product a card hands on passes that card's `isSelected` test |
| Selection.AdHocToggleDropsOtherCD | src/components/Results.tsx:169-178 | as written, pressing the 36-month CD while the 12-month CD is selected deselects the 12-month CD and leaves the 36-month CD unselected |
| Selection.WithoutMatches | src/components/Results.tsx:182-185 | no entry left passes the card's `isSelected` test |
| Selection.WithoutMatchesCounts | src/components/Results.tsx:182-185 | an entry that fails the card's test is kept as often as before; none that passes is |
| Selection.ToggleCard | src/components/Results.tsx:208-212 | corrected toggle: pressing a card's button always flips the selected state the card shows |
| Selection.ToggleCardKeepsOthers | src/components/Results.tsx:182-185 | corrected toggle: entries that do not match the card are kept, as often as before |
| Selection.ToggleCardTwiceRestores | src/components/Results.tsx:169-178 | corrected toggle: pressing an unselected card twice restores the selection |
| Selection.WithoutMatchesIsWithoutId | src/components/Results.tsx:172-173 | for a catalog card, removing the matches is removing the id |
| Selection.ToggleCardOnCatalog | src/components/Results.tsx:169-178 | for catalog cards the corrected toggle is the toggle as written |
| ChartAlignment.ChartLines | src/components/Results.tsx:527-535 | one line per selected product, each under a non-empty label, each starting at the amount that product is charted with |
| ChartAlignment.MaxLength | src/components/Results.tsx:537 | the length of the longest line; 0 for no lines |
| ChartAlignment.EntryAt | src/components/Results.tsx:540-544 | every entry holds `x` and every line's label |
| ChartAlignment.BuildEntry | src/components/Results.tsx:540-545 | the `forEach` writing each line into `{ x: i }` builds the specified entry |
| ChartAlignment.AlignChart | src/components/Results.tsx:537-546 | the `Array.from` loop builds the specified chart data |
| ChartAlignment.ChartData | src/components/Results.tsx:537-546 | there are as many entries as the longest line has points, so no line is cut short |
| ChartAlignment.EntryKeys | src/components/Results.tsx:540-544 | an entry's keys are `x` and the line labels, and nothing else |
| ChartAlignment.WriteLine | src/components/Results.tsx:541-543 | the entry gains the line's label, and `x` when the line has a point at the position; the label holds the line's value or `null`, `x` that point's time, and every other field is kept |
| ChartAlignment.CellValue | src/components/Results.tsx:542 | `null` exactly past the end of the line or where its value is 0; otherwise the value of the point |
| ChartAlignment.LastWriterWins | src/components/Results.tsx:541-544 | under a label, the last line with that label decides the value |
| ChartAlignment.NullWhereNoValue | src/components/Results.tsx:542 | past the end of a line, or where its value is 0, its field is `null` |
| ChartAlignment.ValueWherePoint | src/components/Results.tsx:542 | a non-zero point of a line is its field at that position |
| ChartAlignment.PositionField | src/components/Results.tsx:540-544 | `x` is the position where no line has a point, and otherwise the time of the last line that has one |
| ComparisonModal.SeriesKey | src/components/ComparisonModal.tsx:82 | the key is never empty and is the product name when there is one |
| ComparisonModal.SeriesKeyFallbacks | src/components/ComparisonModal.tsx:82 | without a name: `<termMonths>-Month CD` for a truthy term, else `Product <index + 1>` |
| ComparisonModal.PositionKeysDiffer | src/components/ComparisonModal.tsx:82 | unnamed products without a term get different keys at different positions |
| ComparisonModal.KeyIsNotChartLabel | src/components/ComparisonModal.tsx:82 | an unnamed CD's table key (`12-Month CD`) is never the label the results screen gives its chart line (`12mo CD`, src/components/Results.tsx:346) |
| ComparisonModal.LastFiniteIndex | src/components/ComparisonModal.tsx:84-92 | the greatest index holding a finite number under the key; none exactly when no entry holds one |
| ComparisonModal.LastFiniteValue | src/components/ComparisonModal.tsx:84-92 | nothing exactly when no entry holds a finite number under the key; otherwise the number of an entry after which none does |
| ComparisonModal.LastFiniteIndexUnique | src/components/ComparisonModal.tsx:86-90 | an index with a finite number and none after it is the one found, with its value |
| ComparisonModal.TrailingGapsIgnored | src/components/ComparisonModal.tsx:86-90 | appending entries without a finite number under the key changes nothing |
| ComparisonModal.ScanLastValue | src/components/ComparisonModal.tsx:84-92 | the backward loop with `break` returns the value at the last finite index, and nothing when there is none |
| ComparisonModal.InvestmentOf | src/components/ComparisonModal.tsx:93-95 | defined exactly when `product.investment` is a finite number, and then equal to it |
| ComparisonModal.Growth | src/components/ComparisonModal.tsx:96-98 | defined exactly when value and investment are both defined, and then their difference |
| ComparisonModal.RowFigures | src/components/ComparisonModal.tsx:82-98 | one table row's key, value, investment and growth |
| ComparisonModal.EmptyChartNoGrowth | src/components/ComparisonModal.tsx:85 | empty chart data give no value and so no growth |
| ComparisonModal.ScanExample | src/components/ComparisonModal.tsx:84-92 | trailing `null` entries and entries without the key are skipped |
| Calculations.AdjustedRate | src/utils/calculations.ts:26-31 | after the age, gender and tobacco adjustments the rate lies in [0.03, 0.08] |
| Calculations.AdjustedRateRange | src/utils/calculations.ts:26-31 | the rate is 0.08 exactly for a female under 30 who does not use tobacco, and 0.03 exactly for a non-female of 50 or more who does |
| Calculations.CDOffersAsWritten | src/utils/calculations.ts:36-76 | the three CD offers carry their ids, names, circles, buckets, projections, rates and term types |
| Calculations.OtherOffersAsWritten | src/utils/calculations.ts:78-116 | the money-market, annuity and life offers carry theirs |
| Calculations.CalculateProducts | src/utils/calculations.ts:22-119 | the six conditional pushes build exactly the specified list |
| Calculations.PushedThenRest | src/utils/calculations.ts:34-116 | after `k` pushes, the list so far followed by the remaining offers is the whole result |
| Calculations.CircleShowsYears | src/utils/calculations.ts:36-116 | every term circle shows the years its offer compounds over |
| Calculations.OfferFacts | src/utils/calculations.ts:36-116 | offer `k` carries the `k`-th id and is funded from its own bucket |
| Calculations.OfferRateAndCircle | src/utils/calculations.ts:45-114 | offer `k` quotes 1×, 1×, 1×, 0.8×, 1.2× or 1.5× the adjusted rate |
| Calculations.OffersFrom | src/utils/calculations.ts:34-118 | from offer `k` on, at most one entry per remaining offer, so at most `6 - k` |
| Calculations.OffersFromProvenance | src/utils/calculations.ts:37-116 | every entry is an offer whose bucket is positive |
| Calculations.OffersFromMembership | src/utils/calculations.ts:37-116 | an offer is in the list exactly when its bucket is positive |
| Calculations.OffersFromOrdered | src/utils/calculations.ts:36-116 | the entries follow the push order |
| Calculations.AllFunded | src/utils/calculations.ts:37-116 | every returned product has a positive investment; there are at most 6 |
| Calculations.IdsInFixedOrder | src/utils/calculations.ts:36-116 | ids come in the order cd-short, cd-intermediate, cd-long, money-market-short, annuity, life-insurance, all distinct |
| Calculations.NothingInvestedNothingOffered | src/utils/calculations.ts:37-116 | with no positive bucket the list is empty |
| Calculations.BucketsFundTheirPairs | src/utils/calculations.ts:37-116 | a positive short-term bucket gives both cd-short and money-market-short; a positive never bucket gives both annuity and life-insurance |
| Calculations.ProjectedCompounds | src/utils/calculations.ts:44-113 | each projection is the bucket compounded at the offer's rate over 1, 3, 5, 1, 10 or 20 years |
| Calculations.ProjectionsCompound | src/utils/calculations.ts:44-113 | each offer's `projectedValue` is its investment compounded at its own rate over its years |
| Formatters.Digits | src/utils/formatters.ts:2 | the kept characters are digits, no more than the input's |
| Formatters.DigitsOfDigits | src/utils/formatters.ts:2 | a string of digits is kept whole |
| Formatters.GroupFrom | src/utils/formatters.ts:3 | commas are only added, so the grouped suffix is no shorter than the digits it groups |
| Formatters.FormatNumber | src/utils/formatters.ts:1-4 | the output is no shorter than the input's digits, and is "" exactly when the input has none |
| Formatters.GroupFromShape | src/utils/formatters.ts:3 | the grouped suffix holds digits and commas, and without its commas it is the suffix of digits |
| Formatters.OutputAlphabet | src/utils/formatters.ts:2-3 | the output holds only digits and commas |
| Formatters.CommasRoundTrip | src/utils/formatters.ts:2-3 | deleting the commas gives exactly the input's digits, in order |
| Formatters.FormatIdempotent | src/utils/formatters.ts:2-3 | formatting a formatted number changes nothing |
| Formatters.ShortInputs | src/utils/formatters.ts:2-3 | input without digits gives ""; up to three digits come back unchanged |
| Formatters.NoCommaUnderThree | src/utils/formatters.ts:3 | no comma goes where fewer than three digits follow |
| Formatters.GroupFromLastThree | src/utils/formatters.ts:3 | a comma goes before the last three digits of a longer number |
| Formatters.GroupFromSplitLast | src/utils/formatters.ts:3 | the last three digits and their comma split off the grouping of the rest |
| Formatters.GroupFromIsChunked | src/utils/formatters.ts:3 | the regular expression groups as splitting threes off from the right does |
| Formatters.ChunkedIsGrouped | src/utils/formatters.ts:3 | that grouping has a first group of 1-3 digits and later groups of exactly 3 |
| Formatters.GroupedEnds | src/utils/formatters.ts:3 | such a grouping neither starts nor ends with a comma |
| Formatters.OutputGrouped | src/utils/formatters.ts:2-3 | an output with digits is grouped and neither starts nor ends with a comma |
| Formatters.GroupingExample | src/utils/formatters.ts:1-4 | `12345` becomes `12,345` |
| Formatters.NoDigitsExample | src/utils/formatters.ts:1-4 | `abc` becomes "" |
| EditableGrid.Keys | src/components/EditableGrid.tsx:12 | `Object.keys` lists the row's keys in the order they were added, column names being never integer-like |
| EditableGrid.Get | src/components/EditableGrid.tsx:59 | `row[col]` is the value of the first pair with the key, and undefined exactly when no pair has it |
| EditableGrid.Find | src/components/EditableGrid.tsx:26 | the position of a key in a row, if there is one |
| EditableGrid.UpdateKeepsOthers | src/components/EditableGrid.tsx:26 | overwriting an existing key keeps its place and every other key's value |
| EditableGrid.AppendKeepsOthers | src/components/EditableGrid.tsx:26 | adding a new key puts it last and keeps every other key's value |
| EditableGrid.Set | src/components/EditableGrid.tsx:26 | the spread sets the key and only that key; an existing key keeps its place, a new one goes last (for keys that are not integer-like); distinct keys stay distinct |
| EditableGrid.InferredColumns | src/components/EditableGrid.tsx:12 | `columns` if given, else the keys of the first row, else none |
| EditableGrid.CellChange | src/components/EditableGrid.tsx:24-29 | the length is kept and only row `rowIdx` is replaced, by the row with the cell set; an index outside the list changes nothing |
| EditableGrid.CellChangeSetsOneCell | src/components/EditableGrid.tsx:24-29 | every other key of the row, and every other row, reads as before |
| EditableGrid.EmptyRow | src/components/EditableGrid.tsx:32 | the new row maps every inferred column, and nothing else, to the blank value, with distinct keys |
| EditableGrid.AddRow | src/components/EditableGrid.tsx:31-34 | one more row, with the existing ones unchanged in front |
| EditableGrid.DropAt | src/components/EditableGrid.tsx:37 | one element fewer exactly when the index is inside the list, and no element that was not there |
| EditableGrid.DropAtOutside | src/components/EditableGrid.tsx:37 | filtering by an index outside the list keeps it whole |
| EditableGrid.DropAtInside | src/components/EditableGrid.tsx:37 | filtering by an index inside the list deletes that element |
| EditableGrid.RemoveRow | src/components/EditableGrid.tsx:36-38 | removing deletes exactly row `rowIdx` and keeps the order; an index outside the list removes nothing |
| EditableGrid.RemoveAddedRow | src/components/EditableGrid.tsx:31-38 | adding a row and removing it again gives the list back |
| EditableGrid.FindField | src/components/EditableGrid.tsx:17 | the first schema entry with the column's name, if any |
| EditableGrid.SpaceBeforeCaps | src/components/EditableGrid.tsx:21 | spacing never shortens the name |
| EditableGrid.Capitalize | src/components/EditableGrid.tsx:21 | only the first character changes, to upper case, unless it is a line terminator (which `.` does not match) |
| EditableGrid.ColLabel | src/components/EditableGrid.tsx:15-22 | the label of the first matching schema entry when it is non-empty, else the prettified name |
| EditableGrid.ColLabelFirstEntry | src/components/EditableGrid.tsx:16-18 | the first entry with the name decides: its label if non-empty, otherwise the prettified name |
| EditableGrid.ColLabelUnnamed | src/components/EditableGrid.tsx:20-21 | without a schema entry for the column, the name is prettified |
| EditableGrid.CapsArePreceded | src/components/EditableGrid.tsx:21 | every capital of the spaced name comes right after a space |
| EditableGrid.SpaceBeforeCapsFirst | src/components/EditableGrid.tsx:21 | a leading capital gets a space before it; otherwise the first character is kept |
| EditableGrid.SpaceBeforeCapsRoundTrip | src/components/EditableGrid.tsx:21 | taking out the spaces before capitals gives the name back |
| EditableGrid.SpaceBeforeCapsAppend | src/components/EditableGrid.tsx:21 | spacing works character by character, so it distributes over concatenation |
| EditableGrid.SpaceBeforeCapsNoCaps | src/components/EditableGrid.tsx:21 | a name without capitals gets no space |
| EditableGrid.Prettify | src/components/EditableGrid.tsx:21 | the prettified name is never shorter than the name; a name without capitals is only capitalised (`rate` becomes `Rate`) |
| EditableGrid.SpacedCamelCase | src/components/EditableGrid.tsx:21 | in a name with one capital, the space goes right before that capital |
| EditableGrid.PrettifyCamelCase | src/components/EditableGrid.tsx:21 | a camel-case name with one capital is capitalised and split there (`minAmount` becomes `Min Amount`) |
| Text.ToLower | src/pages/admin/Products.tsx:26-28 | same length; every ASCII capital is lowered and every other character kept |
| Text.Includes | src/pages/admin/Products.tsx:26-28 | the empty needle is found in every string, and a needle longer than the string in none |
| Text.IncludesIffOccurs | src/pages/admin/Products.tsx:26-28 | `includes` holds exactly when the needle occurs at some position |
| Text.StrLess | src/pages/admin/Products.tsx:38-44 | no string is less than itself, and a proper prefix is less than the string it starts |
| Catalog.Truthy | src/components/Results.tsx:68-70 | an optional number is falsy exactly when it is undefined, NaN or 0 |
| Catalog.Present | src/components/Results.tsx:345 | an optional string is falsy exactly when it is undefined or "" |
| AdminProducts.MatchesSearch | src/pages/admin/Products.tsx:25-28 | a non-empty query can only match a product one of whose three names is at least as long as it |
| AdminProducts.FilterProducts | src/pages/admin/Products.tsx:23-30 | every listed product has the tab's type and matches the search |
| AdminProducts.FilterMembership | src/pages/admin/Products.tsx:23-30 | a product is listed exactly when it is in the catalog, of the tab's type and matching the search |
| AdminProducts.FilterAppend | src/pages/admin/Products.tsx:23-30 | filtering distributes over concatenation, so catalog order is kept |
| AdminProducts.FilterKeepsShown | src/pages/admin/Products.tsx:23-30 | a list whose every product is shown comes back whole |
| AdminProducts.EmptyQueryKeepsTab | src/pages/admin/Products.tsx:25 | with an empty query a product is listed exactly when it has the tab's type |
| AdminProducts.SearchIgnoresCase | src/pages/admin/Products.tsx:26-28 | lower-casing the query changes no match |
| AdminProducts.SearchIsSubstring | src/pages/admin/Products.tsx:25-28 | a non-empty query matches exactly when it occurs, lower-cased, in the lower-cased name, carrier or institution, a missing field reading as "" |
| AdminProducts.SortKey | src/pages/admin/Products.tsx:36-37 | the columns `term` and `rate`, and any product without `data`, sort by "" |
| AdminProducts.SortedProducts | src/pages/admin/Products.tsx:33-46 | without a sort config the filtered list is returned as it is; with one, a permutation of it in ascending or descending key order, `data[key] \|\| ''`, in which products with the same key keep their order |
| AdminProducts.BeforeAsymmetric | src/pages/admin/Products.tsx:38-44 | the comparator never puts two products each before the other |
| AdminProducts.NotBeforeTransitive | src/pages/admin/Products.tsx:38-44 | "not before" is transitive: the comparator is a total preorder on the keys |
| AdminProducts.InsertPermutes | src/pages/admin/Products.tsx:35 | inserting adds exactly the one product |
| AdminProducts.InsertSorted | src/pages/admin/Products.tsx:35 | inserting into a sorted list keeps it sorted |
| AdminProducts.SortBy | src/pages/admin/Products.tsx:35-45 | the sort leaves the list in comparator order and neither drops nor duplicates a product |
| AdminProducts.InsertKeyed | src/pages/admin/Products.tsx:35-45 | inserting a product puts it first among the products with its key and moves none of them |
| AdminProducts.SortByStable | src/pages/admin/Products.tsx:35-45 | the sort is stable: the products with any one key come out in the order they went in |
| AdminProducts.RequestSort | src/pages/admin/Products.tsx:48-54 | the key is the clicked one; the direction is descending exactly when the config was that key ascending |
| AdminProducts.RepeatedClicksAlternate | src/pages/admin/Products.tsx:48-54 | clicking one column again flips the direction; clicking another column starts ascending |
| AdminProducts.WithGridEffect | src/pages/admin/Products.tsx:256-261 | handing the product on changes its `rateGrid` and nothing else |
| AdminProducts.AddBand | src/pages/admin/Products.tsx:252-262 | one default band is appended and the others are kept, a missing grid counting as empty; the default is `{age 30, Male, No, rate 0}` for life insurance, else `{min 0, max 0, rate 0}`; nothing else about the product changes |
| AdminProducts.AddBandToLegacyProduct | src/pages/admin/Products.tsx:252-262 | adding a band to money-market-2 makes every amount resolve to the 4% default instead of its `bands` rates |
| AdminProducts.RemoveBand | src/pages/admin/Products.tsx:399-404 | removing deletes exactly the band at `index` and keeps the order of the rest, an index outside the grid removing nothing; nothing else about the product changes |
| AdminProducts.ParseAmount | src/pages/admin/Products.tsx:352-354 | an amount input reads as the value of its digits, 0 when it has none |
| AdminProducts.AmountRoundTrip | src/pages/admin/Products.tsx:350-354 | an amount typed back as displayed, with or without thousands separators, reads as that amount |
| AdminProducts.KeepDecimal | src/pages/admin/Products.tsx:386 | only digits and dots are kept |
| AdminProducts.LeadingDigits | src/pages/admin/Products.tsx:388 | the longest prefix of digits `parseFloat` reads |
| AdminProducts.ParseFloat | src/pages/admin/Products.tsx:388 | NaN exactly when the text starts neither with a digit nor with a dot and a digit; otherwise a non-negative number |
| AdminProducts.DecimalValue | src/pages/admin/Products.tsx:388 | the fraction digits only add to the value of the integer digits |
| AdminProducts.ParseRate | src/pages/admin/Products.tsx:386-388 | nothing kept reads as 0; an unreadable number reads as NaN; otherwise the parsed value divided by 100 |
| AdminProducts.KeepDecimalOfDigits | src/pages/admin/Products.tsx:386 | digits are kept whole, and all of them are leading digits |
| AdminProducts.ParseRateOfDigits | src/pages/admin/Products.tsx:386-388 | digits alone read as that many hundredths |
| AdminProducts.RateRoundTrip | src/pages/admin/Products.tsx:384-388 | a whole percentage typed in reads as that many hundredths |
| AdminProducts.ParseFloatDecimal | src/pages/admin/Products.tsx:388 | digits, a dot and digits read as the whole part plus the fraction |
| AdminProducts.DecimalExample | src/pages/admin/Products.tsx:388 | `4` and `5` make 4.5 |
| AdminProducts.RateExampleFraction | src/pages/admin/Products.tsx:386-388 | `4.5` reads as 0.045 |
| AdminProducts.RateExampleStripped | src/pages/admin/Products.tsx:386-388 | `12%` reads as 0.12 |
| AdminProducts.RateExampleNoDigits | src/pages/admin/Products.tsx:386-388 | `abc` reads as 0 |
| AdminProducts.RateExampleDotOnly | src/pages/admin/Products.tsx:386-388 | `.` reads as NaN |
| AdminProducts.TrimStart | src/pages/admin/Products.tsx:301 | only characters from the front are dropped, and the result starts with none of the white space `parseInt` skips: tab, vertical tab, form feed, byte order mark, the line terminators and every Unicode space separator |
| AdminProducts.ParseInt | src/pages/admin/Products.tsx:301 | a negative number comes only from text whose first character after the white space is `-` |
| AdminProducts.ParseIntOfDigits | src/pages/admin/Products.tsx:301 | a string of digits alone reads as its value |
| AdminProducts.ParseIntDigitsThenRest | src/pages/admin/Products.tsx:301 | digits followed by a non-digit read as the digits' value, so `3.5` is 3 and `1e3` is 1 |
| AdminProducts.ParseIntNegative | src/pages/admin/Products.tsx:301 | a minus sign before digits gives the negated value, so `-5` is -5 |
| AdminProducts.AgeRoundTrip | src/pages/admin/Products.tsx:298-301 | an age typed as digits reads as that number; an empty field reads as NaN |
| AdminProducts.Edited | src/pages/admin/Products.tsx:299-393 | each input overrides its one field of the band and keeps the rest: an age is stored as `parseInt` of the text, a minimum or maximum as the parsed amount (0 when empty), a rate as the parsed percentage / 100, and a gender or tobacco choice as chosen |
| AdminProducts.EditBand | src/pages/admin/Products.tsx:299-393 | the copied grid has the same length, the edited band at `index` and every other band as before, and nothing else about the product changes |
| AdminProducts.AmountEditKeepsRates | src/pages/admin/Products.tsx:351-375 | editing an amount writes `min`/`max`, which a `rateGrid` lookup never reads, so no resolved rate changes |

## Left out

- All JSX rendering, MUI tabs, recharts, icons, colours (`lineColors`) and CSS classes, including the end-dot label layout of the comparison chart, which is screen geometry in floating point.
- React state: `useState`, `useMemo` and the `setX(prev => ...)` updaters. Each handler is modelled as a function from the old value to the new one.
- The console-logged save of the admin editor, routing, layouts, and the presentational components.
- The share-link encoding and decoding (`btoa`, `atob`, `JSON.parse`): these are foreign calls.
- Number display: `toLocaleString`, `toFixed`, `Math.round` and `Intl.NumberFormat`. The six-month series keeps its `time` labels symbolic (`GrowthSeries.Time`) for the same reason.
- IEEE double rounding. Amounts and rates are exact reals, so every stated equality is the ideal one.
- Projection.CDReturn: the CD formula raises to `termMonths / 12`, a fractional power when the months are not whole years. The model takes whole years only (`termMonths % 12 == 0`), which every caller passes (12, 36 and 60 months); a fractional exponent is not modelled.
- Projection.CDReturnGrows: stated for whole-year terms only, for the same reason. The source's formula also grows over fractional years, which the model does not promise.
- Projection.CDReturnEdges: stated for whole-year terms only, for the same reason.
- Projection.CDReturnRollsOver: stated for whole years only, for the same reason.
- ComparisonSeries.CDChartEndsAtLeastAtCard: stated for whole years only, for the same reason.
- AdminProducts.ParseInt: only decimal digits after optional white space and sign are read; the `0x` prefix and radix rules of `parseInt` are not modelled, since the field is a number input. What a number input can hold (`-5`, `3.5`, `1e3`) is covered by ParseIntNegative and ParseIntDigitsThenRest.
- AdminProducts.ParseFloat: exponents (`1e3`), `Infinity` and signs are not read; the input passed to it has already been stripped to digits and dots, so none of them can occur.
- Calculations.AdjustedRate: the age is a whole number, while the form's number input can hold a fraction (60.5); every threshold compares with `<` or `>` against a whole number, so a fractional age behaves as some whole age.
- Projection.LifeRate: the age is a whole number, for the same reason as in Calculations.AdjustedRate.
- Text.LowerChar: case mapping covers ASCII letters only; other letters keep their case.
- EditableGrid.Capitalize: upper-cases ASCII letters only, while `toUpperCase` also maps other letters (`é` to `É`) and can change the length (`ß` to `SS`); the column names it is applied to are ASCII field names.
- Text.StrLess: compares strings by code point, while JavaScript's `<` compares UTF-16 code units; the two orders differ only when a character above U+FFFF meets one in U+E000–U+FFFF at the same position (U+1F600 against U+FF21), which the model assumes product names, carriers and institutions do not contain.
- AdminProducts.SortKey: the columns `term` and `rate` read fields the catalog's `data` records do not have, so they sort by ""; numeric keys and JavaScript's mixed number/string comparison are not modelled.
- EditableGrid.Keys: a row is a list of pairs in insertion order. JavaScript lists integer-like keys (`"0"`, `"12"`) before all others, in numeric order; that ordering is not modelled, since the grid's column names are field names such as `minAmount` and `rate`.
- EditableGrid.Set: where a new key goes is stated under the same assumption: for an integer-like key JavaScript would not put it last.
- Projection.AnnuityCardValue: requires an annuity with `data`, `termYears` and `bonusRate` (`AnnuityReady`). In the source a missing `termYears` or `bonusRate` makes the result NaN, and a product without `data` throws (src/components/Results.tsx:25-29, 219-227); neither path is modelled.
- Projection.AnnuitySum: same requirement on every annuity, for the same reason (src/components/Results.tsx:334-337).
- Projection.TotalReturn: same requirement on every annuity of the catalog, for the same reason (src/components/Results.tsx:334-337).
- Projection.TotalGrowth: same requirement, for the same reason.
- ComparisonSeries.ComparisonSeriesOf: requires an annuity outside the CD branch to have `data` (`ChartReady`). The source reads `product.data.termYears` and throws without it (src/components/Results.tsx:368-371); that path is not modelled. A missing `termYears` is modelled, as no points.
- ComparisonSeries.ComparisonGrowthData: same requirement, for the same reason.
- ChartAlignment.ChartLines: same requirement on every selected product, for the same reason.
- The admin screen's display of the band inputs (`band.age || ''`, `toLocaleString`, `toFixed(2)`) is rendering.
- `ComparisonModal.tsx` receives `chartData` and `selectedProducts` from a caller that is not part of this model; the table's `product.rate` cell is display only.
- src/data/products.ts is static data; only its annuities and money-market-2 appear, as fixtures. Its `underwritingGrid` is read by no code.

## Findings

| source | as written | input that shows it | evidently intended | confidence | as-written member | corrected member |
|---|---|---|---|---|---|---|
| src/components/Results.tsx:169-178 | `handleProductSelect` removes every selected entry whose `_id` equals the product's `_id`. The ad-hoc CD cards hand on `{ type: 'cd', termMonths, rate }` with no `_id`, and `undefined === undefined`. | Select the 12-month CD card, then press the 36-month CD card's button. The 12-month CD is removed and the 36-month CD is not added. | Pressing a card's button flips that card's own selected state (the `isSelected` test at lines 182-185) and leaves the others alone. | not executed | Selection.AdHocToggleDropsOtherCD | Selection.ToggleCard |
