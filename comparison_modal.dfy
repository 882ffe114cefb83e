/**
 * The figures of the comparison table (src/components/ComparisonModal.tsx): each selected
 * product's series key, the last finite value the chart data holds under it, the invested
 * amount, and the growth between the two.
 */
module ComparisonModal {
  import opened Wrappers
  import opened Text
  import opened Catalog
  import Labels

  /** `product.data?.productName || (product.termMonths ? termMonths + '-Month CD' : 'Product ' + (index + 1))`. */
  function SeriesKey(p: Product, index: nat): (r: string)
    ensures r != ""
    ensures p.data.Some? && Present(p.data.value.productName) ==> r == p.data.value.productName.value
  {
    var name := if p.data.Some? then p.data.value.productName else None;
    if Present(name) then name.value
    else if p.termMonths != 0 then NatToString(p.termMonths) + "-Month CD"
    else "Product " + NatToString(index + 1)
  }

  /** Without a product name the key falls back to the term, then to the product's position counted from 1. */
  lemma SeriesKeyFallbacks(p: Product, index: nat)
    requires !(p.data.Some? && Present(p.data.value.productName))
    ensures p.termMonths != 0 ==> SeriesKey(p, index) == NatToString(p.termMonths) + "-Month CD"
    ensures p.termMonths == 0 ==> SeriesKey(p, index) == "Product " + NatToString(index + 1)
  {
  }

  /** Unnamed products without a term get different keys at different positions. */
  lemma PositionKeysDiffer(p: Product, q: Product, i: nat, j: nat)
    requires !(p.data.Some? && Present(p.data.value.productName)) && p.termMonths == 0
    requires !(q.data.Some? && Present(q.data.value.productName)) && q.termMonths == 0
    requires i != j
    ensures SeriesKey(p, i) != SeriesKey(q, j)
  {
    var a, b := NatToString(i + 1), NatToString(j + 1);
    if SeriesKey(p, i) == SeriesKey(q, j) {
      assert ("Product " + a)[8..] == a && ("Product " + b)[8..] == b;
      NatToStringInjective(i + 1, j + 1);
    }
  }

  /**
   * For an unnamed CD the key the table looks up ("12-Month CD") is not the label the results
   * chart files that CD's line under ("12mo CD").
   */
  lemma KeyIsNotChartLabel(p: Product, index: nat)
    requires p.kind == CD && p.termMonths != 0
    requires !(p.data.Some? && Present(p.data.value.productName))
    ensures SeriesKey(p, index) != Labels.ProductLabel(p)
  {
    var n := NatToString(p.termMonths);
    assert SeriesKey(p, index)[|n|] == '-';
    assert Labels.ProductLabel(p)[|n|] == 'm';
  }

  /** `typeof entry[key] === 'number' && isFinite(entry[key])`. */
  predicate FiniteAt(entry: map<string, Value>, key: string)
  {
    key in entry && entry[key].Number?
  }

  /** The greatest index whose entry holds a finite number under `key`. */
  function LastFiniteIndex(chartData: seq<map<string, Value>>, key: string): (r: Option<nat>)
    ensures r.Some? ==> r.value < |chartData| && FiniteAt(chartData[r.value], key)
    ensures r.Some? ==> forall j :: r.value < j < |chartData| ==> !FiniteAt(chartData[j], key)
    ensures r.None? ==> forall j :: 0 <= j < |chartData| ==> !FiniteAt(chartData[j], key)
  {
    if chartData == [] then None
    else if FiniteAt(chartData[|chartData| - 1], key) then Some(|chartData| - 1)
    else LastFiniteIndex(chartData[..|chartData| - 1], key)
  }

  /**
   * The `value` the scan settles on: nothing exactly when no entry holds a finite number under
   * `key`, and otherwise the number of an entry after which none does.
   */
  function LastFiniteValue(chartData: seq<map<string, Value>>, key: string): (r: Option<real>)
    ensures r.None? <==> forall j :: 0 <= j < |chartData| ==> !FiniteAt(chartData[j], key)
    ensures r.Some? ==> exists i :: 0 <= i < |chartData| && key in chartData[i] && chartData[i][key] == Number(r.value)
                                    && forall j :: i < j < |chartData| ==> !FiniteAt(chartData[j], key)
  {
    match LastFiniteIndex(chartData, key)
    case None => None
    case Some(i) => Some(chartData[i][key].v)
  }

  /** An index holding a finite number with none after it is the one the scan finds. */
  lemma LastFiniteIndexUnique(chartData: seq<map<string, Value>>, key: string, i: nat)
    requires i < |chartData| && FiniteAt(chartData[i], key)
    requires forall j :: i < j < |chartData| ==> !FiniteAt(chartData[j], key)
    ensures LastFiniteIndex(chartData, key) == Some(i)
    ensures LastFiniteValue(chartData, key) == Some(chartData[i][key].v)
  {
  }

  /** Entries appended without a finite number under `key` do not change what the scan finds. */
  lemma {:induction false} TrailingGapsIgnored(chartData: seq<map<string, Value>>, more: seq<map<string, Value>>, key: string)
    requires forall j :: 0 <= j < |more| ==> !FiniteAt(more[j], key)
    ensures LastFiniteValue(chartData + more, key) == LastFiniteValue(chartData, key)
  {
    var all := chartData + more;
    assert forall j :: |chartData| <= j < |all| ==> all[j] == more[j - |chartData|];
    match LastFiniteIndex(chartData, key)
    case None =>
      assert forall j :: 0 <= j < |chartData| ==> all[j] == chartData[j];
      assert LastFiniteIndex(all, key).None?;
    case Some(i) =>
      assert all[i] == chartData[i];
      LastFiniteIndexUnique(all, key, i);
  }

  /** The backward scan: from the last entry down, stop at the first finite number under `key`. */
  method ScanLastValue(chartData: seq<map<string, Value>>, key: string) returns (value: Option<real>)
    ensures value == LastFiniteValue(chartData, key)
  {
    value := None;
    if |chartData| > 0 {
      var i: int := |chartData| - 1;
      while i >= 0
        invariant -1 <= i < |chartData|
        invariant value.None?
        invariant forall j :: i < j < |chartData| ==> !FiniteAt(chartData[j], key)
        decreases i + 1
      {
        if FiniteAt(chartData[i], key) {
          value := Some(chartData[i][key].v);
          LastFiniteIndexUnique(chartData, key, i);
          break;
        }
        i := i - 1;
      }
    }
  }

  /** `product.investment` when it is a finite number. */
  function InvestmentOf(p: Product): (r: Option<real>)
    ensures r.Some? <==> p.investment.Some? && p.investment.value.Number?
    ensures r.Some? ==> p.investment.value == Number(r.value)
  {
    if p.investment.Some? && p.investment.value.Number? then Some(p.investment.value.v) else None
  }

  /** `value - investment` when both are defined. */
  function Growth(value: Option<real>, investment: Option<real>): (r: Option<real>)
    ensures r.Some? <==> value.Some? && investment.Some?
    ensures r.Some? ==> investment.value + r.value == value.value
  {
    if value.Some? && investment.Some? then Some(value.value - investment.value) else None
  }

  /** One row of the table: the key, the last value under it, the investment and the growth. */
  method RowFigures(p: Product, index: nat, chartData: seq<map<string, Value>>)
    returns (key: string, value: Option<real>, investment: Option<real>, growth: Option<real>)
    ensures key == SeriesKey(p, index)
    ensures value == LastFiniteValue(chartData, key)
    ensures investment == InvestmentOf(p)
    ensures growth == Growth(value, investment)
  {
    key := SeriesKey(p, index);
    value := ScanLastValue(chartData, key);
    investment := InvestmentOf(p);
    growth := Growth(value, investment);
  }

  /** An empty chart gives no value and so no growth. */
  lemma EmptyChartNoGrowth(p: Product, index: nat)
    ensures LastFiniteValue([], SeriesKey(p, index)) == None
    ensures Growth(LastFiniteValue([], SeriesKey(p, index)), InvestmentOf(p)) == None
  {
  }

  lemma ScanExample()
    ensures LastFiniteValue([map["a" := Number(100.0)], map["a" := Number(110.0)], map["a" := Null], map["b" := Number(5.0)]], "a") == Some(110.0)
  {
    var data := [map["a" := Number(100.0)], map["a" := Number(110.0)], map["a" := Null], map["b" := Number(5.0)]];
    LastFiniteIndexUnique(data, "a", 1);
  }
}
