/**
 * `getGrowthData` (src/components/Results.tsx): the points a growth chart plots for an
 * investment compounding over a term, sampled monthly, every six months or yearly.
 */
module GrowthSeries {
  import opened Powers

  datatype Interval = Month | SixMonth | Year

  /**
   * The `time` of a point: a month or year count, or the years label of the six-month
   * series, `m / 12 + ' yr'` (`fixed` false) or the `toFixed(1)` label of its extra
   * last point (`fixed` true). The label text itself is left to the number formatting.
   */
  datatype Time = Step(n: nat) | YearsLabel(months: nat, fixed: bool)

  datatype Point = Point(time: Time, value: real)

  /** The value after `m` months of monthly compounding. */
  function MonthlyValue(investment: real, rate: real, m: nat): real
  {
    investment * Pow(1.0 + rate / 12.0, m)
  }

  /** The value after `y` years of yearly compounding. */
  function YearlyValue(investment: real, rate: real, y: nat): real
  {
    investment * Pow(1.0 + rate, y)
  }

  /** The first `count` points of the month series, one per month from 0. */
  function MonthPoints(investment: real, rate: real, count: nat): seq<Point>
  {
    seq(count, m requires 0 <= m => Point(Step(m), MonthlyValue(investment, rate, m)))
  }

  /** The first `count` points of the six-month series, at months 0, 6, 12, ... */
  function SixMonthPoints(investment: real, rate: real, count: nat): seq<Point>
  {
    seq(count, k requires 0 <= k => Point(YearsLabel(6 * k, false), MonthlyValue(investment, rate, 6 * k)))
  }

  /** The first `count` points of the year series, with yearly compounding. */
  function YearPoints(investment: real, rate: real, count: nat): seq<Point>
  {
    seq(count, y requires 0 <= y => Point(Step(y), YearlyValue(investment, rate, y)))
  }

  /** The six-month series: every sixth month, then the term's own month when it is not a multiple of six. */
  function SixMonthSeries(investment: real, rate: real, termMonths: nat): seq<Point>
  {
    SixMonthPoints(investment, rate, termMonths / 6 + 1)
    + (if termMonths % 6 != 0 then [Point(YearsLabel(termMonths, true), MonthlyValue(investment, rate, termMonths))] else [])
  }

  /**
   * What `getGrowthData` returns. A term of 0 stands for an absent one: the source tests
   * `termMonths` and `termYears` for truthiness, and 0 and undefined both fail it. There is no
   * point exactly when the term the interval reads is missing, and a series starts at the investment.
   */
  function Series(investment: real, rate: real, termMonths: nat, termYears: nat, interval: Interval): (r: seq<Point>)
    ensures r == [] <==> (if interval == Year then termYears == 0 else termMonths == 0)
    ensures r != [] ==> r[0].value == investment
  {
    match interval
    case Month => if termMonths != 0 then MonthPoints(investment, rate, termMonths + 1) else []
    case SixMonth => if termMonths != 0 then SixMonthSeries(investment, rate, termMonths) else []
    case Year => if termYears != 0 then YearPoints(investment, rate, termYears + 1) else []
  }

  /** `getGrowthData`: counting loops that push one point per step. */
  method GrowthData(investment: real, rate: real, termMonths: nat, termYears: nat, interval: Interval) returns (data: seq<Point>)
    ensures data == Series(investment, rate, termMonths, termYears, interval)
  {
    data := [];
    if interval == Month && termMonths != 0 {
      var m := 0;
      while m <= termMonths
        invariant m <= termMonths + 1
        invariant data == MonthPoints(investment, rate, m)
      {
        var value := investment * Pow(1.0 + rate / 12.0, m);
        data := data + [Point(Step(m), value)];
        assert data[m] == MonthPoints(investment, rate, m + 1)[m];
        assert data == MonthPoints(investment, rate, m + 1);
        m := m + 1;
      }
    } else if interval == SixMonth && termMonths != 0 {
      var m := 0;
      while m <= termMonths
        invariant m % 6 == 0 && m <= termMonths + 6
        invariant data == SixMonthPoints(investment, rate, m / 6)
      {
        var value := investment * Pow(1.0 + rate / 12.0, m);
        data := data + [Point(YearsLabel(m, false), value)];
        ghost var k := m / 6;
        assert 6 * k == m && (m + 6) / 6 == k + 1;
        assert data[k] == SixMonthPoints(investment, rate, k + 1)[k];
        assert data == SixMonthPoints(investment, rate, k + 1);
        m := m + 6;
      }
      assert m / 6 == termMonths / 6 + 1;
      assert data == SixMonthPoints(investment, rate, termMonths / 6 + 1);
      if termMonths % 6 != 0 {
        var value := investment * Pow(1.0 + rate / 12.0, termMonths);
        assert value == MonthlyValue(investment, rate, termMonths);
        data := data + [Point(YearsLabel(termMonths, true), value)];
      } else {
        assert SixMonthSeries(investment, rate, termMonths) == SixMonthPoints(investment, rate, termMonths / 6 + 1) + [];
      }
    } else if interval == Year && termYears != 0 {
      var y := 0;
      while y <= termYears
        invariant y <= termYears + 1
        invariant data == YearPoints(investment, rate, y)
      {
        var value := investment * Pow(1.0 + rate, y);
        data := data + [Point(Step(y), value)];
        assert data[y] == YearPoints(investment, rate, y + 1)[y];
        assert data == YearPoints(investment, rate, y + 1);
        y := y + 1;
      }
    }
  }

  /** The month series has `termMonths + 1` points at months 0..termMonths, starts at the investment and ends at the compounded value. */
  lemma MonthSeriesShape(investment: real, rate: real, termMonths: nat)
    requires termMonths != 0
    ensures var s := Series(investment, rate, termMonths, 0, Month);
      && |s| == termMonths + 1
      && (forall m :: 0 <= m < |s| ==> s[m].time == Step(m))
      && s[0].value == investment
      && s[|s| - 1].value == investment * Pow(1.0 + rate / 12.0, termMonths)
  {
  }

  /** The year series has `termYears + 1` points at years 0..termYears, starts at the investment and ends at the compounded value. */
  lemma YearSeriesShape(investment: real, rate: real, termYears: nat)
    requires termYears != 0
    ensures var s := Series(investment, rate, 0, termYears, Year);
      && |s| == termYears + 1
      && (forall y :: 0 <= y < |s| ==> s[y].time == Step(y))
      && s[0].value == investment
      && s[|s| - 1].value == investment * Pow(1.0 + rate, termYears)
  {
  }

  /**
   * The six-month series has `termMonths / 6 + 1` regular points plus exactly one extra point when
   * the term is not a multiple of six; whichever way, its last value is the value at the full term.
   */
  lemma SixMonthSeriesShape(investment: real, rate: real, termMonths: nat)
    requires termMonths != 0
    ensures var s := Series(investment, rate, termMonths, 0, SixMonth);
      && |s| == termMonths / 6 + 1 + (if termMonths % 6 != 0 then 1 else 0)
      && (forall k :: 0 <= k <= termMonths / 6 ==> s[k].time == YearsLabel(6 * k, false))
      && s[0].value == investment
      && s[|s| - 1].value == investment * Pow(1.0 + rate / 12.0, termMonths)
  {
    var s := Series(investment, rate, termMonths, 0, SixMonth);
    if termMonths % 6 == 0 {
      assert 6 * (termMonths / 6) == termMonths;
      assert s[|s| - 1] == SixMonthPoints(investment, rate, termMonths / 6 + 1)[termMonths / 6];
    }
  }

  /** At a non-negative rate on a non-negative investment, the month series never decreases. */
  lemma {:induction false} MonthSeriesNonDecreasing(investment: real, rate: real, termMonths: nat, i: nat, j: nat)
    requires investment >= 0.0 && rate >= 0.0 && termMonths != 0
    requires i <= j <= termMonths
    ensures Series(investment, rate, termMonths, 0, Month)[i].value <= Series(investment, rate, termMonths, 0, Month)[j].value
  {
    PowMonotoneExponent(1.0 + rate / 12.0, i, j);
    assert investment * Pow(1.0 + rate / 12.0, i) <= investment * Pow(1.0 + rate / 12.0, j);
  }

  /** 12 months at 4% on 10 000 give 13 points from 10 000 to 10 000 * (1 + 0.04/12)^12. */
  lemma TwelveMonthExample()
    ensures |Series(10000.0, 0.04, 12, 0, Month)| == 13
    ensures Series(10000.0, 0.04, 12, 0, Month)[0].value == 10000.0
    ensures Series(10000.0, 0.04, 12, 0, Month)[12].value == 10000.0 * Pow(1.0 + 0.04 / 12.0, 12)
  {
    MonthSeriesShape(10000.0, 0.04, 12);
  }
}
