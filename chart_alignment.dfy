/**
 * The data the comparison chart of the results screen plots (src/components/Results.tsx):
 * one line per selected product, merged into one entry per x position, with `null` where a
 * line has no value.
 */
module ChartAlignment {
  import opened Wrappers
  import opened Catalog
  import opened Projection
  import opened GrowthSeries
  import opened ComparisonSeries
  import opened Labels

  /** The amount a selected product's line starts from: the tab's bucket for CDs and money markets. */
  function LineInvestment(p: Product, tab: int, a: Allocation): real
  {
    var byTab := if tab == 0 then a.shortTerm else if tab == 1 then a.intermediate else a.longTerm;
    if p.kind == Annuity then a.longTerm
    else if p.kind == LifeInsurance then a.never
    else if p.kind == CD || p.kind == MoneyMarket then byTab
    else 0.0
  }

  /** A line of the chart: its legend label and its points. The colour is left out. */
  datatype ChartLine = ChartLine(name: string, data: seq<Point>)

  /**
   * `chartLines`: one line per selected product, in selection order, each under a non-empty
   * label and starting, when it has points, at the amount the product's line starts from.
   */
  function ChartLines(selected: seq<Product>, tab: int, a: Allocation, who: Profile): (r: seq<ChartLine>)
    requires forall i :: 0 <= i < |selected| ==> ChartReady(selected[i])
    ensures |r| == |selected|
    ensures forall i :: 0 <= i < |r| ==> r[i].name != ""
    ensures forall i :: 0 <= i < |r| && r[i].data != [] ==> r[i].data[0].value == LineInvestment(selected[i], tab, a)
  {
    seq(|selected|, i requires 0 <= i < |selected| =>
      ChartLine(ProductLabel(selected[i]), ComparisonSeriesOf(selected[i], LineInvestment(selected[i], tab, a), who)))
  }

  /**
   * `Math.max(...lengths)`, where an empty list gives 0: `Math.max()` is `-Infinity`, which
   * `Array.from` reads as length 0.
   */
  function MaxLength(lines: seq<ChartLine>): (r: nat)
    ensures forall j :: 0 <= j < |lines| ==> |lines[j].data| <= r
    ensures lines != [] ==> exists j :: 0 <= j < |lines| && |lines[j].data| == r
    ensures lines == [] ==> r == 0
  {
    if lines == [] then 0
    else
      var rest := MaxLength(lines[1..]);
      if |lines[0].data| >= rest then |lines[0].data| else rest
  }

  /** A field of an entry: the `x` position, or a line's value (`None` is `null`). */
  datatype Cell = TimeCell(time: Time) | ValueCell(value: Option<real>)

  /** `line.data[i]?.value || null`: a missing point and a point of value 0 both give `null`. */
  function CellValue(line: ChartLine, i: nat): (r: Option<real>)
    ensures r == None <==> i >= |line.data| || line.data[i].value == 0.0
    ensures r.Some? ==> r.value != 0.0 && r.value == line.data[i].value
  {
    if i < |line.data| && line.data[i].value != 0.0 then Some(line.data[i].value) else None
  }

  /**
   * One step of the `forEach`: write the line's value under its label, then its time under `x`
   * when it has a point here. Every other field, and `x` when the line has no point here, is kept.
   */
  function WriteLine(entry: map<string, Cell>, line: ChartLine, i: nat): (r: map<string, Cell>)
    ensures r.Keys == entry.Keys + {line.name} + (if i < |line.data| then {"x"} else {})
    ensures line.name != "x" ==> r[line.name] == ValueCell(CellValue(line, i))
    ensures i < |line.data| ==> r["x"] == TimeCell(line.data[i].time)
    ensures forall key :: key in entry && key != line.name && (key != "x" || i >= |line.data|) ==> r[key] == entry[key]
  {
    var e := entry[line.name := ValueCell(CellValue(line, i))];
    if i < |line.data| then e["x" := TimeCell(line.data[i].time)] else e
  }

  /** The entry at position `i` once every line has been written into `{ x: i }`, in order. */
  function EntryAt(lines: seq<ChartLine>, i: nat): (r: map<string, Cell>)
    ensures "x" in r
    ensures forall j :: 0 <= j < |lines| ==> lines[j].name in r
  {
    if lines == [] then map["x" := TimeCell(Step(i))]
    else WriteLine(EntryAt(lines[..|lines| - 1], i), lines[|lines| - 1], i)
  }

  /** `chartData`: one entry per position up to the longest line, so no line is cut short. */
  function ChartData(lines: seq<ChartLine>): (r: seq<map<string, Cell>>)
    ensures |r| == MaxLength(lines)
    ensures forall j :: 0 <= j < |lines| ==> |lines[j].data| <= |r|
  {
    seq(MaxLength(lines), i requires 0 <= i => EntryAt(lines, i))
  }

  /** The callback of `Array.from`: a fresh `{ x: i }` that every line in turn writes into. */
  method BuildEntry(lines: seq<ChartLine>, i: nat) returns (entry: map<string, Cell>)
    ensures entry == EntryAt(lines, i)
  {
    entry := map["x" := TimeCell(Step(i))];
    var k := 0;
    while k < |lines|
      invariant k <= |lines|
      invariant entry == EntryAt(lines[..k], i)
    {
      var line := lines[k];
      ghost var before := entry;
      var value := if i < |line.data| && line.data[i].value != 0.0 then Some(line.data[i].value) else None;
      entry := entry[line.name := ValueCell(value)];
      if i < |line.data| {
        entry := entry["x" := TimeCell(line.data[i].time)];
      }
      assert entry == WriteLine(before, line, i);
      assert lines[..k + 1][..k] == lines[..k] && lines[..k + 1][k] == line;
      k := k + 1;
    }
    assert lines[..|lines|] == lines;
  }

  /** The alignment: one entry per position up to the longest line. */
  method AlignChart(lines: seq<ChartLine>) returns (chartData: seq<map<string, Cell>>)
    ensures chartData == ChartData(lines)
  {
    var maxLength := MaxLength(lines);
    chartData := [];
    var i := 0;
    while i < maxLength
      invariant i <= maxLength && |chartData| == i
      invariant forall j :: 0 <= j < i ==> chartData[j] == EntryAt(lines, j)
    {
      var entry := BuildEntry(lines, i);
      chartData := chartData + [entry];
      i := i + 1;
    }
  }

  /** The labels of the lines. */
  function LineNames(lines: seq<ChartLine>): set<string>
  {
    set j | 0 <= j < |lines| :: lines[j].name
  }

  /** Every entry holds `x` and one field per label, and nothing else. */
  lemma {:induction false} EntryKeys(lines: seq<ChartLine>, i: nat)
    ensures EntryAt(lines, i).Keys == {"x"} + LineNames(lines)
  {
    if lines != [] {
      var init := lines[..|lines| - 1];
      EntryKeys(init, i);
      assert LineNames(lines) == LineNames(init) + {lines[|lines| - 1].name} by {
        forall l | l in LineNames(lines)
          ensures l in LineNames(init) + {lines[|lines| - 1].name}
        {
          var j :| 0 <= j < |lines| && lines[j].name == l;
          if j < |lines| - 1 {
            assert init[j] == lines[j];
          }
        }
        forall l | l in LineNames(init)
          ensures l in LineNames(lines)
        {
          var j :| 0 <= j < |init| && init[j].name == l;
          assert lines[j] == init[j];
        }
      }
    }
  }

  /**
   * The last line to write a label decides its field: when several lines share a label, the
   * later line's value hides the earlier one's.
   */
  lemma {:induction false} LastWriterWins(lines: seq<ChartLine>, i: nat, j: nat)
    requires j < |lines| && lines[j].name != "x"
    requires forall k :: j < k < |lines| ==> lines[k].name != lines[j].name
    ensures lines[j].name in EntryAt(lines, i)
    ensures EntryAt(lines, i)[lines[j].name] == ValueCell(CellValue(lines[j], i))
  {
    var init := lines[..|lines| - 1];
    if j < |lines| - 1 {
      forall k | j < k < |init|
        ensures init[k].name != init[j].name
      {
        assert init[k] == lines[k];
      }
      assert init[j] == lines[j];
      LastWriterWins(init, i, j);
    }
  }

  /** Past the end of a line, and where its value is 0, the line's field is `null`. */
  lemma NullWhereNoValue(lines: seq<ChartLine>, i: nat, j: nat)
    requires j < |lines| && lines[j].name != "x"
    requires forall k :: j < k < |lines| ==> lines[k].name != lines[j].name
    requires i >= |lines[j].data| || lines[j].data[i].value == 0.0
    ensures EntryAt(lines, i)[lines[j].name] == ValueCell(None)
  {
    LastWriterWins(lines, i, j);
  }

  /** A non-zero point of a line appears in its field at its own position. */
  lemma ValueWherePoint(lines: seq<ChartLine>, i: nat, j: nat)
    requires j < |lines| && lines[j].name != "x"
    requires forall k :: j < k < |lines| ==> lines[k].name != lines[j].name
    requires i < |lines[j].data| && lines[j].data[i].value != 0.0
    ensures EntryAt(lines, i)[lines[j].name] == ValueCell(Some(lines[j].data[i].value))
  {
    LastWriterWins(lines, i, j);
  }

  /** With no line labelled `x`: `x` is `i` where no line has a point, and otherwise the time of the last line that has one. */
  lemma {:induction false} PositionField(lines: seq<ChartLine>, i: nat)
    requires forall k :: 0 <= k < |lines| ==> lines[k].name != "x"
    ensures (forall k :: 0 <= k < |lines| ==> i >= |lines[k].data|) ==> EntryAt(lines, i)["x"] == TimeCell(Step(i))
    ensures forall j :: 0 <= j < |lines| && i < |lines[j].data| && (forall k :: j < k < |lines| ==> i >= |lines[k].data|) ==>
              EntryAt(lines, i)["x"] == TimeCell(lines[j].data[i].time)
  {
    if lines != [] {
      var n := |lines| - 1;
      var init, last := lines[..n], lines[n];
      assert forall k :: 0 <= k < |init| ==> init[k] == lines[k];
      var before := EntryAt(init, i);
      assert EntryAt(lines, i) == WriteLine(before, last, i);
      if i >= |last.data| {
        assert EntryAt(lines, i)["x"] == before["x"];
        PositionField(init, i);
      } else {
        assert EntryAt(lines, i)["x"] == TimeCell(last.data[i].time);
      }
    }
  }
}
