/** The traces and layout the plot view derives from a text table, the
    selected column indices and the chosen plot type: nothing for no
    column, one trace against the row number for one column, one x–y trace
    for two columns, and one trace per column for more. */
module PlotVisualization {
  import opened Wrappers
  import opened JsText
  import opened JsNumber

  datatype PlotType = LinePlot | ScatterPlot | BarPlot | Histogram | BoxPlot

  /** The plot type's own string. */
  function TypeName(t: PlotType): string {
    match t
    case LinePlot => "line"
    case ScatterPlot => "scatter"
    case BarPlot => "bar"
    case Histogram => "histogram"
    case BoxPlot => "box"
  }

  /** One Plotly trace; `None` stands for an `undefined` property. */
  datatype Trace = Trace(x: seq<real>, y: seq<real>, traceType: string, mode: Option<string>,
                         name: string, markerSize: Option<int>, color: string)

  datatype Layout = Layout(title: string, xTitle: Option<string>, yTitle: Option<string>,
                           showLegend: Option<bool>)

  datatype PlotData = PlotData(traces: seq<Trace>, layout: Layout)

  const Palette: seq<string> := ["#3b82f6", "#10b981", "#f59e0b", "#ef4444", "#8b5cf6", "#ec4899"]

  /** `row[i]`, absent past the end of the row. */
  function Cell(row: seq<string>, i: nat): Option<string> {
    if i < |row| then Some(row[i]) else None
  }

  /** `parseFloat(row[i])`; an absent cell is NaN. */
  function CellNumber(row: seq<string>, i: nat): Option<real> {
    match Cell(row, i)
    case None => None
    case Some(s) => ParseFloat(s)
  }

  /** `data.map(row => parseFloat(row[col]))`. */
  function Parsed(data: seq<seq<string>>, col: nat): (r: seq<Option<real>>)
    ensures |r| == |data|
  {
    seq(|data|, i requires 0 <= i < |data| => CellNumber(data[i], col))
  }

  /** `.filter(v => !isNaN(v))`. */
  function Numbers(s: seq<Option<real>>): (r: seq<real>)
    ensures |r| <= |s|
    decreases |s|
  {
    if |s| == 0 then []
    else
      var rest := Numbers(s[..|s| - 1]);
      if s[|s| - 1].Some? then rest + [s[|s| - 1].value] else rest
  }

  /** The numeric values of column `col`, in row order. */
  function ColumnValues(data: seq<seq<string>>, col: nat): (r: seq<real>)
    ensures |r| <= |data|
  {
    Numbers(Parsed(data, col))
  }

  /** The row numbers 1..n as the x values. */
  function Positions(n: nat): (r: seq<real>)
    ensures |r| == n && forall i :: 0 <= i < n ==> r[i] == (i + 1) as real
  {
    seq(n, i => (i + 1) as real)
  }

  /** `headers[i] || \`Column ${i + 1}\``: a missing or empty header falls back. */
  function ColumnName(headers: seq<string>, i: nat): (r: string)
    ensures |r| > 0
  {
    if i < |headers| && headers[i] != "" then headers[i] else "Column " + NatToString(i + 1)
  }

  /** `${headers[i]}` inside a template: "undefined" past the end. */
  function HeaderText(headers: seq<string>, i: nat): string {
    if i < |headers| then headers[i] else "undefined"
  }

  /** `headers[i]` as a property value. */
  function Header(headers: seq<string>, i: nat): Option<string> {
    if i < |headers| then Some(headers[i]) else None
  }

  function Mode(t: PlotType): Option<string> {
    if t == ScatterPlot then Some("markers") else if t == LinePlot then Some("lines+markers") else None
  }

  function MarkerSize(t: PlotType): Option<int> {
    if t == ScatterPlot then Some(8) else None
  }

  /** `plotType.charAt(0).toUpperCase() + plotType.slice(1)` followed by " Plot". */
  function SingleTitle(t: PlotType): string {
    match t
    case LinePlot => "Line Plot"
    case ScatterPlot => "Scatter Plot"
    case BarPlot => "Bar Plot"
    case Histogram => "Histogram Plot"
    case BoxPlot => "Box Plot"
  }

  /** The trace of one column against its row numbers, in colour `color`. */
  function ColumnTrace(data: seq<seq<string>>, headers: seq<string>, col: nat, t: PlotType,
                       color: string): Trace
  {
    var y := ColumnValues(data, col);
    Trace(Positions(|y|), y, TypeName(t), Mode(t), ColumnName(headers, col), MarkerSize(t), color)
  }

  function SingleColumn(data: seq<seq<string>>, headers: seq<string>, col: nat, t: PlotType): PlotData {
    PlotData([ColumnTrace(data, headers, col, t, Palette[0])],
             Layout(SingleTitle(t),
                    if t == Histogram then Header(headers, col) else Some("Index"),
                    Some(if t == Histogram then "Frequency" else ColumnName(headers, col)),
                    None))
  }

  function TwoColumns(data: seq<seq<string>>, headers: seq<string>, xCol: nat, yCol: nat, t: PlotType): PlotData {
    var xs, ys := ColumnValues(data, xCol), ColumnValues(data, yCol);
    var m := if |xs| < |ys| then |xs| else |ys|;
    var title := HeaderText(headers, yCol) + " vs " + HeaderText(headers, xCol);
    PlotData([Trace(xs[..m], ys[..m],
                    if t == Histogram || t == BoxPlot then "scatter" else TypeName(t),
                    Mode(t), title, MarkerSize(t), Palette[0])],
             Layout(title, Some(ColumnName(headers, xCol)), Some(ColumnName(headers, yCol)), None))
  }

  function MultiColumn(data: seq<seq<string>>, headers: seq<string>, cols: seq<nat>, t: PlotType): PlotData {
    PlotData(seq(|cols|, k requires 0 <= k < |cols| => ColumnTrace(data, headers, cols[k], t, Palette[k % |Palette|])),
             Layout("Multi-Column Comparison", Some("Index"), Some("Value"), Some(true)))
  }

  /** `plotData`: `None` is the `null` of no selected column. */
  function Derive(data: seq<seq<string>>, headers: seq<string>, cols: seq<nat>, t: PlotType): (r: Option<PlotData>)
    ensures r.None? <==> |cols| == 0
  {
    if |cols| == 0 then None
    else if |cols| == 1 then Some(SingleColumn(data, headers, cols[0], t))
    else if |cols| == 2 then Some(TwoColumns(data, headers, cols[0], cols[1], t))
    else Some(MultiColumn(data, headers, cols, t))
  }

  // ---- Properties ----

  lemma {:induction false} NumbersMembers(s: seq<Option<real>>, v: real)
    ensures v in Numbers(s) <==> Some(v) in s
    decreases |s|
  {
    if |s| > 0 {
      NumbersMembers(s[..|s| - 1], v);
      assert s == s[..|s| - 1] + [s[|s| - 1]];
    }
  }

  lemma {:induction false} NumbersAppend(a: seq<Option<real>>, b: seq<Option<real>>)
    ensures Numbers(a + b) == Numbers(a) + Numbers(b)
    decreases |b|
  {
    if |b| == 0 {
      assert a + b == a;
    } else {
      assert (a + b)[..|a + b| - 1] == a + b[..|b| - 1];
      NumbersAppend(a, b[..|b| - 1]);
    }
  }

  /** The values of a column are its numeric cells, and only those ... */
  lemma ColumnValuesMembers(data: seq<seq<string>>, col: nat, v: real)
    ensures v in ColumnValues(data, col) <==> exists i :: 0 <= i < |data| && CellNumber(data[i], col) == Some(v)
  {
    var p := Parsed(data, col);
    NumbersMembers(p, v);
    if Some(v) in p {
      var i :| 0 <= i < |p| && p[i] == Some(v);
      assert CellNumber(data[i], col) == Some(v);
    }
    if exists i :: 0 <= i < |data| && CellNumber(data[i], col) == Some(v) {
      var i :| 0 <= i < |data| && CellNumber(data[i], col) == Some(v);
      assert p[i] == Some(v);
    }
  }

  /** ... in row order: the values of the rows taken piecewise are the
      pieces' values joined. */
  lemma ColumnValuesAppend(a: seq<seq<string>>, b: seq<seq<string>>, col: nat)
    ensures ColumnValues(a + b, col) == ColumnValues(a, col) + ColumnValues(b, col)
  {
    assert Parsed(a + b, col) == Parsed(a, col) + Parsed(b, col);
    NumbersAppend(Parsed(a, col), Parsed(b, col));
  }

  /** No selection gives no plot; one column gives one trace of its values
      against 1..n. */
  lemma SingleColumnSpec(data: seq<seq<string>>, headers: seq<string>, col: nat, t: PlotType)
    ensures var r := Derive(data, headers, [col], t);
      && r.Some? && |r.value.traces| == 1
      && r.value.traces[0].y == ColumnValues(data, col)
      && |r.value.traces[0].x| == |r.value.traces[0].y|
      && (forall i :: 0 <= i < |r.value.traces[0].x| ==> r.value.traces[0].x[i] == (i + 1) as real)
      && r.value.traces[0].traceType == TypeName(t)
  {
  }

  /** Two columns: both value lists cut to the shorter one, so x and y have
      the same length, each a prefix of its column's values; histogram and
      box become scatter. */
  lemma TwoColumnSpec(data: seq<seq<string>>, headers: seq<string>, xCol: nat, yCol: nat, t: PlotType)
    ensures var r := Derive(data, headers, [xCol, yCol], t);
      var xs, ys := ColumnValues(data, xCol), ColumnValues(data, yCol);
      && r.Some? && |r.value.traces| == 1
      && |r.value.traces[0].x| == |r.value.traces[0].y|
      && |r.value.traces[0].x| == (if |xs| < |ys| then |xs| else |ys|)
      && r.value.traces[0].x <= xs && r.value.traces[0].y <= ys
      && (t == Histogram || t == BoxPlot ==> r.value.traces[0].traceType == "scatter")
      && (t != Histogram && t != BoxPlot ==> r.value.traces[0].traceType == TypeName(t))
  {
  }

  /** Three or more columns: one trace per column, in order, coloured
      round the six-colour palette. */
  lemma MultiColumnSpec(data: seq<seq<string>>, headers: seq<string>, cols: seq<nat>, t: PlotType)
    requires |cols| >= 3
    ensures var r := Derive(data, headers, cols, t);
      && r.Some? && |r.value.traces| == |cols|
      && forall k :: 0 <= k < |cols| ==>
        r.value.traces[k].y == ColumnValues(data, cols[k])
        && r.value.traces[k].name == ColumnName(headers, cols[k])
        && r.value.traces[k].color == Palette[k % 6]
        && (k + 6 < |cols| ==> r.value.traces[k + 6].color == r.value.traces[k].color)
  {
    var traces := MultiColumn(data, headers, cols, t).traces;
    assert |Palette| == 6;
    forall k | 0 <= k < |cols|
      ensures traces[k] == ColumnTrace(data, headers, cols[k], t, Palette[k % 6])
    {
    }
    forall k | 0 <= k < |cols| && k + 6 < |cols|
      ensures traces[k + 6].color == traces[k].color
    {
      assert (k + 6) % 6 == k % 6;
    }
  }

  /** The mode is "markers" exactly for scatter plots and "lines+markers"
      exactly for line plots, and undefined otherwise. */
  lemma ModeSpec(t: PlotType)
    ensures Mode(t) == Some("markers") <==> t == ScatterPlot
    ensures Mode(t) == Some("lines+markers") <==> t == LinePlot
    ensures Mode(t).None? <==> t !in {ScatterPlot, LinePlot}
  {
  }

  /** A header that is missing or empty is shown as "Column <i+1>"; a
      present one as itself. */
  lemma ColumnNameFallback(headers: seq<string>, i: nat)
    ensures i < |headers| && headers[i] != "" ==> ColumnName(headers, i) == headers[i]
    ensures !(i < |headers| && headers[i] != "") ==> StartsWith(ColumnName(headers, i), "Column ")
  {
    var r := "Column " + NatToString(i + 1);
    assert r[..7] == "Column ";
  }

  /** Because the two columns are filtered separately, a NaN in one column
      shifts the pairing: when the first row has no y cell, the y of the
      second row is paired with the x of the first row. */
  lemma TwoColumnPairingShifts(a: string, b: string, c: string, t: PlotType)
    requires ParseFloat(a).Some? && ParseFloat(b).Some? && ParseFloat(c).Some?
    ensures var r := Derive([[a], [b, c]], [], [0, 1], t);
      && r.Some? && r.value.traces[0].x == [ParseFloat(a).value]
      && r.value.traces[0].y == [ParseFloat(c).value]
  {
    var data := [[a], [b, c]];
    var px: seq<Option<real>> := [ParseFloat(a), ParseFloat(b)];
    var py: seq<Option<real>> := [None, ParseFloat(c)];
    assert Parsed(data, 0) == px;
    assert Parsed(data, 1) == py;
    assert px[..1] == [ParseFloat(a)] && py[..1] == [None];
    assert Numbers(px) == [ParseFloat(a).value, ParseFloat(b).value];
    assert Numbers(py) == [ParseFloat(c).value];
  }

  /** For instance the rows "1" and "2","5" plot the single point (1, 5). */
  lemma PairingShiftExample()
    ensures Derive([["1"], ["2", "5"]], [], [0, 1], ScatterPlot).value.traces[0].x == [1.0]
    ensures Derive([["1"], ["2", "5"]], [], [0, 1], ScatterPlot).value.traces[0].y == [5.0]
  {
    ParseFloatOfNat(1);
    ParseFloatOfNat(2);
    ParseFloatOfNat(5);
    assert NatToString(1) == "1" && NatToString(2) == "2" && NatToString(5) == "5";
    TwoColumnPairingShifts("1", "2", "5", ScatterPlot);
  }
}
