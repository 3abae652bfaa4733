/** The plot builders: each picks its columns from a parsed table by name,
    fails when a required column is missing, and copies the chosen columns
    row by row into the traces of a plot description. */
module PlotConfigs {
  import opened Wrappers
  import opened JsText
  import opened JsNumber
  import opened BaseParser

  datatype PlotKind = CvPlot | NyquistPlot | LinePlot | BatteryCyclingPlot
  datatype Scale = Linear | Log

  /** The `xAxis`/`yAxis` description: which column, its label, its scale. */
  datatype Axis = Axis(column: string, caption: string, scale: Scale)

  /** One trace: the x and y values, the drawing mode and name, the colour
      and line width, and the marker size when markers are drawn. */
  datatype Trace = Trace(x: seq<Cell>, y: seq<Cell>, mode: string, name: string,
                         color: string, lineWidth: nat, markerSize: Option<nat>)

  /** The layout axis options the builders set: a title, a log type, the
      zero line, and the `scaleanchor: 'x'` / `scaleratio` pair. */
  datatype LayoutAxis = LayoutAxis(title: string, logType: bool, zeroLine: bool,
                                   anchoredToX: bool, scaleRatio: Option<nat>)

  datatype Layout = Layout(title: string, xaxis: LayoutAxis, yaxis: LayoutAxis,
                           showLegend: Option<bool>)

  datatype PlotConfig = PlotConfig(kind: PlotKind, xAxis: Axis, yAxis: Axis,
                                   traces: seq<Trace>, layout: Layout)

  const Blue := "#2563eb"
  const Red := "#dc2626"

  function PlainAxis(title: string): LayoutAxis {
    LayoutAxis(title, false, false, false, None)
  }

  // ---- Column lookup ----

  /** `columns.findIndex(test)`, with -1 as `None`: the first column passing. */
  function FindIndex(columns: seq<string>, test: string -> bool): (r: Option<nat>)
    ensures r.Some? ==> r.value < |columns| && test(columns[r.value])
    ensures r.Some? ==> forall j :: 0 <= j < r.value ==> !test(columns[j])
    ensures r.None? <==> forall j :: 0 <= j < |columns| ==> !test(columns[j])
    decreases |columns|
  {
    if |columns| == 0 then None
    else if test(columns[0]) then Some(0)
    else
      match FindIndex(columns[1..], test)
      case None => None
      case Some(k) => Some(k + 1)
  }

  /** `columns.indexOf(name)`: the first column equal to `name`. */
  function IndexOf(columns: seq<string>, name: string): (r: Option<nat>)
    ensures r.Some? ==> r.value < |columns| && columns[r.value] == name
    ensures r.Some? ==> name !in columns[..r.value]
    ensures r.None? <==> name !in columns
    decreases |columns|
  {
    if |columns| == 0 then None
    else if columns[0] == name then Some(0)
    else
      match IndexOf(columns[1..], name)
      case None => None
      case Some(k) =>
        assert columns[..k + 1] == [columns[0]] + columns[1..][..k];
        Some(k + 1)
  }

  /** `row[idx]`: past the end of the row it reads `undefined`. */
  function CellAt(row: seq<Cell>, idx: nat): Cell {
    if idx < |row| then row[idx] else Undefined
  }

  /** `rows.map(row => row[idx])`. */
  function ColumnValues(rows: seq<seq<Cell>>, idx: nat): (r: seq<Cell>)
    ensures |r| == |rows|
    ensures forall i :: 0 <= i < |rows| ==> r[i] == CellAt(rows[i], idx)
  {
    seq(|rows|, i requires 0 <= i < |rows| => CellAt(rows[i], idx))
  }

  // ---- Cyclic voltammetry ----

  predicate IsPotentialColumn(c: string) {
    var l := ToLower(c);
    Contains(l, "ewe") || Contains(l, "potential") || Contains(l, "voltage")
  }

  /** The current test as written: "i" without "time", or "current". */
  predicate IsCurrentColumn(c: string) {
    var l := ToLower(c);
    (Contains(l, "i") && !Contains(l, "time")) || Contains(l, "current")
  }

  const CvColumnsMissing := "Could not find potential and current columns for CV plot"

  /** `createCVPlot`. */
  function CreateCVPlot(data: ParsedData): (r: Result<PlotConfig>)
    ensures r.Err? <==>
      FindIndex(data.columns, IsPotentialColumn).None? || FindIndex(data.columns, IsCurrentColumn).None?
    ensures r.Err? ==> r.message == CvColumnsMissing
    ensures r.Ok? ==>
      var p := FindIndex(data.columns, IsPotentialColumn).value;
      var c := FindIndex(data.columns, IsCurrentColumn).value;
      && r.value.kind == CvPlot
      && r.value.xAxis.column == data.columns[p] && r.value.yAxis.column == data.columns[c]
      && |r.value.traces| == 1
      && r.value.traces[0].x == ColumnValues(data.rows, p)
      && r.value.traces[0].y == ColumnValues(data.rows, c)
  {
    var columns, rows := data.columns, data.rows;
    match (FindIndex(columns, IsPotentialColumn), FindIndex(columns, IsCurrentColumn))
    case (Some(p), Some(c)) =>
      var zero := LayoutAxis(columns[p], false, true, false, None);
      Ok(PlotConfig(
        CvPlot,
        Axis(columns[p], columns[p], Linear),
        Axis(columns[c], columns[c], Linear),
        [Trace(ColumnValues(rows, p), ColumnValues(rows, c), "lines", "CV Curve", Blue, 2, None)],
        Layout("Cyclic Voltammogram", zero, zero.(title := columns[c]), Some(false))))
    case _ => Err(CvColumnsMissing)
  }

  /** A header naming a potential and not a time passes the current test as
      well, since "potential" contains an "i". */
  lemma PotentialPassesCurrentTest(c: string)
    requires Contains(ToLower(c), "potential") && !Contains(ToLower(c), "time")
    ensures IsPotentialColumn(c) && IsCurrentColumn(c)
  {
    assert "potential"[6..7] == "i";
    ContainsAt("potential", "i", 6);
    ContainsTransitive(ToLower(c), "potential", "i");
  }

  /** So when such a header comes first, the CV plot draws that one column
      against itself. */
  lemma CvAxesMayCoincide(data: ParsedData)
    requires |data.columns| >= 1
    requires Contains(ToLower(data.columns[0]), "potential") && !Contains(ToLower(data.columns[0]), "time")
    ensures CreateCVPlot(data).Ok?
    ensures CreateCVPlot(data).value.traces[0].x == CreateCVPlot(data).value.traces[0].y
  {
    PotentialPassesCurrentTest(data.columns[0]);
  }

  // ---- Nyquist ----

  predicate IsRealImpedanceColumn(c: string) {
    var l := ToLower(c);
    Contains(l, "re(z)") || Contains(l, "z'") || Contains(l, "zreal")
  }

  predicate IsImagImpedanceColumn(c: string) {
    var l := ToLower(c);
    Contains(l, "-im(z)") || Contains(l, "z''") || Contains(l, "zimag")
  }

  /** A `Z''` header also passes the real-part test, because it contains `Z'`. */
  lemma DoublePrimePassesRealTest(c: string)
    requires Contains(ToLower(c), "z''")
    ensures IsRealImpedanceColumn(c)
  {
    ContainsAt("z''", "z'", 0);
    ContainsTransitive(ToLower(c), "z''", "z'");
  }

  /** The number `<` and unary `-` see in a cell (`None` for NaN). */
  function NumericValue(v: Cell): Option<real> {
    match v
    case Num(n) => Some(n)
    case Text(s) => ToNumber(s)
    case NaN => None
    case Undefined => None
  }

  /** `val < 0 ? val : -val`: a negative value is kept as it is (a string
      too), anything else is negated into a number, NaN for a non-number. */
  function NyquistY(v: Cell): (r: Cell)
    ensures NumericValue(r).Some? <==> NumericValue(v).Some?
    ensures NumericValue(r).Some? ==> NumericValue(r).value <= 0.0
    ensures NumericValue(r).Some? ==>
      NumericValue(r).value == -Abs(NumericValue(v).value)
  {
    match NumericValue(v)
    case Some(n) => if n < 0.0 then v else Num(-n)
    case None => NaN
  }

  function Abs(x: real): real {
    if x < 0.0 then -x else x
  }

  /** The sign normalisation is idempotent. */
  lemma NyquistYIdempotent(v: Cell)
    ensures NyquistY(NyquistY(v)) == NyquistY(v)
  {
  }

  const NyquistColumnsMissing := "Could not find impedance columns for Nyquist plot"

  /** `createNyquistPlot`: x is the real part as it is; y is the imaginary
      part made non-positive; the y axis is tied to x at ratio 1. */
  function CreateNyquistPlot(data: ParsedData): (r: Result<PlotConfig>)
    ensures r.Err? <==>
      FindIndex(data.columns, IsRealImpedanceColumn).None? || FindIndex(data.columns, IsImagImpedanceColumn).None?
    ensures r.Err? ==> r.message == NyquistColumnsMissing
    ensures r.Ok? ==>
      var re := FindIndex(data.columns, IsRealImpedanceColumn).value;
      var im := FindIndex(data.columns, IsImagImpedanceColumn).value;
      && |r.value.traces| == 1
      && r.value.traces[0].x == ColumnValues(data.rows, re)
      && |r.value.traces[0].y| == |data.rows|
      && (forall i :: 0 <= i < |data.rows| ==>
            r.value.traces[0].y[i] == NyquistY(CellAt(data.rows[i], im)))
      && r.value.layout.yaxis.anchoredToX && r.value.layout.yaxis.scaleRatio == Some(1)
  {
    var columns, rows := data.columns, data.rows;
    match (FindIndex(columns, IsRealImpedanceColumn), FindIndex(columns, IsImagImpedanceColumn))
    case (Some(re), Some(im)) =>
      var ys := seq(|rows|, i requires 0 <= i < |rows| => NyquistY(CellAt(rows[i], im)));
      Ok(PlotConfig(
        NyquistPlot,
        Axis(columns[re], "Z' (\U{03A9})", Linear),
        Axis(columns[im], "-Z'' (\U{03A9})", Linear),
        [Trace(ColumnValues(rows, re), ys, "lines+markers", "Nyquist", Blue, 2, Some(6))],
        Layout("Nyquist Plot", PlainAxis("Z' (\U{03A9})"),
               LayoutAxis("-Z'' (\U{03A9})", false, false, true, Some(1)), Some(false))))
    case _ => Err(NyquistColumnsMissing)
  }

  /** Every numeric y of a Nyquist plot is at most 0, and renormalising the
      y values changes nothing. */
  lemma NyquistYNonPositive(data: ParsedData)
    requires CreateNyquistPlot(data).Ok?
    ensures var ys := CreateNyquistPlot(data).value.traces[0].y;
      forall i :: 0 <= i < |ys| ==>
        (NumericValue(ys[i]).Some? ==> NumericValue(ys[i]).value <= 0.0)
        && NyquistY(ys[i]) == ys[i]
  {
    var ys := CreateNyquistPlot(data).value.traces[0].y;
    var im := FindIndex(data.columns, IsImagImpedanceColumn).value;
    forall i | 0 <= i < |ys| ensures NyquistY(ys[i]) == ys[i] {
      NyquistYIdempotent(CellAt(data.rows[i], im));
    }
  }

  // ---- Bode ----

  predicate IsFrequencyColumn(c: string) {
    var l := ToLower(c);
    Contains(l, "freq") || Contains(l, "frequency")
  }

  predicate IsMagnitudeColumn(c: string) {
    var l := ToLower(c);
    Contains(l, "|z|") || Contains(l, "magnitude") || Contains(l, "modulus")
  }

  predicate IsPhaseColumn(c: string) {
    var l := ToLower(c);
    Contains(l, "phase") || Contains(l, "phi")
  }

  const BodeColumnsMissing := "Could not find frequency, magnitude, and phase columns for Bode plot"

  /** `createBodePlot`: a magnitude plot (log-log) and a phase plot (log x,
      linear y) over the same frequency column. */
  function CreateBodePlot(data: ParsedData): (r: Result<seq<PlotConfig>>)
    ensures r.Err? <==>
      FindIndex(data.columns, IsFrequencyColumn).None? || FindIndex(data.columns, IsMagnitudeColumn).None?
      || FindIndex(data.columns, IsPhaseColumn).None?
    ensures r.Err? ==> r.message == BodeColumnsMissing
    ensures r.Ok? ==>
      var f := FindIndex(data.columns, IsFrequencyColumn).value;
      && |r.value| == 2
      && r.value[0].xAxis == r.value[1].xAxis && r.value[0].xAxis.column == data.columns[f]
      && r.value[0].xAxis.scale == Log && r.value[0].yAxis.scale == Log
      && r.value[1].yAxis.scale == Linear
      && r.value[0].layout.xaxis.logType && r.value[0].layout.yaxis.logType
      && r.value[1].layout.xaxis.logType && !r.value[1].layout.yaxis.logType
      && |r.value[0].traces| == 1 && |r.value[1].traces| == 1
      && r.value[0].traces[0].x == r.value[1].traces[0].x == ColumnValues(data.rows, f)
      && r.value[0].traces[0].y == ColumnValues(data.rows, FindIndex(data.columns, IsMagnitudeColumn).value)
      && r.value[1].traces[0].y == ColumnValues(data.rows, FindIndex(data.columns, IsPhaseColumn).value)
  {
    var columns, rows := data.columns, data.rows;
    match (FindIndex(columns, IsFrequencyColumn), FindIndex(columns, IsMagnitudeColumn),
           FindIndex(columns, IsPhaseColumn))
    case (Some(f), Some(m), Some(p)) =>
      var freq := ColumnValues(rows, f);
      var xAxis := Axis(columns[f], "Frequency (Hz)", Log);
      var logX := LayoutAxis("Frequency (Hz)", true, false, false, None);
      Ok([
        PlotConfig(LinePlot, xAxis, Axis(columns[m], "|Z| (\U{03A9})", Log),
          [Trace(freq, ColumnValues(rows, m), "lines+markers", "Magnitude", Blue, 2, Some(5))],
          Layout("Bode Plot - Magnitude", logX, LayoutAxis("|Z| (\U{03A9})", true, false, false, None), None)),
        PlotConfig(LinePlot, xAxis, Axis(columns[p], "Phase (\U{00B0})", Linear),
          [Trace(freq, ColumnValues(rows, p), "lines+markers", "Phase", Red, 2, Some(5))],
          Layout("Bode Plot - Phase", logX, PlainAxis("Phase (\U{00B0})"), None))
      ])
    case _ => Err(BodeColumnsMissing)
  }

  /** The "frequency" alternative adds nothing to the "freq" test. */
  lemma FrequencyTestIsFreq(c: string)
    ensures IsFrequencyColumn(c) <==> Contains(ToLower(c), "freq")
  {
    if Contains(ToLower(c), "frequency") {
      ContainsAt("frequency", "freq", 0);
      ContainsTransitive(ToLower(c), "frequency", "freq");
    }
  }

  // ---- Battery cycling ----

  predicate IsCycleColumn(c: string) {
    Contains(ToLower(c), "cycle")
  }

  predicate IsCapacityColumn(c: string) {
    var l := ToLower(c);
    Contains(l, "capacity") || Contains(l, "cap")
  }

  const BatteryColumnsMissing := "Could not find cycle and capacity columns for battery cycling plot"

  /** `createBatteryCyclingPlot`: one capacity-against-cycle plot; no
      voltage column is needed. */
  function CreateBatteryCyclingPlot(data: ParsedData): (r: Result<seq<PlotConfig>>)
    ensures r.Err? <==>
      FindIndex(data.columns, IsCycleColumn).None? || FindIndex(data.columns, IsCapacityColumn).None?
    ensures r.Err? ==> r.message == BatteryColumnsMissing
    ensures r.Ok? ==>
      && |r.value| == 1 && r.value[0].kind == BatteryCyclingPlot
      && |r.value[0].traces| == 1
      && r.value[0].traces[0].x == ColumnValues(data.rows, FindIndex(data.columns, IsCycleColumn).value)
      && r.value[0].traces[0].y == ColumnValues(data.rows, FindIndex(data.columns, IsCapacityColumn).value)
  {
    var columns, rows := data.columns, data.rows;
    match (FindIndex(columns, IsCycleColumn), FindIndex(columns, IsCapacityColumn))
    case (Some(cy), Some(ca)) =>
      Ok([PlotConfig(
        BatteryCyclingPlot,
        Axis(columns[cy], "Cycle Number", Linear),
        Axis(columns[ca], columns[ca], Linear),
        [Trace(ColumnValues(rows, cy), ColumnValues(rows, ca), "lines+markers", "Capacity", Blue, 2, Some(5))],
        Layout("Capacity vs Cycle Number", PlainAxis("Cycle Number"), PlainAxis(columns[ca]), None))])
    case _ => Err(BatteryColumnsMissing)
  }

  /** The "capacity" alternative adds nothing to the "cap" test. */
  lemma CapacityTestIsCap(c: string)
    ensures IsCapacityColumn(c) <==> Contains(ToLower(c), "cap")
  {
    if Contains(ToLower(c), "capacity") {
      ContainsAt("capacity", "cap", 0);
      ContainsTransitive(ToLower(c), "capacity", "cap");
    }
  }

  // ---- Generic ----

  const GenericColumnsMissing := "Specified columns not found in dataset"

  /** `createGenericPlot`: exact column names, and a trace named "<y> vs <x>". */
  function CreateGenericPlot(data: ParsedData, xColumn: string, yColumn: string): (r: Result<PlotConfig>)
    ensures r.Err? <==> xColumn !in data.columns || yColumn !in data.columns
    ensures r.Err? ==> r.message == GenericColumnsMissing
    ensures r.Ok? ==>
      && r.value.xAxis.column == xColumn && r.value.yAxis.column == yColumn
      && |r.value.traces| == 1
      && r.value.traces[0].name == yColumn + " vs " + xColumn
      && r.value.layout.title == yColumn + " vs " + xColumn
      && r.value.traces[0].x == ColumnValues(data.rows, IndexOf(data.columns, xColumn).value)
      && r.value.traces[0].y == ColumnValues(data.rows, IndexOf(data.columns, yColumn).value)
  {
    var columns, rows := data.columns, data.rows;
    match (IndexOf(columns, xColumn), IndexOf(columns, yColumn))
    case (Some(xi), Some(yi)) =>
      var name := yColumn + " vs " + xColumn;
      Ok(PlotConfig(
        LinePlot,
        Axis(xColumn, xColumn, Linear),
        Axis(yColumn, yColumn, Linear),
        [Trace(ColumnValues(rows, xi), ColumnValues(rows, yi), "lines+markers", name, Blue, 2, Some(5))],
        Layout(name, PlainAxis(xColumn), PlainAxis(yColumn), Some(false))))
    case _ => Err(GenericColumnsMissing)
  }

  /** A generic plot copies the named columns' cells row by row: when every
      row is long enough, x and y are exactly those cells. */
  lemma GenericPlotCopiesCells(data: ParsedData, xColumn: string, yColumn: string, i: nat)
    requires CreateGenericPlot(data, xColumn, yColumn).Ok?
    requires i < |data.rows| && |data.rows[i]| == |data.columns|
    ensures var t := CreateGenericPlot(data, xColumn, yColumn).value.traces[0];
      && |t.x| == |t.y| == |data.rows|
      && t.x[i] == data.rows[i][IndexOf(data.columns, xColumn).value]
      && t.y[i] == data.rows[i][IndexOf(data.columns, yColumn).value]
  {
  }
}
