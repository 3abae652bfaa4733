/** The plot store of the analysis canvas: a dictionary of plots keyed by
    plot id, with actions that create a plot for a variable, move it, resize
    it, change one of its axes, delete it, or clear them all. */
module AnalysisStore {
  import opened Wrappers
  import opened JsText

  datatype Position = Position(x: int, y: int)
  datatype Size = Size(width: int, height: int)
  datatype PlotType = Scatter | Line | Bar | ScatterLine
  datatype Axis = X | Y

  /** A plot as the dictionary holds it. Every property may be missing: an
      update of an id with no plot stores an object holding only the
      updated property. */
  datatype Plot = Plot(id: Option<string>, xVariable: Option<string>, yVariable: Option<string>,
                       position: Option<Position>, size: Option<Size>, plotType: Option<PlotType>,
                       markerColor: Option<string>, markerSize: Option<int>,
                       showLegend: Option<bool>, showGrid: Option<bool>, createdAt: Option<int>)

  /** The object with no properties, which spreading `undefined` gives. */
  const Blank := Plot(None, None, None, None, None, None, None, None, None, None, None)

  const DefaultSize := Size(500, 400)
  const DefaultMarkerColor := "#3b82f6"
  const DefaultMarkerSize := 6

  /** `plot-${Date.now()}`. */
  function PlotId(time: nat): (r: string)
    ensures StartsWith(r, "plot-")
  {
    var r := "plot-" + NatToString(time);
    assert r[..5] == "plot-";
    r
  }

  /** Plots created at different milliseconds get different ids. */
  lemma PlotIdInjective(t1: nat, t2: nat)
    requires t1 != t2
    ensures PlotId(t1) != PlotId(t2)
  {
    if PlotId(t1) == PlotId(t2) {
      assert NatToString(t1) == PlotId(t1)[5..];
      assert NatToString(t2) == PlotId(t2)[5..];
      NatToStringInjective(t1, t2);
    }
  }

  /** The plot `createPlot` builds. `createPlot` reads the clock twice,
      once for the id and once for `createdAt`. */
  function NewPlot(variableName: string, position: Position, idTime: nat, createdAt: int): (p: Plot)
    ensures p.id == Some(PlotId(idTime))
    ensures p.xVariable == Some("index") && p.yVariable == Some(variableName)
    ensures p.position == Some(position) && p.size == Some(Size(500, 400))
    ensures p.plotType == Some(Scatter) && p.showGrid == Some(true) && p.showLegend == Some(false)
    ensures p.createdAt == Some(createdAt)
  {
    Plot(Some(PlotId(idTime)), Some("index"), Some(variableName), Some(position), Some(DefaultSize),
         Some(Scatter), Some(DefaultMarkerColor), Some(DefaultMarkerSize), Some(false), Some(true),
         Some(createdAt))
  }

  /** `{ ...plots[plotId], [axis + "Variable"]: variableName }`. */
  function WithAxis(plots: map<string, Plot>, plotId: string, axis: Axis, variableName: string): map<string, Plot> {
    var p := if plotId in plots then plots[plotId] else Blank;
    plots[plotId := if axis == X then p.(xVariable := Some(variableName)) else p.(yVariable := Some(variableName))]
  }

  /** `{ ...plots[plotId], position }`. */
  function WithPosition(plots: map<string, Plot>, plotId: string, position: Position): map<string, Plot> {
    var p := if plotId in plots then plots[plotId] else Blank;
    plots[plotId := p.(position := Some(position))]
  }

  /** `{ ...plots[plotId], size }`. */
  function WithSize(plots: map<string, Plot>, plotId: string, size: Size): map<string, Plot> {
    var p := if plotId in plots then plots[plotId] else Blank;
    plots[plotId := p.(size := Some(size))]
  }

  class Store {
    var plots: map<string, Plot>

    constructor ()
      ensures plots == map[]
    {
      plots := map[];
    }

    /** `createPlot`, with the two clock readings as parameters. */
    method CreatePlot(variableName: string, position: Position, idTime: nat, createdAt: int)
      returns (plotId: string)
      modifies this
      ensures plotId == PlotId(idTime)
      ensures plots == old(plots)[plotId := NewPlot(variableName, position, idTime, createdAt)]
    {
      plotId := PlotId(idTime);
      var newPlot := NewPlot(variableName, position, idTime, createdAt);
      plots := plots[plotId := newPlot];
    }

    method UpdatePlotAxis(plotId: string, axis: Axis, variableName: string)
      modifies this
      ensures plots == WithAxis(old(plots), plotId, axis, variableName)
    {
      plots := WithAxis(plots, plotId, axis, variableName);
    }

    method UpdatePlotPosition(plotId: string, position: Position)
      modifies this
      ensures plots == WithPosition(old(plots), plotId, position)
    {
      plots := WithPosition(plots, plotId, position);
    }

    method UpdatePlotSize(plotId: string, size: Size)
      modifies this
      ensures plots == WithSize(old(plots), plotId, size)
    {
      plots := WithSize(plots, plotId, size);
    }

    /** `deletePlot`: the rest of the dictionary without `plotId`. */
    method DeletePlot(plotId: string)
      modifies this
      ensures plots == old(plots) - {plotId}
    {
      plots := plots - {plotId};
    }

    method ClearAllPlots()
      modifies this
      ensures plots == map[]
    {
      plots := map[];
    }
  }

  // ---- Properties of the effects ----

  /** A new plot is stored under its own id; the other plots stay. */
  lemma CreateKeepsOthers(plots: map<string, Plot>, variableName: string, position: Position,
                          idTime: nat, createdAt: int)
    ensures var after := plots[PlotId(idTime) := NewPlot(variableName, position, idTime, createdAt)];
      && after.Keys == plots.Keys + {PlotId(idTime)}
      && after[PlotId(idTime)].id == Some(PlotId(idTime))
      && forall k :: k in plots && k != PlotId(idTime) ==> after[k] == plots[k]
  {
  }

  /** Changing an axis sets that one variable of that one plot. */
  lemma AxisUpdateSetsOneField(plots: map<string, Plot>, plotId: string, axis: Axis, name: string)
    ensures var after := WithAxis(plots, plotId, axis, name);
      && after.Keys == plots.Keys + {plotId}
      && (forall k :: k in plots && k != plotId ==> after[k] == plots[k])
      && (plotId in plots && axis == X ==> after[plotId] == plots[plotId].(xVariable := Some(name)))
      && (plotId in plots && axis == Y ==> after[plotId] == plots[plotId].(yVariable := Some(name)))
  {
  }

  /** Moving and resizing change only that field of that plot. */
  lemma PositionAndSizeSetOneField(plots: map<string, Plot>, plotId: string, position: Position, size: Size)
    ensures forall k :: k in plots && k != plotId ==>
      WithPosition(plots, plotId, position)[k] == plots[k] && WithSize(plots, plotId, size)[k] == plots[k]
    ensures plotId in plots ==>
      WithPosition(plots, plotId, position)[plotId] == plots[plotId].(position := Some(position))
      && WithSize(plots, plotId, size)[plotId] == plots[plotId].(size := Some(size))
  {
  }

  /** An update of an id with no plot stores an entry holding only the
      updated property. */
  lemma UpdateOfAbsentIdIsPartial(plots: map<string, Plot>, plotId: string, position: Position,
                                  size: Size, name: string)
    requires plotId !in plots
    ensures WithPosition(plots, plotId, position)[plotId] == Blank.(position := Some(position))
    ensures WithSize(plots, plotId, size)[plotId] == Blank.(size := Some(size))
    ensures WithAxis(plots, plotId, X, name)[plotId] == Blank.(xVariable := Some(name))
    ensures WithAxis(plots, plotId, Y, name)[plotId].id.None?
  {
  }

  /** Deleting removes exactly that key, and an absent key changes nothing. */
  lemma DeleteRemovesOneKey(plots: map<string, Plot>, plotId: string)
    ensures (plots - {plotId}).Keys == plots.Keys - {plotId}
    ensures forall k :: k in plots && k != plotId ==> (plots - {plotId})[k] == plots[k]
    ensures plotId !in plots ==> plots - {plotId} == plots
  {
  }
}
