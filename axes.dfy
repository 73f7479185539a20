/** The tick-count logic of the plot axes (phy/plot/axes.py): how many bins
    a window of a given size gets, how the locator turns a bin request into
    a tick count, the one-shot `attach`, and the change detection that keeps
    zoom and pan from redrawing the axes when nothing visible changed.
    Tick positions, coordinate transforms and the quantisation of zoom and
    pan factors are floating-point work and enter here as the integers they
    produce. */
module Axes {
  import opened Common

  const BinsMargin: int := 5
  const DefaultNbinsX: int := 24
  const DefaultNbinsY: int := 16
  /** Pixels per bin along x and y in `get_nbins`. */
  const PixelsPerBinX: int := 150
  const PixelsPerBinY: int := 80

  /** `get_nbins(w, h)`: one bin per whole 150 pixels of width and per whole
      80 pixels of height, at least one each; on a high-DPI screen the size
      is halved (rounding down) first. Python's `//` by a positive constant
      is Dafny's `/`. */
  function GetNbins(w: int, h: int, highDpi: bool): (r: (int, int))
    ensures r.0 >= 1 && r.1 >= 1
    ensures var W := if highDpi then w / 2 else w;
      && (W >= PixelsPerBinX ==> r.0 * PixelsPerBinX <= W < (r.0 + 1) * PixelsPerBinX)
      && (W < 2 * PixelsPerBinX ==> r.0 == 1)
    ensures var H := if highDpi then h / 2 else h;
      && (H >= PixelsPerBinY ==> r.1 * PixelsPerBinY <= H < (r.1 + 1) * PixelsPerBinY)
      && (H < 2 * PixelsPerBinY ==> r.1 == 1)
  {
    var W := if highDpi then w / 2 else w;
    var H := if highDpi then h / 2 else h;
    (if W / PixelsPerBinX > 1 then W / PixelsPerBinX else 1,
     if H / PixelsPerBinY > 1 then H / PixelsPerBinY else 1)
  }

  /** A larger window never gets fewer bins. */
  lemma GetNbinsMonotone(w1: int, h1: int, w2: int, h2: int, highDpi: bool)
    requires w1 <= w2 && h1 <= h2
    ensures GetNbins(w1, h1, highDpi).0 <= GetNbins(w2, h2, highDpi).0
    ensures GetNbins(w1, h1, highDpi).1 <= GetNbins(w2, h2, highDpi).1
  {
    var W1, W2 := if highDpi then w1 / 2 else w1, if highDpi then w2 / 2 else w2;
    var H1, H2 := if highDpi then h1 / 2 else h1, if highDpi then h2 / 2 else h2;
    assert W1 <= W2 && H1 <= H2;
  }

  /** The argument of `set_nbins`: an integer, None, or any other value
      (a float, say), which `_is_integer` rejects. */
  datatype BinsArg = IntArg(n: int) | NoneArg | OtherArg

  /** The tick count `set_nbins` gives the locator along one axis: five
      times an integer request, or the default, which is not multiplied. */
  function TickBins(arg: BinsArg, default: int): (n: int)
    ensures arg.IntArg? ==> n == BinsMargin * arg.n
    ensures !arg.IntArg? ==> n == default
  {
    match arg
    case IntArg(k) => BinsMargin * k
    case _ => default
  }

  /** After a resize the locator asks for a multiple of five ticks, at
      least five, on each axis, so never one of the defaults 24 and 16. */
  lemma ResizeTickBins(w: int, h: int, highDpi: bool)
    ensures var (nx, ny) := GetNbins(w, h, highDpi);
      && TickBins(IntArg(nx), DefaultNbinsX) >= BinsMargin
      && TickBins(IntArg(ny), DefaultNbinsY) >= BinsMargin
      && TickBins(IntArg(nx), DefaultNbinsX) % BinsMargin == 0
      && TickBins(IntArg(ny), DefaultNbinsY) % BinsMargin == 0
      && TickBins(IntArg(nx), DefaultNbinsX) != DefaultNbinsX
      && TickBins(IntArg(ny), DefaultNbinsY) != DefaultNbinsY
  {
    var (nx, ny) := GetNbins(w, h, highDpi);
    assert TickBins(IntArg(nx), DefaultNbinsX) == 5 * nx;
    assert TickBins(IntArg(ny), DefaultNbinsY) == 5 * ny;
  }

  /** `AxisLocator`, reduced to the tick counts of its two `MaxNLocator`s. */
  class AxisLocator {
    var nbinsX: int
    var nbinsY: int

    constructor (nx: BinsArg, ny: BinsArg)
      ensures nbinsX == TickBins(nx, DefaultNbinsX) && nbinsY == TickBins(ny, DefaultNbinsY)
    {
      nbinsX := TickBins(nx, DefaultNbinsX);
      nbinsY := TickBins(ny, DefaultNbinsY);
    }

    /** `set_nbins(nbinsx, nbinsy)`. */
    method SetNbins(nx: BinsArg, ny: BinsArg)
      modifies this
      ensures nbinsX == TickBins(nx, DefaultNbinsX) && nbinsY == TickBins(ny, DefaultNbinsY)
    {
      nbinsX := TickBins(nx, DefaultNbinsX);
      nbinsY := TickBins(ny, DefaultNbinsY);
    }
  }

  /** The four visuals of the axes: grid lines and tick labels per axis. */
  datatype Visual = XLines | XLabels | YLines | YLabels

  /** The visuals `attach` adds to the canvas, in order. */
  function AxesVisuals(showX: bool, showY: bool): (vs: seq<Visual>)
    ensures |vs| == (if showX then 2 else 0) + (if showY then 2 else 0)
    ensures (XLines in vs <==> showX) && (XLabels in vs <==> showX)
    ensures (YLines in vs <==> showY) && (YLabels in vs <==> showY)
    ensures forall i, j :: 0 <= i < j < |vs| ==> vs[i] != vs[j]
  {
    (if showX then [XLines, XLabels] else []) + (if showY then [YLines, YLabels] else [])
  }

  /** A canvas, identified by a number. */
  type Canvas = nat

  class Axes {
    const showX: bool
    const showY: bool
    var locator: AxisLocator
    /** `_attached`: the canvas, once attached. */
    var attached: Option<Canvas>
    /** How many times the resize/zoom/pan handlers were connected. */
    var connections: nat
    /** The visuals handed to the canvas. */
    var canvasVisuals: seq<Visual>
    var lastLogZoom: (int, int)
    var lastPan: (int, int)
    /** How many times the ticks were recomputed and the visuals updated. */
    var refreshes: nat

    /** The handlers are connected once, exactly when attached. */
    ghost predicate Valid()
      reads this
    {
      connections == (if attached.Some? then 1 else 0)
    }

    /** `Axes(data_bounds, show_x=..., show_y=...)`: no update on creation. */
    constructor (showX: bool, showY: bool)
      ensures Valid()
      ensures this.showX == showX && this.showY == showY
      ensures attached == None && canvasVisuals == [] && refreshes == 0
      ensures lastLogZoom == (1, 1) && lastPan == (0, 0)
      ensures fresh(locator) && locator.nbinsX == DefaultNbinsX && locator.nbinsY == DefaultNbinsY
    {
      this.showX, this.showY := showX, showY;
      locator := new AxisLocator(NoneArg, NoneArg);
      attached, connections, canvasVisuals, refreshes := None, 0, [], 0;
      lastLogZoom, lastPan := (1, 1), (0, 0);
    }

    /** `reset_data_bounds(data_bounds)`: a new locator with the default
        tick counts, one refresh, and the last zoom and pan keys reset. */
    method ResetDataBounds()
      modifies this`locator, this`refreshes, this`lastLogZoom, this`lastPan
      ensures lastLogZoom == (1, 1) && lastPan == (0, 0)
      ensures refreshes == old(refreshes) + 1
      ensures fresh(locator) && locator.nbinsX == DefaultNbinsX && locator.nbinsY == DefaultNbinsY
    {
      locator := new AxisLocator(NoneArg, NoneArg);
      refreshes := refreshes + 1;
      lastLogZoom, lastPan := (1, 1), (0, 0);
    }

    /** `attach(canvas)`: only the first call does anything: it records the
        canvas, hands it the visuals of the shown axes, refreshes once and
        connects the handlers. */
    method Attach(canvas: Canvas) returns (added: seq<Visual>)
      requires Valid()
      modifies this`attached, this`connections, this`canvasVisuals, this`refreshes
      ensures Valid()
      ensures old(attached).Some? ==>
        && added == [] && attached == old(attached) && canvasVisuals == old(canvasVisuals)
        && refreshes == old(refreshes)
      ensures old(attached).None? ==>
        && attached == Some(canvas) && added == AxesVisuals(showX, showY)
        && canvasVisuals == old(canvasVisuals) + added && refreshes == old(refreshes) + 1
    {
      if attached.Some? {
        return [];
      }
      attached := Some(canvas);
      added := AxesVisuals(showX, showY);
      canvasVisuals := canvasVisuals + added;
      refreshes := refreshes + 1;
      connections := connections + 1;
    }

    /** The resize handler: new tick counts from the window size, then a
        refresh. */
    method OnResize(w: int, h: int, highDpi: bool)
      requires attached.Some?
      modifies locator, this`refreshes
      ensures locator.nbinsX == TickBins(IntArg(GetNbins(w, h, highDpi).0), DefaultNbinsX)
      ensures locator.nbinsY == TickBins(IntArg(GetNbins(w, h, highDpi).1), DefaultNbinsY)
      ensures refreshes == old(refreshes) + 1
    {
      var (nx, ny) := GetNbins(w, h, highDpi);
      locator.SetNbins(IntArg(nx), IntArg(ny));
      refreshes := refreshes + 1;
    }

    /** The zoom handler, given the quantised zoom pair: refresh and record
        the pair only when it differs from the last one recorded. */
    method OnZoom(ix: int, iy: int)
      requires attached.Some?
      modifies this`lastLogZoom, this`refreshes
      ensures (ix, iy) == old(lastLogZoom) ==> lastLogZoom == old(lastLogZoom) && refreshes == old(refreshes)
      ensures (ix, iy) != old(lastLogZoom) ==> lastLogZoom == (ix, iy) && refreshes == old(refreshes) + 1
    {
      if (ix, iy) != lastLogZoom {
        lastLogZoom := (ix, iy);
        refreshes := refreshes + 1;
      }
    }

    /** The pan handler: the pan scaled by the current zoom and truncated
        to integers is the key; refresh and record it only when it changed. */
    method OnPan(px: real, py: real, zx: real, zy: real)
      requires attached.Some?
      modifies this`lastPan, this`refreshes
      ensures var key := (TruncateToInt(px * zx), TruncateToInt(py * zy));
        && (key == old(lastPan) ==> lastPan == old(lastPan) && refreshes == old(refreshes))
        && (key != old(lastPan) ==> lastPan == key && refreshes == old(refreshes) + 1)
    {
      var tx, ty := TruncateToInt(px * zx), TruncateToInt(py * zy);
      if (tx, ty) != lastPan {
        lastPan := (tx, ty);
        refreshes := refreshes + 1;
      }
    }
  }

  /** `int(x)` on a real: truncation toward zero, as the pan handler applies
      to `px * zx`. */
  function TruncateToInt(x: real): (n: int)
    ensures x >= 0.0 ==> n as real <= x < n as real + 1.0
    ensures x < 0.0 ==> n as real - 1.0 < x <= n as real
  {
    if x >= 0.0 then x.Floor else -((-x).Floor)
  }

  /** Attaching twice adds the visuals and binds the handlers once; repeated
      zooms at the same level refresh once, and a pan of less than one unit
      does not refresh. */
  method AttachTwiceScenario()
  {
    var axes := new Axes(true, false);
    var first := axes.Attach(3);
    var second := axes.Attach(4);
    assert first == [XLines, XLabels] && second == [];
    assert axes.attached == Some(3) && axes.connections == 1 && axes.refreshes == 1;
    axes.OnZoom(2, 2);
    axes.OnZoom(2, 2);
    assert axes.refreshes == 2;
    axes.OnPan(0.5, -0.5, 1.0, 1.0);
    assert axes.refreshes == 2;
  }
}
