/** The naive window search: `slide_window` enumerates fixed-size windows in
    row-major order over a search region, and `search_windows` keeps the
    windows the classifier labels 1, in their original order. */
module Windows {
  import opened Seqs
  import opened Numeric
  import opened Images
  import opened Features

  // ---------------------------------------------------------------------
  // Window grid geometry
  // ---------------------------------------------------------------------

  /** `int(size * (1 - overlap))`: pixels between consecutive windows. */
  function PixPerStep(size: int, overlap: Fraction): int
  {
    TruncMul(size, Ratio(overlap.den - overlap.num, overlap.den))
  }

  /** `int(size * overlap)`: the part of the span the last window may not start in. */
  function Buffer(size: int, overlap: Fraction): int
  {
    TruncMul(size, overlap)
  }

  /** One axis of the grid: region start, step, number of windows, window size. */
  datatype AxisPlan = AxisPlan(start: int, step: int, count: nat, size: int)

  /** The windows along one axis of `[lo, hi)`: `int((span - buffer) / step)`
      of them (none when that is negative); no plan when the step is 0, where
      the source divides by zero. */
  function PlanAxis(lo: int, hi: int, size: int, overlap: Fraction): (r: Option<AxisPlan>)
    ensures r.Some? <==> PixPerStep(size, overlap) != 0
    ensures r.Some? ==> r.value.start == lo && r.value.step == PixPerStep(size, overlap) && r.value.size == size
  {
    var step := PixPerStep(size, overlap);
    if step == 0 then None
    else Some(AxisPlan(lo, step, RangeLen(Trunc(hi - lo - Buffer(size, overlap), step)), size))
  }

  /** Window `(xs, ys)`: `((x0 + xs*stepx, y0 + ys*stepy), (+ width, + height))`. */
  function WindowAt(xa: AxisPlan, ya: AxisPlan, xs: int, ys: int): Box
  {
    var startx := xs * xa.step + xa.start;
    var starty := ys * ya.step + ya.start;
    Box(startx, starty, startx + xa.size, starty + ya.size)
  }

  function GridRow(xa: AxisPlan, ya: AxisPlan, ys: int): seq<Box>
  {
    seq(xa.count, xs => WindowAt(xa, ya, xs, ys))
  }

  function GridRows(xa: AxisPlan, ya: AxisPlan): seq<seq<Box>>
  {
    seq(ya.count, ys => GridRow(xa, ya, ys))
  }

  /** All windows, row by row (y outer, x inner). */
  function WindowGrid(xa: AxisPlan, ya: AxisPlan): seq<Box>
  {
    Concat(GridRows(xa, ya))
  }

  /** The windows `slide_window` returns for the resolved region
      `[x0, x1) x [y0, y1)`, or `None` where it divides by zero. */
  function WindowsFor(x0: int, x1: int, y0: int, y1: int, window: (int, int), overlap: (Fraction, Fraction)): Option<seq<Box>>
  {
    match (PlanAxis(x0, x1, window.0, overlap.0), PlanAxis(y0, y1, window.1, overlap.1))
    case (Some(xa), Some(ya)) => Some(WindowGrid(xa, ya))
    case _ => None
  }

  /** The grid holds `nx * ny` windows. */
  lemma WindowGridSize(xa: AxisPlan, ya: AxisPlan)
    ensures |WindowGrid(xa, ya)| == ya.count * xa.count
  {
    assert Uniform(GridRows(xa, ya), xa.count);
    ConcatUniformLength(GridRows(xa, ya), xa.count);
  }

  /** Window `(xs, ys)` is at position `ys * nx + xs`: row-major order, y
      outer and x inner. */
  lemma WindowGridAt(xa: AxisPlan, ya: AxisPlan, ys: nat, xs: nat)
    requires ys < ya.count && xs < xa.count
    ensures ys * xa.count + xs < |WindowGrid(xa, ya)|
    ensures WindowGrid(xa, ya)[ys * xa.count + xs] == WindowAt(xa, ya, xs, ys)
  {
    var rows := GridRows(xa, ya);
    assert Uniform(rows, xa.count);
    ConcatUniformAt(rows, xa.count, ys, xs);
  }

  /** `slide_window` with the default `None` bounds resolved: `None` becomes
      0 for a start and the image width (height) for a stop. */
  function Resolve(bound: Option<int>, default: int): (r: int)
    ensures bound.Some? ==> r == bound.value
    ensures bound.None? ==> r == default
  {
    if bound.None? then default else bound.value
  }

  /** `slide_window` on an image of `imgW x imgH` pixels with the bounds
      given as values (not written back): the windows of the resolved
      region, built by nested loops, y outer and x inner. */
  method SlideWindow(imgW: nat, imgH: nat, xStartStop: (Option<int>, Option<int>), yStartStop: (Option<int>, Option<int>),
                     window: (int, int), overlap: (Fraction, Fraction))
    returns (r: Option<seq<Box>>)
    ensures r == WindowsFor(Resolve(xStartStop.0, 0), Resolve(xStartStop.1, imgW),
                            Resolve(yStartStop.0, 0), Resolve(yStartStop.1, imgH), window, overlap)
  {
    var x0, x1 := Resolve(xStartStop.0, 0), Resolve(xStartStop.1, imgW);
    var y0, y1 := Resolve(yStartStop.0, 0), Resolve(yStartStop.1, imgH);
    var nxPixPerStep := PixPerStep(window.0, overlap.0);
    var nyPixPerStep := PixPerStep(window.1, overlap.1);
    var nxBuffer := Buffer(window.0, overlap.0);
    var nyBuffer := Buffer(window.1, overlap.1);
    if nxPixPerStep == 0 || nyPixPerStep == 0 {
      return None;
    }
    var nxWindows := Trunc(x1 - x0 - nxBuffer, nxPixPerStep);
    var nyWindows := Trunc(y1 - y0 - nyBuffer, nyPixPerStep);
    ghost var xa := PlanAxis(x0, x1, window.0, overlap.0).value;
    ghost var ya := PlanAxis(y0, y1, window.1, overlap.1).value;
    ghost var rows := GridRows(xa, ya);
    var windowList: seq<Box> := [];
    for ys := 0 to RangeLen(nyWindows)
      invariant windowList == Concat(rows[..ys])
    {
      for xs := 0 to RangeLen(nxWindows)
        invariant windowList == Concat(rows[..ys]) + rows[ys][..xs]
      {
        var startx := xs * nxPixPerStep + x0;
        var endx := startx + window.0;
        var starty := ys * nyPixPerStep + y0;
        var endy := starty + window.1;
        windowList := windowList + [Box(startx, starty, endx, endy)];
      }
      assert rows[..ys + 1] == rows[..ys] + [rows[ys]];
      assert rows[ys][..xa.count] == rows[ys];
    }
    assert rows[..ya.count] == rows;
    return Some(windowList);
  }

  /** The excess `size - step - buffer` of one window over the part of the
      span its grid position accounts for. */
  function Slack(size: int, overlap: Fraction): int
  {
    size - PixPerStep(size, overlap) - Buffer(size, overlap)
  }

  /** For an overlap in `[0, 1]`, truncating both `size * (1 - overlap)` and
      `size * overlap` loses less than two pixels in total, so the slack is 0
      or 1; it is 0 when `size * overlap` is a whole number. */
  lemma SlackBounds(size: nat, overlap: Fraction)
    requires 0 <= overlap.num <= overlap.den
    ensures 0 <= Slack(size, overlap) <= 1
    ensures (size * overlap.num) % overlap.den == 0 ==> Slack(size, overlap) == 0
  {
    var n, d := overlap.num, overlap.den;
    var a, b := size * (d - n), size * n;
    assert a + b == size * d by { Distrib(size, d - n, n); }
    MulNonNeg(size, d - n);
    MulNonNeg(size, n);
    TruncNonNeg(a, d);
    TruncNonNeg(b, d);
    FloorSplit(a, b, d, size);
  }

  /** Splitting `size * d` into two non-negative parts and flooring each
      part divided by `d` loses less than two units in total, and nothing
      when the second part is a multiple of `d`. */
  lemma FloorSplit(a: nat, b: nat, d: int, size: int)
    requires d > 0 && a + b == size * d
    ensures 0 <= size - a / d - b / d <= 1
    ensures b % d == 0 ==> size - a / d - b / d == 0
  {
    var step, buf := a / d, b / d;
    DivBounds(a, d);
    DivBounds(b, d);
    assert (step + buf) * d == step * d + buf * d by { Distrib(d, step, buf); }
    assert (step + buf + 2) * d == (step + buf) * d + 2 * d by { Distrib(d, step + buf, 2); }
    MulLess(step + buf, size, d);
    MulLess(size, step + buf + 2, d);
    if b % d == 0 {
      assert buf * d == b;
      assert (size - buf) * d == size * d - buf * d by { Distrib(d, size, -buf); }
      DivUnique(a, d, size - buf);
    }
  }

  /** Along an axis with a positive step, every window starts inside the
      region and ends at most `Slack` pixels past its end. */
  lemma AxisWithinRegion(lo: int, hi: int, size: int, overlap: Fraction, i: nat)
    requires PixPerStep(size, overlap) > 0
    requires i < PlanAxis(lo, hi, size, overlap).value.count
    ensures lo <= i * PixPerStep(size, overlap) + lo
    ensures i * PixPerStep(size, overlap) + lo + size <= hi + Slack(size, overlap)
  {
    var step := PixPerStep(size, overlap);
    var span := hi - lo - Buffer(size, overlap);
    var n := Trunc(span, step);
    assert n > 0;
    assert n * step <= span;
    MulNonNeg(i, step);
    MulMonoInt(i + 1, n, step);
  }

  /** With overlaps in `[0, 1]`, every window of `slide_window` starts inside
      the search region and ends at most one pixel past it; exactly inside
      when `size * overlap` is a whole number on that axis. */
  lemma WindowsWithinRegion(x0: int, x1: int, y0: int, y1: int, window: (nat, nat), overlap: (Fraction, Fraction))
    requires 0 <= overlap.0.num <= overlap.0.den && 0 <= overlap.1.num <= overlap.1.den
    requires WindowsFor(x0, x1, y0, y1, window, overlap).Some?
    ensures forall b :: b in WindowsFor(x0, x1, y0, y1, window, overlap).value ==>
              && x0 <= b.x1 && b.x2 <= x1 + Slack(window.0, overlap.0) && b.x2 - b.x1 == window.0
              && y0 <= b.y1 && b.y2 <= y1 + Slack(window.1, overlap.1) && b.y2 - b.y1 == window.1
    ensures 0 <= Slack(window.0, overlap.0) <= 1 && 0 <= Slack(window.1, overlap.1) <= 1
  {
    SlackBounds(window.0, overlap.0);
    SlackBounds(window.1, overlap.1);
    var xa := PlanAxis(x0, x1, window.0, overlap.0).value;
    var ya := PlanAxis(y0, y1, window.1, overlap.1).value;
    assert xa.step > 0 && ya.step > 0 by {
      StepNonNeg(window.0, overlap.0);
      StepNonNeg(window.1, overlap.1);
    }
    var g := WindowGrid(xa, ya);
    forall b | b in g
      ensures x0 <= b.x1 && b.x2 <= x1 + Slack(window.0, overlap.0) && b.x2 - b.x1 == window.0
      ensures y0 <= b.y1 && b.y2 <= y1 + Slack(window.1, overlap.1) && b.y2 - b.y1 == window.1
    {
      var rows := GridRows(xa, ya);
      var k :| 0 <= k < |g| && g[k] == b;
      ConcatMember(rows, k);
      var ys, xs :| 0 <= ys < |rows| && 0 <= xs < |rows[ys]| && g[k] == rows[ys][xs];
      assert b == WindowAt(xa, ya, xs, ys);
      AxisWithinRegion(x0, x1, window.0, overlap.0, xs);
      AxisWithinRegion(y0, y1, window.1, overlap.1, ys);
    }
  }

  lemma StepNonNeg(size: nat, overlap: Fraction)
    requires 0 <= overlap.num <= overlap.den
    ensures PixPerStep(size, overlap) >= 0
  {
    MulNonNeg(size, overlap.den - overlap.num);
  }

  /** The search region's right edge can be overrun by one pixel: a 64-pixel
      window with overlap 0.3 steps by 44 with a buffer of 19, so a region 63
      pixels wide gets one window, 64 pixels wide. */
  lemma OverrunByOnePixel()
    ensures WindowsFor(0, 63, 0, 64, (64, 64), (Ratio(3, 10), Ratio(0, 1))) == Some([Box(0, 0, 64, 64)])
  {
    var xa := PlanAxis(0, 63, 64, Ratio(3, 10)).value;
    var ya := PlanAxis(0, 64, 64, Ratio(0, 1)).value;
    assert PixPerStep(64, Ratio(3, 10)) == 44;
    assert Buffer(64, Ratio(3, 10)) == 19;
    assert xa == AxisPlan(0, 44, 1, 64);
    assert PixPerStep(64, Ratio(0, 1)) == 64;
    assert Buffer(64, Ratio(0, 1)) == 0;
    assert ya == AxisPlan(0, 64, 1, 64);
    WindowGridSize(xa, ya);
    WindowGridAt(xa, ya, 0, 0);
    assert WindowGrid(xa, ya) == [Box(0, 0, 64, 64)];
  }

  // ---------------------------------------------------------------------
  // `slide_window` as written: the bound lists are filled in place
  // ---------------------------------------------------------------------

  /** A two-element Python list `[start, stop]` whose entries may be `None`;
      `slide_window` writes the resolved bounds back into it. */
  class StartStop {
    var start: Option<int>
    var stop: Option<int>

    constructor (start: Option<int>, stop: Option<int>)
      ensures this.start == start && this.stop == stop
    {
      this.start := start;
      this.stop := stop;
    }
  }

  /** `slide_window` as written: the `None` entries of the caller's
      `x_start_stop` and `y_start_stop` lists are replaced in place (x first,
      then y, so a list passed for both axes is resolved once, against the
      width), and the windows of the resolved region are returned. */
  method SlideWindowInPlace(imgW: nat, imgH: nat, xStartStop: StartStop, yStartStop: StartStop,
                            window: (int, int), overlap: (Fraction, Fraction))
    returns (r: Option<seq<Box>>)
    modifies xStartStop, yStartStop
    ensures xStartStop.start == Some(Resolve(old(xStartStop.start), 0))
    ensures xStartStop.stop == Some(Resolve(old(xStartStop.stop), imgW))
    ensures xStartStop != yStartStop ==>
              && yStartStop.start == Some(Resolve(old(yStartStop.start), 0))
              && yStartStop.stop == Some(Resolve(old(yStartStop.stop), imgH))
    ensures r == WindowsFor(xStartStop.start.value, xStartStop.stop.value,
                            yStartStop.start.value, yStartStop.stop.value, window, overlap)
  {
    if xStartStop.start == None {
      xStartStop.start := Some(0);
    }
    if xStartStop.stop == None {
      xStartStop.stop := Some(imgW);
    }
    if yStartStop.start == None {
      yStartStop.start := Some(0);
    }
    if yStartStop.stop == None {
      yStartStop.stop := Some(imgH);
    }
    r := SlideWindow(imgW, imgH, (xStartStop.start, xStartStop.stop), (yStartStop.start, yStartStop.stop), window, overlap);
  }

  /** At overlap one half a 64-pixel window steps by 32 with a buffer of 32:
      a 1280 x 720 image holds 39 x 21 windows. The first 39 form the top
      row, window `j` starting at `x = 32 * j`, the last ending at the right
      edge. */
  lemma FullFrameWindows()
    ensures WindowsFor(0, 1280, 0, 720, (64, 64), (Ratio(1, 2), Ratio(1, 2))).Some?
    ensures |WindowsFor(0, 1280, 0, 720, (64, 64), (Ratio(1, 2), Ratio(1, 2))).value| == 819
    ensures forall j :: 0 <= j < 39 ==>
              WindowsFor(0, 1280, 0, 720, (64, 64), (Ratio(1, 2), Ratio(1, 2))).value[j] == Box(32 * j, 0, 32 * j + 64, 64)
    ensures WindowsFor(0, 1280, 0, 720, (64, 64), (Ratio(1, 2), Ratio(1, 2))).value[38] == Box(1216, 0, 1280, 64)
  {
    var half := Ratio(1, 2);
    assert PixPerStep(64, half) == 32 && Buffer(64, half) == 32;
    var xa := PlanAxis(0, 1280, 64, half).value;
    var ya := PlanAxis(0, 720, 64, half).value;
    assert xa == AxisPlan(0, 32, 39, 64);
    assert ya == AxisPlan(0, 32, 21, 64);
    WindowGridSize(xa, ya);
    forall j | 0 <= j < 39
      ensures WindowGrid(xa, ya)[j] == Box(32 * j, 0, 32 * j + 64, 64)
    {
      WindowGridAt(xa, ya, 0, j);
    }
  }

  /** The same search on a 640 x 360 image: 19 x 10 windows. */
  lemma HalfFrameWindows()
    ensures WindowsFor(0, 640, 0, 360, (64, 64), (Ratio(1, 2), Ratio(1, 2))).Some?
    ensures |WindowsFor(0, 640, 0, 360, (64, 64), (Ratio(1, 2), Ratio(1, 2))).value| == 190
  {
    var half := Ratio(1, 2);
    assert PixPerStep(64, half) == 32 && Buffer(64, half) == 32;
    var xa := PlanAxis(0, 640, 64, half).value;
    var ya := PlanAxis(0, 360, 64, half).value;
    assert xa == AxisPlan(0, 32, 19, 64);
    assert ya == AxisPlan(0, 32, 10, 64);
    WindowGridSize(xa, ya);
  }

  /** The default `[None, None]` lists of `slide_window` are created once and
      shared by every call that relies on them. The first call fills them with
      the first image's size, so a later call on a 640 x 360 image still
      searches 1280 x 720: it returns the 819 windows of the first image
      instead of the 190 windows of its own, some of them past its right edge. */
  method DefaultBoundsCarryOver() returns (first: Option<seq<Box>>, second: Option<seq<Box>>)
    ensures first.Some? && second.Some? && second == first
    ensures |second.value| == 819
    ensures second != WindowsFor(0, 640, 0, 360, (64, 64), (Ratio(1, 2), Ratio(1, 2)))
    ensures second == WindowsFor(0, 1280, 0, 720, (64, 64), (Ratio(1, 2), Ratio(1, 2)))
    ensures exists b :: b in second.value && b.x2 > 640
    ensures second.value[19] == Box(608, 0, 672, 64) && second.value[20] == Box(640, 0, 704, 64)
  {
    var half := Ratio(1, 2);
    var xDefault := new StartStop(None, None);
    var yDefault := new StartStop(None, None);
    first := SlideWindowInPlace(1280, 720, xDefault, yDefault, (64, 64), (half, half));
    second := SlideWindowInPlace(640, 360, xDefault, yDefault, (64, 64), (half, half));
    FullFrameWindows();
    HalfFrameWindows();
    assert second.value[20] in second.value;
  }

  // ---------------------------------------------------------------------
  // `search_windows`
  // ---------------------------------------------------------------------

  /** The classifier's verdict on one window: the window's pixels
      `img[y1:y2, x1:x2]` resized to 64 x 64, their inference feature vector,
      standardised by the scaler, labelled 1 by the classifier. */
  predicate IsCar(img: Image, w: Box, cfg: FeatureConfig, lib: Library,
                  scaler: seq<real> -> seq<real>, predict: seq<real> -> int)
  {
    ValidConfig(cfg) &&
    predict(scaler(SingleImgFeatures(lib.resize(Crop(img, w.y1, w.y2, w.x1, w.x2), 64, 64), cfg, lib))) == 1
  }

  /** Every window is classified on a feature vector of the same length: that
      of a 64 x 64 patch, whatever the window's own size. */
  lemma WindowFeatureLength(img: Image, w: Box, cfg: FeatureConfig, lib: Library)
    requires ValidConfig(cfg) && ShapeContracts(lib)
    ensures |SingleImgFeatures(lib.resize(Crop(img, w.y1, w.y2, w.x1, w.x2), 64, 64), cfg, lib)|
            == FeatureLength(cfg, 64, 64)
  {
    var patch := lib.resize(Crop(img, w.y1, w.y2, w.x1, w.x2), 64, 64);
    assert IsGrid(patch, 64, 64);
    assert Width(patch) == 64;
  }

  /** The window's pixels `img[y1:y2, x1:x2]` are empty once numpy has
      clipped the slice to the image: `cv2.resize` raises on such a crop. */
  predicate EmptyCrop(img: Image, w: Box)
  {
    var crop := Crop(img, w.y1, w.y2, w.x1, w.x2);
    |crop| == 0 || Width(crop) == 0
  }

  /** None of the first `n` windows has an empty crop: `search_windows`
      fails exactly when this is false for all of its windows. */
  predicate NoEmptyCrop(img: Image, windows: seq<Box>, n: nat)
  {
    forall j :: 0 <= j < n && j < |windows| ==> !EmptyCrop(img, windows[j])
  }

  lemma NoEmptyCropStep(img: Image, windows: seq<Box>, i: nat)
    requires i < |windows|
    ensures NoEmptyCrop(img, windows, i + 1) <==> NoEmptyCrop(img, windows, i) && !EmptyCrop(img, windows[i])
  {
  }

  /** `search_windows`: it fails (`cv2.resize` raises) exactly when some
      window's crop is empty; otherwise it returns the windows the classifier
      labels 1, in input order, and a window is kept exactly when it is in
      the input and labelled 1. */
  method SearchWindows(img: Image, windows: seq<Box>, cfg: FeatureConfig, lib: Library,
                       scaler: seq<real> -> seq<real>, predict: seq<real> -> int)
    returns (onWindows: Option<seq<Box>>)
    requires ValidConfig(cfg)
    ensures onWindows.None? <==> !NoEmptyCrop(img, windows, |windows|)
    ensures onWindows.Some? ==> onWindows.value == Filter(windows, CarTest(img, cfg, lib, scaler, predict))
    ensures onWindows.Some? ==>
      forall w :: w in onWindows.value <==> w in windows && IsCar(img, w, cfg, lib, scaler, predict)
  {
    var kept: seq<Box> := [];
    for i := 0 to |windows|
      invariant kept == Filter(windows[..i], CarTest(img, cfg, lib, scaler, predict))
      invariant NoEmptyCrop(img, windows, i)
    {
      var next := SearchStep(img, windows, i, kept, cfg, lib, scaler, predict);
      if next.None? {
        return None;
      }
      kept := next.value;
    }
    assert windows[..|windows|] == windows;
    FilterMembersAll(windows, CarTest(img, cfg, lib, scaler, predict));
    onWindows := Some(kept);
  }

  /** One iteration of `search_windows` on window `i`, given the windows
      kept so far: fail on an empty crop, otherwise append the window when
      the classifier labels it 1. */
  method SearchStep(img: Image, windows: seq<Box>, i: nat, kept: seq<Box>, cfg: FeatureConfig, lib: Library,
                    scaler: seq<real> -> seq<real>, predict: seq<real> -> int)
    returns (next: Option<seq<Box>>)
    requires ValidConfig(cfg) && i < |windows|
    requires kept == Filter(windows[..i], CarTest(img, cfg, lib, scaler, predict))
    requires NoEmptyCrop(img, windows, i)
    ensures next.None? <==> !NoEmptyCrop(img, windows, i + 1)
    ensures next.Some? ==> next.value == Filter(windows[..i + 1], CarTest(img, cfg, lib, scaler, predict))
  {
    var window := windows[i];
    var verdict := TestWindow(img, window, cfg, lib, scaler, predict);
    NoEmptyCropStep(img, windows, i);
    if verdict.None? {
      return None;
    }
    FilterStep(windows, CarTest(img, cfg, lib, scaler, predict), i);
    next := Some(kept + if verdict.value then [window] else []);
  }

  /** `IsCar` on a fixed image and classifier, as a test on windows. */
  function CarTest(img: Image, cfg: FeatureConfig, lib: Library,
                   scaler: seq<real> -> seq<real>, predict: seq<real> -> int): Box -> bool
  {
    w => IsCar(img, w, cfg, lib, scaler, predict)
  }

  /** One iteration of `search_windows`: resize the window's crop to
      64 x 64 (failing on an empty crop), extract its features, scale them
      and classify them; the verdict is whether the label is 1. */
  method TestWindow(img: Image, window: Box, cfg: FeatureConfig, lib: Library,
                    scaler: seq<real> -> seq<real>, predict: seq<real> -> int)
    returns (verdict: Option<bool>)
    requires ValidConfig(cfg)
    ensures verdict.None? <==> EmptyCrop(img, window)
    ensures verdict.Some? ==> (verdict.value <==> CarTest(img, cfg, lib, scaler, predict)(window))
  {
    var crop := Crop(img, window.y1, window.y2, window.x1, window.x2);
    if |crop| == 0 || Width(crop) == 0 {
      return None;
    }
    var testImg := lib.resize(crop, 64, 64);
    var features := SingleImgFeatures(testImg, cfg, lib);
    var testFeatures := scaler(features);
    var prediction := predict(testFeatures);
    verdict := Some(prediction == 1);
  }

  /** The windows left over from a 1280 x 720 frame run along the top row
      past the right edge of a 640-pixel-wide frame. The first 20 of them
      still overlap the frame; window 20, `(640, 0)-(704, 64)`, is the first
      whose crop is empty, so the search of a 640 x 360 frame fails there. */
  method CarriedOverSearchFails(img: Image, cfg: FeatureConfig, lib: Library,
                                scaler: seq<real> -> seq<real>, predict: seq<real> -> int)
    returns (carried: seq<Box>, result: Option<seq<Box>>)
    requires IsGrid(img, 360, 640) && ValidConfig(cfg)
    ensures |carried| == 819 && carried[20] == Box(640, 0, 704, 64)
    ensures NoEmptyCrop(img, carried, 20) && EmptyCrop(img, carried[20])
    ensures result.None?
  {
    var first, second := DefaultBoundsCarryOver();
    carried := second.value;
    CarriedOverFirstEmpty(img);
    result := SearchWindows(img, carried, cfg, lib, scaler, predict);
  }

  /** Of the 1280 x 720 frame's windows, the first 20 have a non-empty crop on
      a 640 x 360 frame and window 20 has an empty one. */
  lemma CarriedOverFirstEmpty(img: Image)
    requires IsGrid(img, 360, 640)
    ensures var full := WindowsFor(0, 1280, 0, 720, (64, 64), (Ratio(1, 2), Ratio(1, 2)));
            full.Some? && |full.value| == 819
            && NoEmptyCrop(img, full.value, 20) && EmptyCrop(img, full.value[20])
  {
    var full := WindowsFor(0, 1280, 0, 720, (64, 64), (Ratio(1, 2), Ratio(1, 2)));
    FullFrameWindows();
    forall j | 0 <= j < 20
      ensures !EmptyCrop(img, full.value[j])
    {
      TopRowCropEmpty(img, 32 * j);
    }
    TopRowCropEmpty(img, 640);
  }

  /** On a 640 x 360 frame, the crop of the 64 x 64 window at `(x1, 0)` is
      empty exactly when the window starts at or past the right edge. */
  lemma TopRowCropEmpty(img: Image, x1: int)
    requires IsGrid(img, 360, 640) && 0 <= x1
    ensures EmptyCrop(img, Box(x1, 0, x1 + 64, 64)) <==> x1 >= 640
  {
    var crop := Crop(img, 0, 64, x1, x1 + 64);
    assert SliceBounds(0, 64, |img|) == Span(0, 64);
    assert crop[0] == SliceRow(img[0], x1, x1 + 64);
    assert |img[0]| == 640;
  }
}
