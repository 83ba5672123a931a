/** HOG sub-sampling search (`find_cars`): the search strip is converted and
    rescaled once, HOG is computed once per channel over the whole strip, and
    each 64 x 64 window reads its HOG features as a slice of the block grid,
    stepping two cells at a time; positive windows are mapped back to
    original-image coordinates. */
module Subsampling {
  import opened Seqs
  import opened Numeric
  import opened Images
  import opened Features

  /** The global settings `find_cars` reads in place of its own
      `spatial_size` and `hist_bins` arguments: colour space, spatial size
      and histogram bins. */
  datatype Prms = Prms(colorSpace: ColorSpace, spatialSize: (nat, nat), nBins: int)

  /** Side of the training patches, in pixels (`window = 64`). */
  const Window: nat := 64

  /** Block positions advanced per step (`cells_per_step = 2`). */
  const CellsPerStep: nat := 2

  /** `np.int(n / scale)` for a pixel count `n`. */
  function Unscale(n: nat, scale: PosFraction): nat
  {
    MulNonNeg(n, scale.den);
    TruncNonNeg(n * scale.den, scale.num);
    Trunc(n * scale.den, scale.num)
  }

  /** The search surface: `img[ystart:ystop, xstart:xstop]` in the colour
      space, resized to `(int(w / scale), int(h / scale))` unless the scale
      is 1. */
  function SearchSurface(img: Image, ystart: int, ystop: int, xstart: int, xstop: int,
                         scale: PosFraction, cs: ColorSpace, lib: Library): Image
  {
    Rescaled(ToColorSpace(Crop(img, ystart, ystop, xstart, xstop), cs, lib), scale, lib)
  }

  /** `cv2.resize(ctrans, (int(w / scale), int(h / scale)))` unless the scale is 1. */
  function Rescaled(ctrans: Image, scale: PosFraction, lib: Library): Image
  {
    if scale.num == scale.den then ctrans
    else lib.resize(ctrans, Unscale(Width(ctrans), scale), Unscale(|ctrans|, scale))
  }

  /** HOG blocks per 64-pixel window (`nblocks_per_window`). */
  function BlocksPerWindow(hp: HogParams): int
  {
    Window / hp.pixPerCell - hp.cellPerBlock + 1
  }

  /** The number of steps along an axis of `n` surface pixels as the source
      computes it: `(nblocks - nblocks_per_window) // cells_per_step`, where
      `nblocks = n // pix_per_cell - cell_per_block + 1`. Dafny's `/` by a
      positive divisor is Python's floor division. */
  function StepsAsWritten(n: nat, hp: HogParams): (r: int)
    ensures r == (n / hp.pixPerCell - Window / hp.pixPerCell) / CellsPerStep
    ensures Window <= n ==> r >= 0
  {
    var nblocks := n / hp.pixPerCell - hp.cellPerBlock + 1;
    (nblocks - BlocksPerWindow(hp)) / CellsPerStep
  }

  /** The number of window positions along an axis of `n` surface pixels:
      one per position, `cells_per_step * pix_per_cell` pixels apart, whose
      64-pixel patch fits on the axis. */
  function Steps(n: nat, hp: HogParams): nat
  {
    if n >= Window then (n - Window) / (CellsPerStep * hp.pixPerCell) + 1 else 0
  }

  /** The positions of column `xb`, top to bottom. */
  function Column(xb: nat, ny: nat): seq<(nat, nat)>
  {
    seq(ny, yb requires 0 <= yb < ny => (xb, yb as nat))
  }

  function Columns(nx: nat, ny: nat): seq<seq<(nat, nat)>>
  {
    seq(nx, xb requires 0 <= xb < nx => Column(xb, ny))
  }

  /** Step positions in the order the loops visit them: `xb` outer, `yb` inner. */
  function Candidates(nx: nat, ny: nat): seq<(nat, nat)>
  {
    Concat(Columns(nx, ny))
  }

  lemma CandidatesSize(nx: nat, ny: nat)
    ensures |Candidates(nx, ny)| == nx * ny
  {
    assert Uniform(Columns(nx, ny), ny);
    ConcatUniformLength(Columns(nx, ny), ny);
  }

  /** Position `(xb, yb)` is visited as the `xb * ny + yb`-th window: column
      by column, each column top to bottom. */
  lemma CandidatesAt(nx: nat, ny: nat, xb: nat, yb: nat)
    requires xb < nx && yb < ny
    ensures |Candidates(nx, ny)| == nx * ny
    ensures xb * ny + yb < nx * ny && Candidates(nx, ny)[xb * ny + yb] == (xb, yb)
  {
    assert Uniform(Columns(nx, ny), ny);
    ConcatUniformAt(Columns(nx, ny), ny, xb, yb);
  }

  /** Every visited position lies in the `nx x ny` step grid. */
  lemma CandidatesInRange(nx: nat, ny: nat, k: nat)
    requires k < |Candidates(nx, ny)|
    ensures Candidates(nx, ny)[k].0 < nx && Candidates(nx, ny)[k].1 < ny
  {
    ConcatMember(Columns(nx, ny), k);
  }

  /** `hog[ypos:ypos+nbpw, xpos:xpos+nbpw].ravel()` */
  function HogSlice(g: HogGrid, ypos: int, xpos: int, nbpw: int): seq<real>
  {
    RavelGrid(Crop(g, ypos, ypos + nbpw, xpos, xpos + nbpw))
  }

  /** Everything one sub-sampling search fixes: the surface, the HOG and
      feature settings, the scale and offsets, and the external operations. */
  datatype Search = Search(
    surface: Image,
    hogChannel: HogChannel,
    hp: HogParams,
    prms: Prms,
    scale: PosFraction,
    xstart: int,
    ystart: int,
    lib: Library,
    scaler: seq<real> -> seq<real>,
    predict: seq<real> -> int)

  /** The block grid of channel `c` of the whole surface. */
  function ChannelHog(s: Search, c: ChannelIndex): HogGrid
  {
    s.lib.hog(ChannelPlane(s.surface, c), s.hp)
  }

  /** The HOG features of the window at step `(xb, yb)`: the slice of channel
      0, or the slices of all three channels in channel order. */
  function PatchHog(s: Search, xb: nat, yb: nat): seq<real>
  {
    var ypos, xpos := yb * CellsPerStep, xb * CellsPerStep;
    var nbpw := BlocksPerWindow(s.hp);
    var f1 := HogSlice(ChannelHog(s, 0), ypos, xpos, nbpw);
    if s.hogChannel.AllChannels? then
      f1 + HogSlice(ChannelHog(s, 1), ypos, xpos, nbpw) + HogSlice(ChannelHog(s, 2), ypos, xpos, nbpw)
    else f1
  }

  /** The pixel offset `pos * pix_per_cell` of step `i`, where `pos = i * cells_per_step`. */
  function StepOffset(i: nat, hp: HogParams): nat
  {
    MulNonNeg(i, CellsPerStep);
    MulNonNeg(i * CellsPerStep, hp.pixPerCell);
    i * CellsPerStep * hp.pixPerCell
  }

  /** The surface pixels of the window at step `(xb, yb)`, resized to 64 x 64. */
  function PatchImage(s: Search, xb: nat, yb: nat): Image
  {
    var xleft := xb * CellsPerStep * s.hp.pixPerCell;
    var ytop := yb * CellsPerStep * s.hp.pixPerCell;
    s.lib.resize(Crop(s.surface, ytop, ytop + Window, xleft, xleft + Window), Window, Window)
  }

  /** The window's feature vector: spatial, histogram, HOG. */
  function PatchFeatures(s: Search, xb: nat, yb: nat): seq<real>
    requires s.prms.nBins > 0
  {
    var subimg := PatchImage(s, xb, yb);
    BinSpatial(subimg, s.prms.spatialSize, s.lib) + AsReals(ColorHist(subimg, s.prms.nBins)) + PatchHog(s, xb, yb)
  }

  predicate Positive(s: Search, xb: nat, yb: nat)
    requires s.prms.nBins > 0
  {
    s.predict(s.scaler(PatchFeatures(s, xb, yb))) == 1
  }

  /** The box reported for a window whose top-left surface pixel is
      `(xleft, ytop)`: `((int(xleft*scale) + xstart, int(ytop*scale) + ystart),
      (+ int(64*scale), + int(64*scale)))`. */
  function ScaledBox(xleft: int, ytop: int, scale: PosFraction, xstart: int, ystart: int): (b: Box)
    ensures b.x2 - b.x1 == TruncMul(Window, scale) && b.y2 - b.y1 == TruncMul(Window, scale)
    ensures TruncMul(Window, scale) >= 0
    ensures xleft >= 0 ==> b.x1 >= xstart
    ensures ytop >= 0 ==> b.y1 >= ystart
  {
    var xboxLeft := TruncMul(xleft, scale) + xstart;
    var ytopDraw := TruncMul(ytop, scale);
    var winDraw := TruncMul(Window, scale);
    Box(xboxLeft, ytopDraw + ystart, xboxLeft + winDraw, ytopDraw + winDraw + ystart)
  }

  /** The reported box of the window at step `(xb, yb)`. */
  function PatchBox(s: Search, xb: nat, yb: nat): Box
  {
    ScaledBox(xb * CellsPerStep * s.hp.pixPerCell, yb * CellsPerStep * s.hp.pixPerCell, s.scale, s.xstart, s.ystart)
  }

  /** The window's box when the classifier labels it 1, nothing otherwise. */
  function Detected(s: Search, c: (nat, nat)): seq<Box>
    requires s.prms.nBins > 0
  {
    if Positive(s, c.0, c.1) then [PatchBox(s, c.0, c.1)] else []
  }

  /** `Detected` for a fixed search, as a function of the window. */
  function Detector(s: Search): ((nat, nat)) -> seq<Box>
    requires s.prms.nBins > 0
  {
    c => Detected(s, c)
  }

  /** The boxes of the positive windows among `cands`, in order. */
  function Detections(s: Search, cands: seq<(nat, nat)>): seq<Box>
    requires s.prms.nBins > 0
  {
    FlatMap(cands, Detector(s))
  }

  /** What `find_cars` returns: no boxes at all (a `NameError`) when the HOG
      channel is 1 or 2, since the grid size is read from `ch1`; otherwise the
      boxes of the positive windows in visiting order. */
  function FindCarsSpec(img: Image, ystart: int, ystop: int, scale: PosFraction,
                        scaler: seq<real> -> seq<real>, predict: seq<real> -> int,
                        hogChannel: HogChannel, hp: HogParams, prms: Prms, lib: Library,
                        xstart: int, xstop: int): Option<seq<Box>>
    requires prms.nBins > 0
  {
    if hogChannel.OneChannel? && hogChannel.index != 0 then None
    else
      var surface := SearchSurface(img, ystart, ystop, xstart, xstop, scale, prms.colorSpace, lib);
      var s := Search(surface, hogChannel, hp, prms, scale, xstart, ystart, lib, scaler, predict);
      Some(Detections(s, Candidates(Steps(Width(surface), hp), Steps(|surface|, hp))))
  }

  /** The window positions the source's loops visit: `range(nxsteps)` by
      `range(nysteps)` with the step counts as written. */
  function CandidatesAsWritten(s: Search): seq<(nat, nat)>
  {
    Candidates(RangeLen(StepsAsWritten(Width(s.surface), s.hp)), RangeLen(StepsAsWritten(|s.surface|, s.hp)))
  }

  /** What `find_cars` as written returns: as `FindCarsSpec`, but scanning
      only the positions its step counts reach. */
  function FindCarsAsWrittenSpec(img: Image, ystart: int, ystop: int, scale: PosFraction,
                                 scaler: seq<real> -> seq<real>, predict: seq<real> -> int,
                                 hogChannel: HogChannel, hp: HogParams, prms: Prms, lib: Library,
                                 xstart: int, xstop: int): Option<seq<Box>>
    requires prms.nBins > 0
  {
    if hogChannel.OneChannel? && hogChannel.index != 0 then None
    else
      var surface := SearchSurface(img, ystart, ystop, xstart, xstop, scale, prms.colorSpace, lib);
      var s := Search(surface, hogChannel, hp, prms, scale, xstart, ystart, lib, scaler, predict);
      Some(Detections(s, CandidatesAsWritten(s)))
  }

  /** The HOG features of one window: the block slice of the precomputed
      grid of channel 0, followed by those of channels 1 and 2 for `'ALL'`. */
  method WindowHog(s: Search, hog1: HogGrid, hog2: HogGrid, hog3: HogGrid, xb: nat, yb: nat)
    returns (hogFeatures: seq<real>)
    requires hog1 == ChannelHog(s, 0)
    requires s.hogChannel.AllChannels? ==> hog2 == ChannelHog(s, 1) && hog3 == ChannelHog(s, 2)
    ensures hogFeatures == PatchHog(s, xb, yb)
  {
    var nblocksPerWindow := Window / s.hp.pixPerCell - s.hp.cellPerBlock + 1;
    var ypos := yb * CellsPerStep;
    var xpos := xb * CellsPerStep;
    hogFeatures := HogSlice(hog1, ypos, xpos, nblocksPerWindow);
    if s.hogChannel.AllChannels? {
      hogFeatures := hogFeatures + HogSlice(hog2, ypos, xpos, nblocksPerWindow) + HogSlice(hog3, ypos, xpos, nblocksPerWindow);
    }
  }

  /** One pass of the inner loop of `find_cars`: slice the precomputed HOG
      grids, cut and resize the pixel patch, classify the concatenated
      features, and yield the window's box when the classifier says 1. */
  method ClassifyWindow(s: Search, hog1: HogGrid, hog2: HogGrid, hog3: HogGrid, xb: nat, yb: nat)
    returns (detected: seq<Box>)
    requires s.prms.nBins > 0
    requires hog1 == ChannelHog(s, 0)
    requires s.hogChannel.AllChannels? ==> hog2 == ChannelHog(s, 1) && hog3 == ChannelHog(s, 2)
    ensures detected == Detected(s, (xb, yb))
  {
    var hogFeatures := WindowHog(s, hog1, hog2, hog3, xb, yb);
    var xleft := xb * CellsPerStep * s.hp.pixPerCell;
    var ytop := yb * CellsPerStep * s.hp.pixPerCell;
    var subimg := s.lib.resize(Crop(s.surface, ytop, ytop + Window, xleft, xleft + Window), Window, Window);
    assert subimg == PatchImage(s, xb, yb);
    var features := BinSpatial(subimg, s.prms.spatialSize, s.lib) + AsReals(ColorHist(subimg, s.prms.nBins)) + hogFeatures;
    assert features == PatchFeatures(s, xb, yb);
    var testPrediction := s.predict(s.scaler(features));
    detected := [];
    if testPrediction == 1 {
      detected := [ScaledBox(xleft, ytop, s.scale, s.xstart, s.ystart)];
    }
  }

  /** The inner loop of `find_cars`: `yb` over `range(nysteps)` for one
      `xb`, collecting the boxes of the positive windows of that column. */
  method ScanColumn(s: Search, hog1: HogGrid, hog2: HogGrid, hog3: HogGrid, xb: nat, ny: nat)
    returns (boxes: seq<Box>)
    requires s.prms.nBins > 0
    requires hog1 == ChannelHog(s, 0)
    requires s.hogChannel.AllChannels? ==> hog2 == ChannelHog(s, 1) && hog3 == ChannelHog(s, 2)
    ensures boxes == Detections(s, Column(xb, ny))
  {
    ghost var column := Column(xb, ny);
    boxes := [];
    for yb := 0 to ny
      invariant boxes == Detections(s, column[..yb])
    {
      var detected := ClassifyWindow(s, hog1, hog2, hog3, xb, yb);
      FlatMapStep(column, Detector(s), yb);
      boxes := boxes + detected;
    }
    assert column[..ny] == column;
  }

  /** The nested loops of `find_cars`: `xb` over `range(nxsteps)` outside,
      `yb` over `range(nysteps)` inside, collecting the boxes of the positive
      windows. */
  method ScanSteps(s: Search, hog1: HogGrid, hog2: HogGrid, hog3: HogGrid, nx: nat, ny: nat)
    returns (boxes: seq<Box>)
    requires s.prms.nBins > 0
    requires hog1 == ChannelHog(s, 0)
    requires s.hogChannel.AllChannels? ==> hog2 == ChannelHog(s, 1) && hog3 == ChannelHog(s, 2)
    ensures boxes == Detections(s, Candidates(nx, ny))
  {
    ghost var columns := Columns(nx, ny);
    boxes := [];
    for xb := 0 to nx
      invariant boxes == Detections(s, Concat(columns[..xb]))
    {
      var column := ScanColumn(s, hog1, hog2, hog3, xb, ny);
      assert Concat(columns[..xb + 1]) == Concat(columns[..xb]) + columns[xb] by {
        assert columns[..xb + 1][..xb] == columns[..xb];
      }
      FlatMapAppend(Concat(columns[..xb]), columns[xb], Detector(s));
      boxes := boxes + column;
    }
    assert columns[..nx] == columns;
  }

  /** The block grids `find_cars` computes once per surface: channel 0's,
      and for `'ALL'` those of channels 1 and 2 as well. */
  method SurfaceHogs(s: Search) returns (hog1: HogGrid, hog2: HogGrid, hog3: HogGrid)
    ensures hog1 == ChannelHog(s, 0)
    ensures s.hogChannel.AllChannels? ==> hog2 == ChannelHog(s, 1) && hog3 == ChannelHog(s, 2)
  {
    hog1 := s.lib.hog(ChannelPlane(s.surface, 0), s.hp);
    hog2, hog3 := [], [];
    if s.hogChannel.AllChannels? {
      hog2 := s.lib.hog(ChannelPlane(s.surface, 1), s.hp);
      hog3 := s.lib.hog(ChannelPlane(s.surface, 2), s.hp);
    }
  }

  /** The part of `find_cars` after the surface is ready, with the step
      counts corrected to visit every window that fits: take the HOG
      channel(s), count the steps, compute the block grids once and scan
      every window position. */
  method ScanSurface(s: Search) returns (boxes: seq<Box>)
    requires s.prms.nBins > 0
    ensures boxes == Detections(s, Candidates(Steps(Width(s.surface), s.hp), Steps(|s.surface|, s.hp)))
  {
    var hp := s.hp;
    var ch1 := ChannelPlane(s.surface, 0);
    var width, height := Width(ch1), |ch1|;
    assert width == Width(s.surface) && height == |s.surface|;
    var nxsteps := if width >= Window then (width - Window) / (CellsPerStep * hp.pixPerCell) + 1 else 0;
    var nysteps := if height >= Window then (height - Window) / (CellsPerStep * hp.pixPerCell) + 1 else 0;
    var hog1, hog2, hog3 := SurfaceHogs(s);
    assert nxsteps == Steps(width, hp) && nysteps == Steps(height, hp);
    boxes := ScanSteps(s, hog1, hog2, hog3, nxsteps, nysteps);
  }

  /** The same part of `find_cars` with the step counts as the source
      computes them, `(nblocks - nblocks_per_window) // cells_per_step`,
      looped over with `range`, which is empty for a negative count. */
  method ScanSurfaceAsWritten(s: Search) returns (boxes: seq<Box>)
    requires s.prms.nBins > 0
    ensures boxes == Detections(s, CandidatesAsWritten(s))
  {
    var hp := s.hp;
    var ch1 := ChannelPlane(s.surface, 0);
    var nxblocks := Width(ch1) / hp.pixPerCell - hp.cellPerBlock + 1;
    var nyblocks := |ch1| / hp.pixPerCell - hp.cellPerBlock + 1;
    var nblocksPerWindow := Window / hp.pixPerCell - hp.cellPerBlock + 1;
    var nxsteps := (nxblocks - nblocksPerWindow) / CellsPerStep;
    var nysteps := (nyblocks - nblocksPerWindow) / CellsPerStep;
    var hog1, hog2, hog3 := SurfaceHogs(s);
    assert nxsteps == StepsAsWritten(Width(s.surface), hp) && nysteps == StepsAsWritten(|s.surface|, hp);
    boxes := ScanSteps(s, hog1, hog2, hog3, RangeLen(nxsteps), RangeLen(nysteps));
  }

  /** The search surface of `find_cars`: the region cropped, converted and,
      unless the scale is 1, resized by `1 / scale`. */
  method PrepareSurface(img: Image, ystart: int, ystop: int, xstart: int, xstop: int,
                        scale: PosFraction, cs: ColorSpace, lib: Library)
    returns (ctransToSearch: Image)
    ensures ctransToSearch == SearchSurface(img, ystart, ystop, xstart, xstop, scale, cs, lib)
    ensures ShapeContracts(lib) && Rect(img) && 0 <= ystart <= ystop && 0 <= xstart <= xstop ==>
      && Rect(ctransToSearch)
      && ScaledWithin(|ctransToSearch|, scale, ystop - ystart)
      && ScaledWithin(Width(ctransToSearch), scale, xstop - xstart)
  {
    var imgToSearch := Crop(img, ystart, ystop, xstart, xstop);
    ctransToSearch := ToColorSpace(imgToSearch, cs, lib);
    if scale.num != scale.den {
      ctransToSearch := lib.resize(ctransToSearch, Unscale(Width(ctransToSearch), scale), Unscale(|ctransToSearch|, scale));
    }
    if ShapeContracts(lib) && Rect(img) && 0 <= ystart <= ystop && 0 <= xstart <= xstop {
      SurfaceShape(img, ystart, ystop, xstart, xstop, scale, cs, lib);
    }
  }

  /** `find_cars` with the step counts corrected (see `StepsMissLastPosition`),
      returning the box list (the drawn copy of the image is not modelled). */
  method FindCars(img: Image, ystart: int, ystop: int, scale: PosFraction,
                  scaler: seq<real> -> seq<real>, predict: seq<real> -> int,
                  hogChannel: HogChannel, hp: HogParams, prms: Prms, lib: Library,
                  xstart: int, xstop: int)
    returns (boxList: Option<seq<Box>>)
    requires prms.nBins > 0
    ensures boxList == FindCarsSpec(img, ystart, ystop, scale, scaler, predict, hogChannel, hp, prms, lib, xstart, xstop)
  {
    var ctransToSearch := PrepareSurface(img, ystart, ystop, xstart, xstop, scale, prms.colorSpace, lib);
    if hogChannel.OneChannel? && hogChannel.index != 0 {
      return None;
    }
    var boxes := ScanSurface(Search(ctransToSearch, hogChannel, hp, prms, scale, xstart, ystart, lib, scaler, predict));
    return Some(boxes);
  }

  /** `find_cars` as written: the same surface and classification, with the
      source's step counts. */
  method FindCarsAsWritten(img: Image, ystart: int, ystop: int, scale: PosFraction,
                           scaler: seq<real> -> seq<real>, predict: seq<real> -> int,
                           hogChannel: HogChannel, hp: HogParams, prms: Prms, lib: Library,
                           xstart: int, xstop: int)
    returns (boxList: Option<seq<Box>>)
    requires prms.nBins > 0
    ensures boxList == FindCarsAsWrittenSpec(img, ystart, ystop, scale, scaler, predict, hogChannel, hp, prms, lib, xstart, xstop)
  {
    var ctransToSearch := PrepareSurface(img, ystart, ystop, xstart, xstop, scale, prms.colorSpace, lib);
    if hogChannel.OneChannel? && hogChannel.index != 0 {
      return None;
    }
    var boxes := ScanSurfaceAsWritten(Search(ctransToSearch, hogChannel, hp, prms, scale, xstart, ystart, lib, scaler, predict));
    return Some(boxes);
  }

  // ---------------------------------------------------------------------
  // What the search reports
  // ---------------------------------------------------------------------

  /** The boxes of the windows in `cands`, in order. */
  function Boxes(s: Search, cands: seq<(nat, nat)>): (r: seq<Box>)
    ensures |r| == |cands|
  {
    if cands == [] then [] else Boxes(s, cands[..|cands| - 1]) + [PatchBox(s, cands[|cands| - 1].0, cands[|cands| - 1].1)]
  }

  /** The detections are the boxes of exactly the positive windows, in the
      order the windows are visited. */
  lemma {:induction false} DetectionsFiltered(s: Search, cands: seq<(nat, nat)>)
    requires s.prms.nBins > 0
    ensures Detections(s, cands) == Boxes(s, Filter(cands, (c: (nat, nat)) => Positive(s, c.0, c.1)))
  {
    var keep := (c: (nat, nat)) => Positive(s, c.0, c.1);
    if cands != [] {
      var n := |cands| - 1;
      DetectionsFiltered(s, cands[..n]);
      assert Detections(s, cands) == Detections(s, cands[..n]) + Detected(s, cands[n]);
      var f := Filter(cands[..n], keep);
      if keep(cands[n]) {
        assert Filter(cands, keep) == f + [cands[n]];
        assert (f + [cands[n]])[..|f|] == f;
      } else {
        assert Filter(cands, keep) == f + [];
        assert f + [] == f;
      }
    }
  }

  /** A window yields box `b` exactly when the classifier labels it 1 and
      `b` is its box. */
  lemma DetectedMembers(s: Search, c: (nat, nat), b: Box)
    requires s.prms.nBins > 0
    ensures b in Detected(s, c) <==> Positive(s, c.0, c.1) && b == PatchBox(s, c.0, c.1)
  {
  }

  /** A box is reported exactly when some visited window yields it. */
  lemma DetectionsMembers(s: Search, cands: seq<(nat, nat)>, b: Box)
    requires s.prms.nBins > 0
    ensures b in Detections(s, cands) <==> exists k :: 0 <= k < |cands| && b in Detected(s, cands[k])
  {
    FlatMapMembers(cands, Detector(s), b);
  }

  // ---------------------------------------------------------------------
  // Geometry: windows stay inside the surface and the block grid
  // ---------------------------------------------------------------------

  /** Position `p` is counted by `Steps` exactly when its 64-pixel patch,
      starting at pixel `p * cells_per_step * pix_per_cell`, fits on the axis. */
  lemma StepsExact(n: nat, hp: HogParams, p: nat)
    ensures p < Steps(n, hp) <==> p * CellsPerStep * hp.pixPerCell + Window <= n
  {
    var d := CellsPerStep * hp.pixPerCell;
    assert p * CellsPerStep * hp.pixPerCell == p * d;
    MulNonNeg(p, d);
    if n >= Window {
      var k := (n - Window) / d;
      DivBounds(n - Window, d);
      if p <= k {
        MulMonoInt(p, k, d);
      } else {
        assert (k + 1) * d <= p * d by { MulMonoInt(k + 1, p, d); }
        Distrib(d, k, 1);
      }
    }
  }

  /** The window at step `i < nsteps` ends inside the axis, and its block
      slice `[2i : 2i + nblocks_per_window]` inside the block grid. */
  lemma StepFits(n: nat, hp: HogParams, i: nat)
    requires i < Steps(n, hp)
    ensures i * CellsPerStep + BlocksPerWindow(hp) <= n / hp.pixPerCell - hp.cellPerBlock + 1
    ensures i * CellsPerStep * hp.pixPerCell + Window <= n
  {
    StepsExact(n, hp, i);
    var ppc := hp.pixPerCell;
    var a, m := i * CellsPerStep, Window / ppc;
    DivBounds(Window, ppc);
    DivBounds(n, ppc);
    assert (a + m) * ppc < (n / ppc + 1) * ppc by {
      Distrib(ppc, a, m);
      Distrib(ppc, n / ppc, 1);
    }
    MulLess(a + m, n / ppc + 1, ppc);
  }

  /** Every position the source's loop visits fits on the axis: the loop
      covers a prefix of the positions counted by `Steps`. */
  lemma AsWrittenPrefix(n: nat, hp: HogParams)
    ensures RangeLen(StepsAsWritten(n, hp)) <= Steps(n, hp)
  {
    var saw := StepsAsWritten(n, hp);
    if saw > 0 {
      var i := saw - 1;
      var ppc := hp.pixPerCell;
      var q, m := n / ppc, Window / ppc;
      assert saw == (q - m) / 2;
      assert 2 * i + m + 2 <= q;
      DivBounds(n, ppc);
      DivBounds(Window, ppc);
      MulMonoInt(2 * i + m + 2, q, ppc);
      assert (2 * i + m + 2) * ppc == (2 * i) * ppc + m * ppc + 2 * ppc by {
        Distrib(ppc, 2 * i + m, 2);
        Distrib(ppc, 2 * i, m);
      }
      StepsExact(n, hp, i);
    }
  }

  /** When `pix_per_cell` divides 64, the source's loop stops one position
      short: position `StepsAsWritten(n, hp)` fits on the axis but is never
      visited. */
  lemma StepsMissLastPosition(n: nat, hp: HogParams)
    requires Window % hp.pixPerCell == 0 && Window <= n
    ensures StepsAsWritten(n, hp) >= 0
    ensures StepsAsWritten(n, hp) + 1 == Steps(n, hp)
  {
    var ppc := hp.pixPerCell;
    var m := Window / ppc;
    assert Window == m * ppc;
    assert StepsAsWritten(n, hp) == (n / ppc - m) / CellsPerStep;
    NestedFloorDiv(n, ppc, m);
  }

  /** Dividing by `p` and then by 2 is dividing by `2 * p`, after removing
      `m` whole multiples of `p`. */
  lemma NestedFloorDiv(n: nat, p: nat, m: nat)
    requires p > 0 && m * p <= n
    ensures n / p - m >= 0
    ensures (n / p - m) / 2 == (n - m * p) / (2 * p)
  {
    var q, r := n / p, n % p;
    assert n == q * p + r;
    assert q >= m by {
      assert m * p < (q + 1) * p by { Distrib(p, q, 1); }
      MulLess(m, q + 1, p);
    }
    var t, e := (q - m) / 2, (q - m) % 2;
    assert q - m == 2 * t + e;
    assert n - m * p == t * (2 * p) + (e * p + r) by {
      Distrib(p, q, -(m as int));
      Distrib(p, 2 * t, e);
      assert (2 * t) * p == t * (2 * p);
    }
    assert e * p <= p by { MulMonoInt(e, 1, p); }
    MulNonNeg(t, 2 * p);
    DivUnique(n - m * p, 2 * p, t);
  }

  /** A strip exactly one window high (64 pixels, 8 pixels per cell, 2 cells
      per block) holds one window position, and the source's loop visits
      none. */
  lemma OneWindowStripHasNoWindows()
    ensures StepsAsWritten(Window, HogParams(9, 8, 2)) == 0
    ensures Steps(Window, HogParams(9, 8, 2)) == 1
  {
  }

  /** `int(n / scale)` scaled back by `scale` does not exceed `n`. */
  lemma UnscaleBound(n: nat, scale: PosFraction)
    ensures Unscale(n, scale) * scale.num <= n * scale.den
  {
    MulNonNeg(n, scale.den);
    TruncNonNeg(n * scale.den, scale.num);
    DivBounds(n * scale.den, scale.num);
  }

  /** A patch that ends inside a surface axis of `ns` pixels, where the
      surface is the original axis of `nc` pixels divided by `scale`, maps
      back to a span inside `[0, nc]`. */
  lemma ScaleBackFits(xleft: nat, ns: nat, nc: nat, scale: PosFraction)
    requires xleft + Window <= ns
    requires ns * scale.num <= nc * scale.den
    ensures 0 <= TruncMul(xleft, scale)
    ensures TruncMul(xleft, scale) + TruncMul(Window, scale) <= nc
  {
    var d := scale.den;
    var a, b := xleft * scale.num, Window * scale.num;
    MulNonNeg(xleft, scale.num);
    TruncNonNeg(a, d);
    TruncNonNeg(b, d);
    DivBounds(a, d);
    DivBounds(b, d);
    MulMonoInt(xleft + Window, ns, scale.num);
    assert a + b == (xleft + Window) * scale.num by { Distrib(scale.num, xleft, Window); }
    assert (a / d + b / d) * d == (a / d) * d + (b / d) * d by { Distrib(d, a / d, b / d); }
    MulLess(a / d + b / d, nc, d);
  }

  /** `n` surface pixels, scaled back by `scale`, span at most `c` pixels. */
  predicate ScaledWithin(n: nat, scale: PosFraction, c: nat)
  {
    n * scale.num <= c * scale.den
  }

  /** For any search region with non-negative bounds, the search surface is
      a rectangular image whose sides, multiplied by `scale`, do not exceed
      the region's: a region reaching past the image (the default
      `xstop = 1280` on a narrower frame) is clipped by numpy first. */
  lemma SurfaceShape(img: Image, ystart: int, ystop: int, xstart: int, xstop: int,
                     scale: PosFraction, cs: ColorSpace, lib: Library)
    requires ShapeContracts(lib) && Rect(img)
    requires 0 <= ystart <= ystop && 0 <= xstart <= xstop
    ensures var surface := SearchSurface(img, ystart, ystop, xstart, xstop, scale, cs, lib);
      && Rect(surface)
      && ScaledWithin(|surface|, scale, ystop - ystart)
      && ScaledWithin(Width(surface), scale, xstop - xstart)
  {
    var ctrans := ToColorSpace(Crop(img, ystart, ystop, xstart, xstop), cs, lib);
    ClampedConvertedCropShape(img, ystart, ystop, xstart, xstop, cs, lib);
    RescaledShape(ctrans, ystop - ystart, xstop - xstart, scale, lib);
    assert SearchSurface(img, ystart, ystop, xstart, xstop, scale, cs, lib) == Rescaled(ctrans, scale, lib);
  }

  /** A rectangular image of height at most `h` and width at most `w`, kept
      at scale 1 or resized by `1 / scale`, is rectangular and its sides
      scaled back span at most `h` and `w`. */
  lemma RescaledShape(ctrans: Image, h: nat, w: nat, scale: PosFraction, lib: Library)
    requires ShapeContracts(lib)
    requires Rect(ctrans) && |ctrans| <= h && Width(ctrans) <= w
    ensures var surface := Rescaled(ctrans, scale, lib);
      && Rect(surface)
      && ScaledWithin(|surface|, scale, h)
      && ScaledWithin(Width(surface), scale, w)
  {
    var wc, hc := Width(ctrans), |ctrans|;
    if scale.num != scale.den {
      ResizedShape(ctrans, Unscale(wc, scale), Unscale(hc, scale), lib);
    }
    var surface := Rescaled(ctrans, scale, lib);
    SideWithin(Width(surface), wc, w, scale);
    SideWithin(|surface|, hc, h, scale);
  }

  /** The converted crop of an in-image region is a grid of the region's
      height and at most its width. */
  lemma ConvertedCropShape(img: Image, ystart: int, ystop: int, xstart: int, xstop: int,
                           cs: ColorSpace, lib: Library)
    requires ShapeContracts(lib) && Rect(img)
    requires 0 <= ystart <= ystop <= |img| && 0 <= xstart <= xstop <= Width(img)
    ensures var ctrans := ToColorSpace(Crop(img, ystart, ystop, xstart, xstop), cs, lib);
      Rect(ctrans) && |ctrans| == ystop - ystart && Width(ctrans) <= xstop - xstart
  {
    var crop := Crop(img, ystart, ystop, xstart, xstop);
    CropInside(img, |img|, Width(img), ystart, ystop, xstart, xstop);
    GridRect(crop, ystop - ystart, xstop - xstart);
    GridRect(ToColorSpace(crop, cs, lib), |crop|, Width(crop));
  }

  /** The converted crop of any region with non-negative bounds is a
      rectangular grid at most the region's height and width: numpy clips
      the slice to the image, so a region reaching past the image yields a
      smaller grid, never a larger one. */
  lemma ClampedConvertedCropShape(img: Image, ystart: int, ystop: int, xstart: int, xstop: int,
                                  cs: ColorSpace, lib: Library)
    requires ShapeContracts(lib) && Rect(img)
    requires 0 <= ystart <= ystop && 0 <= xstart <= xstop
    ensures var ctrans := ToColorSpace(Crop(img, ystart, ystop, xstart, xstop), cs, lib);
      Rect(ctrans) && |ctrans| <= ystop - ystart && Width(ctrans) <= xstop - xstart
  {
    var crop := Crop(img, ystart, ystop, xstart, xstop);
    ClampedCropShape(img, ystart, ystop, xstart, xstop);
    GridRect(ToColorSpace(crop, cs, lib), |crop|, Width(crop));
  }

  /** `cv2.resize` to `(w, h)` yields a grid of height `h` and at most width `w`. */
  lemma ResizedShape(img: Image, w: nat, h: nat, lib: Library)
    requires ShapeContracts(lib)
    ensures var r := lib.resize(img, w, h);
      Rect(r) && |r| == h && Width(r) <= w
  {
    GridRect(lib.resize(img, w, h), h, w);
  }

  /** A side of `m` pixels, at most the `n` pixels of the converted crop
      (or `int(n / scale)` after resizing), where `n` is at most `c`, spans
      at most `c` pixels once scaled back. */
  lemma SideWithin(m: nat, n: nat, c: nat, scale: PosFraction)
    requires m <= (if scale.num == scale.den then n else Unscale(n, scale))
    requires n <= c
    ensures ScaledWithin(m, scale, c)
  {
    MulMonoInt(n, c, scale.den);
    if scale.num == scale.den {
      MulMonoInt(m, n, scale.num);
    } else {
      UnscaleBound(n, scale);
      MulMonoInt(m, Unscale(n, scale), scale.num);
    }
  }

  /** A 64 x 64 patch whose top-left pixel `(xleft, ytop)` leaves room for a
      whole window is cut out of a rectangular surface unclipped. */
  lemma WindowCrop(g: Image, ytop: nat, xleft: nat)
    requires Rect(g) && ytop + Window <= |g| && xleft + Window <= Width(g)
    ensures SubGridAt(Crop(g, ytop, ytop + Window, xleft, xleft + Window), g, ytop, xleft, Window, Window)
  {
    CropInside(g, |g|, Width(g), ytop, ytop + Window, xleft, xleft + Window);
  }

  /** Every window's pixel patch `surface[ytop:ytop+64, xleft:xleft+64]` is a
      full 64 x 64 block of the surface: no window is clipped by numpy's
      slicing. */
  lemma PatchInsideSurface(s: Search, xb: nat, yb: nat)
    requires Rect(s.surface)
    requires xb < Steps(Width(s.surface), s.hp) && yb < Steps(|s.surface|, s.hp)
    ensures StepOffset(yb, s.hp) + Window <= |s.surface| && StepOffset(xb, s.hp) + Window <= Width(s.surface)
    ensures var xleft, ytop := StepOffset(xb, s.hp), StepOffset(yb, s.hp);
      SubGridAt(Crop(s.surface, ytop, ytop + Window, xleft, xleft + Window), s.surface, ytop, xleft, Window, Window)
  {
    StepFits(Width(s.surface), s.hp, xb);
    StepFits(|s.surface|, s.hp, yb);
    WindowCrop(s.surface, StepOffset(yb, s.hp), StepOffset(xb, s.hp));
  }

  /** A block slice `[pos:pos+nbpw]` of a grid holding at least `pos + nbpw`
      blocks, raveled, has the length of the HOG vector of a 64 x 64 patch. */
  lemma HogSliceLength(g: HogGrid, ny: nat, nx: nat, hp: HogParams, ypos: nat, xpos: nat)
    requires IsHogGrid(g, ny, nx, BlockLen(hp))
    requires BlocksPerWindow(hp) >= 1
    requires ypos + BlocksPerWindow(hp) <= ny && xpos + BlocksPerWindow(hp) <= nx
    ensures |HogSlice(g, ypos, xpos, BlocksPerWindow(hp))| == HogLen(Window, Window, hp)
  {
    var nbpw := BlocksPerWindow(hp);
    var slice := Crop(g, ypos, ypos + nbpw, xpos, xpos + nbpw);
    CropInside(g, ny, nx, ypos, ypos + nbpw, xpos, xpos + nbpw);
    assert IsHogGrid(slice, nbpw, nbpw, BlockLen(hp));
    RavelGridLength(slice, nbpw, nbpw, BlockLen(hp));
    assert BlocksAlong(Window, hp) == nbpw;
  }

  /** Every slice `[ypos:ypos+nbpw, xpos:xpos+nbpw]` the loops take lies
      inside the block grid of the surface. */
  lemma SliceInsideGrid(s: Search, xb: nat, yb: nat)
    requires Rect(s.surface) && BlocksPerWindow(s.hp) >= 1
    requires xb < Steps(Width(s.surface), s.hp) && yb < Steps(|s.surface|, s.hp)
    ensures yb * CellsPerStep + BlocksPerWindow(s.hp) <= BlocksAlong(|s.surface|, s.hp)
    ensures xb * CellsPerStep + BlocksPerWindow(s.hp) <= BlocksAlong(Width(s.surface), s.hp)
  {
    StepFits(Width(s.surface), s.hp, xb);
    StepFits(|s.surface|, s.hp, yb);
  }

  /** The feature settings `find_cars` effectively uses: the global colour
      space, spatial size and bin count, its HOG parameters and channel, and
      all three blocks enabled. */
  function SearchConfig(s: Search): FeatureConfig
  {
    FeatureConfig(s.prms.colorSpace, s.prms.spatialSize, s.prms.nBins, s.hp, s.hogChannel, true, true, true)
  }

  /** Each window's HOG features have the length of the HOG block of a
      64 x 64 training patch: one channel's slice, or three. */
  lemma PatchHogLength(s: Search, xb: nat, yb: nat)
    requires ShapeContracts(s.lib) && Rect(s.surface) && BlocksPerWindow(s.hp) >= 1
    requires xb < Steps(Width(s.surface), s.hp) && yb < Steps(|s.surface|, s.hp)
    ensures |PatchHog(s, xb, yb)| == HogBlockLen(SearchConfig(s), Window, Window)
  {
    SliceInsideGrid(s, xb, yb);
    var ny, nx := BlocksAlong(|s.surface|, s.hp), BlocksAlong(Width(s.surface), s.hp);
    forall c: ChannelIndex
      ensures |HogSlice(ChannelHog(s, c), yb * CellsPerStep, xb * CellsPerStep, BlocksPerWindow(s.hp))| == HogLen(Window, Window, s.hp)
    {
      ChannelPlaneShape(s.surface, c);
      HogSliceLength(ChannelHog(s, c), ny, nx, s.hp, yb * CellsPerStep, xb * CellsPerStep);
    }
  }

  /** Each window is classified on a vector laid out like the training
      vectors (spatial, histogram, HOG) and of the length of the training
      vector of a 64 x 64 patch. */
  lemma PatchFeaturesLayout(s: Search, xb: nat, yb: nat)
    requires s.prms.nBins > 0
    requires ShapeContracts(s.lib) && Rect(s.surface) && BlocksPerWindow(s.hp) >= 1
    requires xb < Steps(Width(s.surface), s.hp) && yb < Steps(|s.surface|, s.hp)
    ensures ValidConfig(SearchConfig(s))
    ensures PatchFeatures(s, xb, yb) == SpatialBlock(PatchImage(s, xb, yb), SearchConfig(s), s.lib)
              + HistBlock(PatchImage(s, xb, yb), SearchConfig(s)) + PatchHog(s, xb, yb)
    ensures |PatchFeatures(s, xb, yb)| == FeatureLength(SearchConfig(s), Window, Window)
  {
    PatchHogLength(s, xb, yb);
    BinSpatialLength(PatchImage(s, xb, yb), s.prms.spatialSize, s.lib);
  }

  /** A window's box yields nothing but that window's box. */
  lemma DetectedBox(s: Search, c: (nat, nat), b: Box)
    requires s.prms.nBins > 0
    requires b in Detected(s, c)
    ensures b == PatchBox(s, c.0, c.1)
  {
  }

  /** The box of a visited window is square, of side `int(64 * scale)`, and
      lies inside `[xstart, x2] x [ystart, y2]` when the surface is that
      region divided by `scale`. */
  lemma PatchBoxInside(s: Search, xb: nat, yb: nat, x2: int, y2: int)
    requires SurfaceFits(s, x2, y2)
    requires xb < Steps(Width(s.surface), s.hp) && yb < Steps(|s.surface|, s.hp)
    ensures var b := PatchBox(s, xb, yb);
      && s.xstart <= b.x1 && b.x2 <= x2 && s.ystart <= b.y1 && b.y2 <= y2
      && b.x2 - b.x1 == TruncMul(Window, s.scale) && b.y2 - b.y1 == TruncMul(Window, s.scale)
  {
    var xleft, ytop := xb * CellsPerStep * s.hp.pixPerCell, yb * CellsPerStep * s.hp.pixPerCell;
    assert xleft + Window <= Width(s.surface) by { StepFits(Width(s.surface), s.hp, xb); }
    assert ytop + Window <= |s.surface| by { StepFits(|s.surface|, s.hp, yb); }
    ScaleBackFits(xleft, Width(s.surface), x2 - s.xstart, s.scale);
    ScaleBackFits(ytop, |s.surface|, y2 - s.ystart, s.scale);
  }

  /** Every box of `boxes` is a square of side `side` inside
      `[x1, x2] x [y1, y2]`. */
  predicate SquaresInRegion(boxes: seq<Box>, x1: int, y1: int, x2: int, y2: int, side: int)
  {
    forall b :: b in boxes ==>
      && x1 <= b.x1 && b.x2 <= x2 && y1 <= b.y1 && b.y2 <= y2
      && b.x2 - b.x1 == side && b.y2 - b.y1 == side
  }

  /** The boxes a search reports are the boxes of visited windows, and so
      lie inside the region `[s.xstart, x2] x [s.ystart, y2]` the surface was
      cut from. */
  lemma DetectionsInside(s: Search, x2: int, y2: int)
    requires s.prms.nBins > 0 && SurfaceFits(s, x2, y2)
    ensures SquaresInRegion(Detections(s, Candidates(Steps(Width(s.surface), s.hp), Steps(|s.surface|, s.hp))),
                            s.xstart, s.ystart, x2, y2, TruncMul(Window, s.scale))
  {
    var nx, ny := Steps(Width(s.surface), s.hp), Steps(|s.surface|, s.hp);
    var cands := Candidates(nx, ny);
    forall b | b in Detections(s, cands)
      ensures s.xstart <= b.x1 && b.x2 <= x2 && s.ystart <= b.y1 && b.y2 <= y2
      ensures b.x2 - b.x1 == TruncMul(Window, s.scale) && b.y2 - b.y1 == TruncMul(Window, s.scale)
    {
      DetectionsMembers(s, cands, b);
      var k :| 0 <= k < |cands| && b in Detected(s, cands[k]);
      DetectedBox(s, cands[k], b);
      CandidatesInRange(nx, ny, k);
      PatchBoxInside(s, cands[k].0, cands[k].1, x2, y2);
    }
  }

  /** The surface of `s`, scaled back, fits in `[s.xstart, x2] x [s.ystart, y2]`. */
  predicate SurfaceFits(s: Search, x2: int, y2: int)
  {
    && s.xstart <= x2 && s.ystart <= y2
    && ScaledWithin(Width(s.surface), s.scale, x2 - s.xstart)
    && ScaledWithin(|s.surface|, s.scale, y2 - s.ystart)
  }

  /** A search over the surface of a region with non-negative bounds fits
      in that region. */
  lemma SearchFits(img: Image, ystart: int, ystop: int, xstart: int, xstop: int, s: Search)
    requires ShapeContracts(s.lib) && Rect(img)
    requires 0 <= ystart <= ystop && 0 <= xstart <= xstop
    requires s.xstart == xstart && s.ystart == ystart
    requires s.surface == SearchSurface(img, ystart, ystop, xstart, xstop, s.scale, s.prms.colorSpace, s.lib)
    ensures SurfaceFits(s, xstop, ystop)
  {
    SurfaceShape(img, ystart, ystop, xstart, xstop, s.scale, s.prms.colorSpace, s.lib);
  }

  /** Every reported box is square, of side `int(64 * scale)`, and lies inside
      the search region `[xstart, xstop] x [ystart, ystop]` of the original
      image, for any region with non-negative bounds (inside the image or
      reaching past it). */
  lemma BoxesInsideRegion(img: Image, ystart: int, ystop: int, scale: PosFraction,
                          scaler: seq<real> -> seq<real>, predict: seq<real> -> int,
                          hogChannel: HogChannel, hp: HogParams, prms: Prms, lib: Library,
                          xstart: int, xstop: int)
    requires prms.nBins > 0 && ShapeContracts(lib) && Rect(img)
    requires 0 <= ystart <= ystop && 0 <= xstart <= xstop
    ensures var r := FindCarsSpec(img, ystart, ystop, scale, scaler, predict, hogChannel, hp, prms, lib, xstart, xstop);
      r.Some? ==> SquaresInRegion(r.value, xstart, ystart, xstop, ystop, TruncMul(Window, scale))
  {
    if !(hogChannel.OneChannel? && hogChannel.index != 0) {
      var surface := SearchSurface(img, ystart, ystop, xstart, xstop, scale, prms.colorSpace, lib);
      var s := Search(surface, hogChannel, hp, prms, scale, xstart, ystart, lib, scaler, predict);
      SearchFits(img, ystart, ystop, xstart, xstop, s);
      DetectionsInside(s, xstop, ystop);
    }
  }

  /** Every box the source's loops report is also reported by the corrected
      scan: the as-written positions are a prefix of the corrected ones on
      each axis, and each position is classified identically. */
  lemma AsWrittenAmongCorrected(s: Search)
    requires s.prms.nBins > 0
    ensures forall b :: b in Detections(s, CandidatesAsWritten(s)) ==>
      b in Detections(s, Candidates(Steps(Width(s.surface), s.hp), Steps(|s.surface|, s.hp)))
  {
    AsWrittenPrefix(Width(s.surface), s.hp);
    AsWrittenPrefix(|s.surface|, s.hp);
    var written := CandidatesAsWritten(s);
    var corrected := Candidates(Steps(Width(s.surface), s.hp), Steps(|s.surface|, s.hp));
    forall c | c in written
      ensures c in corrected
    {
      CandidatesGrow(RangeLen(StepsAsWritten(Width(s.surface), s.hp)), RangeLen(StepsAsWritten(|s.surface|, s.hp)),
                     Steps(Width(s.surface), s.hp), Steps(|s.surface|, s.hp), c);
    }
    DetectionsSubset(s, written, corrected);
  }

  /** Every position of a smaller step grid is a position of a larger one. */
  lemma CandidatesGrow(nxa: nat, nya: nat, nx: nat, ny: nat, c: (nat, nat))
    requires nxa <= nx && nya <= ny
    requires c in Candidates(nxa, nya)
    ensures c in Candidates(nx, ny)
  {
    var k :| 0 <= k < |Candidates(nxa, nya)| && Candidates(nxa, nya)[k] == c;
    CandidatesInRange(nxa, nya, k);
    CandidatesAt(nx, ny, c.0, c.1);
  }

  /** Scanning a superset of the positions reports a superset of the boxes. */
  lemma DetectionsSubset(s: Search, a: seq<(nat, nat)>, b: seq<(nat, nat)>)
    requires s.prms.nBins > 0
    requires forall c :: c in a ==> c in b
    ensures forall x :: x in Detections(s, a) ==> x in Detections(s, b)
  {
    FlatMapSubset(a, b, Detector(s));
  }

  /** The boxes `find_cars` as written reports also lie inside the search
      region and have side `int(64 * scale)`. */
  lemma AsWrittenBoxesInsideRegion(img: Image, ystart: int, ystop: int, scale: PosFraction,
                                   scaler: seq<real> -> seq<real>, predict: seq<real> -> int,
                                   hogChannel: HogChannel, hp: HogParams, prms: Prms, lib: Library,
                                   xstart: int, xstop: int)
    requires prms.nBins > 0 && ShapeContracts(lib) && Rect(img)
    requires 0 <= ystart <= ystop && 0 <= xstart <= xstop
    ensures var r := FindCarsAsWrittenSpec(img, ystart, ystop, scale, scaler, predict, hogChannel, hp, prms, lib, xstart, xstop);
      r.Some? ==> SquaresInRegion(r.value, xstart, ystart, xstop, ystop, TruncMul(Window, scale))
  {
    if !(hogChannel.OneChannel? && hogChannel.index != 0) {
      var surface := SearchSurface(img, ystart, ystop, xstart, xstop, scale, prms.colorSpace, lib);
      var s := Search(surface, hogChannel, hp, prms, scale, xstart, ystart, lib, scaler, predict);
      AsWrittenAmongCorrected(s);
      BoxesInsideRegion(img, ystart, ystop, scale, scaler, predict, hogChannel, hp, prms, lib, xstart, xstop);
      assert FindCarsSpec(img, ystart, ystop, scale, scaler, predict, hogChannel, hp, prms, lib, xstart, xstop)
          == Some(Detections(s, Candidates(Steps(Width(s.surface), hp), Steps(|s.surface|, hp))));
      assert FindCarsAsWrittenSpec(img, ystart, ystop, scale, scaler, predict, hogChannel, hp, prms, lib, xstart, xstop)
          == Some(Detections(s, CandidatesAsWritten(s)));
    }
  }
}
