/** Feature extraction: the spatial-binning, colour-histogram and HOG blocks
    of a feature vector, their fixed order (spatial, histogram, HOG), the
    training-time (`combined_features`, `extract_features`) and
    inference-time (`single_img_features`) assemblies, and the facts that
    keep the two layouts consistent. */
module Features {
  import opened Seqs
  import opened Numeric
  import opened Images

  // ---------------------------------------------------------------------
  // Colour histogram (`color_hist`)
  // ---------------------------------------------------------------------

  /** The pixels of an image in row-major order. */
  function Pixels(img: Image): seq<Pixel>
  {
    Concat(img)
  }

  /** The bin of `np.histogram(..., bins=nbins, range=(0, 256))` that holds
      the 8-bit value `v`: the bins split `[0, 256)` into `nbins` equal parts. */
  function Bin(v: Byte, nbins: int): (b: nat)
    requires nbins > 0
    ensures b < nbins
    ensures b * 256 <= v * nbins < (b + 1) * 256
  {
    DivBounds(v * nbins, 256);
    assert v * nbins < 256 * nbins;
    v * nbins / 256
  }

  /** Number of pixels of `ps` whose channel `c` falls in bin `b`. */
  function Count(ps: seq<Pixel>, c: ChannelIndex, nbins: int, b: nat): nat
    requires nbins > 0
  {
    if ps == [] then 0
    else Count(ps[..|ps| - 1], c, nbins, b) + (if Bin(Channel(ps[|ps| - 1], c), nbins) == b then 1 else 0)
  }

  function Zeros(n: nat): (z: seq<int>)
    ensures |z| == n && forall i :: 0 <= i < n ==> z[i] == 0
  {
    seq(n, _ => 0)
  }

  /** `np.histogram(img[:, :, c], bins=nbins, range=(0, 256))[0]`: a
      histogram built by adding each pixel to its bin. Entry `b` is the
      number of pixels whose channel `c` falls in bin `b`. */
  function ChannelHist(ps: seq<Pixel>, c: ChannelIndex, nbins: int): (h: seq<int>)
    requires nbins > 0
    ensures |h| == nbins
    ensures forall b :: 0 <= b < nbins ==> h[b] == Count(ps, c, nbins, b)
  {
    if ps == [] then Zeros(nbins)
    else
      var h := ChannelHist(ps[..|ps| - 1], c, nbins);
      var b := Bin(Channel(ps[|ps| - 1], c), nbins);
      h[b := h[b] + 1]
  }

  /** `color_hist`: the three channel histograms side by side; channel `c`
      occupies positions `[c * nbins, (c + 1) * nbins)`. */
  function ColorHist(img: Image, nbins: int): (r: seq<int>)
    requires nbins > 0
    ensures |r| == 3 * nbins
    ensures forall b :: 0 <= b < nbins ==>
              && r[b] == Count(Pixels(img), 0, nbins, b)
              && r[nbins + b] == Count(Pixels(img), 1, nbins, b)
              && r[2 * nbins + b] == Count(Pixels(img), 2, nbins, b)
  {
    var ps := Pixels(img);
    var r := ChannelHist(ps, 0, nbins) + ChannelHist(ps, 1, nbins) + ChannelHist(ps, 2, nbins);
    ChannelBlocks(ChannelHist(ps, 0, nbins), ChannelHist(ps, 1, nbins), ChannelHist(ps, 2, nbins), nbins);
    r
  }

  /** Three blocks of `n` entries side by side: block `c` entry `b` sits at `c * n + b`. */
  lemma ChannelBlocks<T>(h0: seq<T>, h1: seq<T>, h2: seq<T>, n: nat)
    requires |h0| == |h1| == |h2| == n
    ensures forall b :: 0 <= b < n ==>
              (h0 + h1 + h2)[b] == h0[b] && (h0 + h1 + h2)[n + b] == h1[b] && (h0 + h1 + h2)[2 * n + b] == h2[b]
    ensures forall c: ChannelIndex :: (h0 + h1 + h2)[c * n .. (c + 1) * n] == (if c == 0 then h0 else if c == 1 then h1 else h2)
  {
    var r := h0 + h1 + h2;
    assert r[0 .. n] == h0;
    assert r[n .. 2 * n] == h1;
    assert r[2 * n .. 3 * n] == h2;
  }

  /** Every pixel is counted exactly once: a channel histogram sums to the
      number of pixels. */
  lemma {:induction false} ChannelHistTotal(ps: seq<Pixel>, c: ChannelIndex, nbins: int)
    requires nbins > 0
    ensures Sum(ChannelHist(ps, c, nbins)) == |ps|
  {
    if ps == [] {
      ZerosSum(nbins);
    } else {
      var h := ChannelHist(ps[..|ps| - 1], c, nbins);
      ChannelHistTotal(ps[..|ps| - 1], c, nbins);
      SumIncrement(h, Bin(Channel(ps[|ps| - 1], c), nbins));
    }
  }

  lemma {:induction false} ZerosSum(n: nat)
    ensures Sum(Zeros(n)) == 0
  {
    if n > 0 {
      assert Zeros(n)[..n - 1] == Zeros(n - 1);
      ZerosSum(n - 1);
    }
  }

  /** For an `h x w` image, each channel's block of `color_hist` sums to `h * w`. */
  lemma ColorHistTotal(img: Image, h: nat, w: nat, nbins: int, c: ChannelIndex)
    requires IsGrid(img, h, w) && nbins > 0
    ensures Sum(ColorHist(img, nbins)[c * nbins .. (c + 1) * nbins]) == h * w
  {
    var ps := Pixels(img);
    ChannelBlocks(ChannelHist(ps, 0, nbins), ChannelHist(ps, 1, nbins), ChannelHist(ps, 2, nbins), nbins);
    ChannelHistTotal(ps, c, nbins);
    ConcatUniformLength(img, w);
  }

  lemma {:induction false} CountAppend(a: seq<Pixel>, b: seq<Pixel>, c: ChannelIndex, nbins: int, k: nat)
    requires nbins > 0
    ensures Count(a + b, c, nbins, k) == Count(a, c, nbins, k) + Count(b, c, nbins, k)
    decreases |b|
  {
    if b == [] {
      assert a + b == a;
    } else {
      assert (a + b)[..|a + b| - 1] == a + b[..|b| - 1];
      CountAppend(a, b[..|b| - 1], c, nbins, k);
    }
  }

  lemma {:induction false} CountReverse(s: seq<Pixel>, c: ChannelIndex, nbins: int, k: nat)
    requires nbins > 0
    ensures Count(Reverse(s), c, nbins, k) == Count(s, c, nbins, k)
  {
    if s != [] {
      var n := |s| - 1;
      CountReverse(s[..n], c, nbins, k);
      CountAppend([s[n]], Reverse(s[..n]), c, nbins, k);
      assert [s[n]][..0] == [];
    }
  }

  lemma {:induction false} CountFlip(img: Image, c: ChannelIndex, nbins: int, k: nat)
    requires nbins > 0
    ensures Count(Pixels(FlipH(img)), c, nbins, k) == Count(Pixels(img), c, nbins, k)
  {
    if img != [] {
      var n := |img| - 1;
      assert FlipH(img)[..n] == FlipH(img[..n]);
      CountFlip(img[..n], c, nbins, k);
      ConcatAppend(FlipH(img)[..n], [Reverse(img[n])]);
      assert FlipH(img) == FlipH(img)[..n] + [Reverse(img[n])];
      ConcatAppend(img[..n], [img[n]]);
      assert img == img[..n] + [img[n]];
      assert Concat([Reverse(img[n])]) == Reverse(img[n]);
      assert Concat([img[n]]) == img[n];
      CountReverse(img[n], c, nbins, k);
      CountAppend(Pixels(FlipH(img[..n])), Reverse(img[n]), c, nbins, k);
      CountAppend(Pixels(img[..n]), img[n], c, nbins, k);
    }
  }

  /** Histograms ignore pixel positions: mirroring an image left to right
      leaves its colour histogram unchanged. */
  lemma ColorHistFlip(img: Image, nbins: int)
    requires nbins > 0
    ensures ColorHist(FlipH(img), nbins) == ColorHist(img, nbins)
  {
    var r, r' := ColorHist(img, nbins), ColorHist(FlipH(img), nbins);
    forall i | 0 <= i < 3 * nbins
      ensures r'[i] == r[i]
    {
      if i < nbins {
        CountFlip(img, 0, nbins, i);
      } else if i < 2 * nbins {
        CountFlip(img, 1, nbins, i - nbins);
        assert i == nbins + (i - nbins);
      } else {
        CountFlip(img, 2, nbins, i - 2 * nbins);
        assert i == 2 * nbins + (i - 2 * nbins);
      }
    }
  }

  // ---------------------------------------------------------------------
  // Spatial binning (`bin_spatial`)
  // ---------------------------------------------------------------------

  function PixelValues(p: Pixel): seq<real>
  {
    [p.c0 as real, p.c1 as real, p.c2 as real]
  }

  function RowValues(row: seq<Pixel>): seq<real>
  {
    Concat(seq(|row|, x requires 0 <= x < |row| => PixelValues(row[x])))
  }

  /** `.ravel()` of an `(H, W, 3)` array: rows, then pixels, then channels. */
  function RavelImage(img: Image): seq<real>
  {
    Concat(seq(|img|, y requires 0 <= y < |img| => RowValues(img[y])))
  }

  lemma RowValuesLayout(row: seq<Pixel>)
    ensures |RowValues(row)| == 3 * |row|
    ensures forall x, c: ChannelIndex :: 0 <= x < |row| ==> RowValues(row)[x * 3 + c] == Channel(row[x], c) as real
  {
    var px := seq(|row|, x requires 0 <= x < |row| => PixelValues(row[x]));
    ConcatUniformLength(px, 3);
    forall x, c: ChannelIndex | 0 <= x < |row|
      ensures RowValues(row)[x * 3 + c] == Channel(row[x], c) as real
    {
      ConcatUniformAt(px, 3, x, c);
    }
  }

  lemma RavelImageLength(img: Image, h: nat, w: nat)
    requires IsGrid(img, h, w)
    ensures |RavelImage(img)| == 3 * h * w
  {
    var rows := seq(|img|, y requires 0 <= y < |img| => RowValues(img[y]));
    forall y | 0 <= y < h
      ensures |rows[y]| == 3 * w
    {
      RowValuesLayout(img[y]);
    }
    ConcatUniformLength(rows, 3 * w);
    assert h * (3 * w) == 3 * h * w;
  }

  /** Element `(y, x, c)` of an `h x w` image lands at `(y * w + x) * 3 + c`. */
  lemma RavelImageLayout(img: Image, h: nat, w: nat, y: nat, x: nat, c: ChannelIndex)
    requires IsGrid(img, h, w) && y < h && x < w
    ensures |RavelImage(img)| == 3 * h * w
    ensures (y * w + x) * 3 + c < 3 * h * w
    ensures RavelImage(img)[(y * w + x) * 3 + c] == Channel(img[y][x], c) as real
  {
    var rows := seq(|img|, y requires 0 <= y < |img| => RowValues(img[y]));
    forall yy | 0 <= yy < h
      ensures |rows[yy]| == 3 * w
    {
      RowValuesLayout(img[yy]);
    }
    RowValuesLayout(img[y]);
    ConcatUniformAt(rows, 3 * w, y, x * 3 + c);
    RavelIndexArith(h, w, y, x, c);
  }

  lemma RavelIndexArith(h: nat, w: nat, y: nat, x: nat, c: nat)
    requires y < h && x < w && c < 3
    ensures (y * w + x) * 3 + c == y * (3 * w) + (x * 3 + c)
    ensures h * (3 * w) == 3 * h * w
    ensures (y * w + x) * 3 + c < 3 * h * w
  {
    MulMonoInt(y + 1, h, w);
    assert y * w + x < h * w;
  }

  lemma MulComm3(a: nat, b: nat)
    ensures 3 * a * b == 3 * b * a
  {
  }

  /** `bin_spatial(img, size)`: `cv2.resize(img, size).ravel()`, where
      `size` is `(width, height)`. */
  function BinSpatial(img: Image, size: (nat, nat), lib: Library): (r: seq<real>)
    ensures ShapeContracts(lib) ==> |r| == 3 * size.0 * size.1
  {
    BinSpatialLength(img, size, lib);
    RavelImage(lib.resize(img, size.0, size.1))
  }

  lemma BinSpatialLength(img: Image, size: (nat, nat), lib: Library)
    ensures ShapeContracts(lib) ==> |RavelImage(lib.resize(img, size.0, size.1))| == 3 * size.0 * size.1
  {
    if ShapeContracts(lib) {
      var small := lib.resize(img, size.0, size.1);
      assert IsGrid(small, size.1, size.0);
      RavelImageLength(small, size.1, size.0);
      MulComm3(size.1, size.0);
    }
  }

  // ---------------------------------------------------------------------
  // HOG (`get_hog_features`)
  // ---------------------------------------------------------------------

  /** `.ravel()` of a block grid: rows of blocks, then blocks, then values. */
  function RavelGrid(g: HogGrid): seq<real>
  {
    Concat(seq(|g|, y requires 0 <= y < |g| => Concat(g[y])))
  }

  lemma RavelGridLength(g: HogGrid, ny: nat, nx: nat, len: nat)
    requires IsHogGrid(g, ny, nx, len)
    ensures |RavelGrid(g)| == ny * nx * len
  {
    var rows := seq(|g|, y requires 0 <= y < |g| => Concat(g[y]));
    forall y | 0 <= y < ny
      ensures |rows[y]| == nx * len
    {
      ConcatUniformLength(g[y], len);
    }
    ConcatUniformLength(rows, nx * len);
    assert ny * (nx * len) == ny * nx * len;
  }

  /** Length of the HOG vector of an `h x w` plane. */
  function HogLen(h: nat, w: nat, hp: HogParams): nat
  {
    MulNonNeg(BlocksAlong(h, hp), BlocksAlong(w, hp));
    MulNonNeg(BlocksAlong(h, hp) * BlocksAlong(w, hp), BlockLen(hp));
    BlocksAlong(h, hp) * BlocksAlong(w, hp) * BlockLen(hp)
  }

  /** `get_hog_features(plane, ..., feature_vec=True)`: the raveled block grid. */
  function HogVector(p: Plane, hp: HogParams, lib: Library): (r: seq<real>)
    ensures ShapeContracts(lib) && Rect(p) ==> |r| == HogLen(|p|, Width(p), hp)
  {
    HogVectorLength(p, hp, lib);
    RavelGrid(lib.hog(p, hp))
  }

  lemma HogVectorLength(p: Plane, hp: HogParams, lib: Library)
    ensures ShapeContracts(lib) && Rect(p) ==> |RavelGrid(lib.hog(p, hp))| == HogLen(|p|, Width(p), hp)
  {
    if ShapeContracts(lib) && Rect(p) {
      RavelGridLength(lib.hog(p, hp), BlocksAlong(|p|, hp), BlocksAlong(Width(p), hp), BlockLen(hp));
    }
  }

  // ---------------------------------------------------------------------
  // Feature configuration and layout
  // ---------------------------------------------------------------------

  /** `hog_channel`: one channel index, or `'ALL'`. */
  datatype HogChannel = OneChannel(index: ChannelIndex) | AllChannels

  /** The feature parameters passed to the extraction functions. */
  datatype FeatureConfig = FeatureConfig(
    colorSpace: ColorSpace,
    spatialSize: (nat, nat),
    histBins: int,
    hog: HogParams,
    hogChannel: HogChannel,
    spatialFeat: bool,
    histFeat: bool,
    hogFeat: bool)

  /** At least one block is enabled (`np.concatenate` of an empty list
      raises) and the histogram, when enabled, has bins. */
  predicate ValidConfig(cfg: FeatureConfig)
  {
    (cfg.spatialFeat || cfg.histFeat || cfg.hogFeat) && (cfg.histFeat ==> cfg.histBins > 0)
  }

  function SpatialLen(cfg: FeatureConfig): nat
  {
    if cfg.spatialFeat then 3 * cfg.spatialSize.0 * cfg.spatialSize.1 else 0
  }

  function HistLen(cfg: FeatureConfig): nat
    requires ValidConfig(cfg)
  {
    if cfg.histFeat then 3 * cfg.histBins else 0
  }

  function HogBlockLen(cfg: FeatureConfig, h: nat, w: nat): nat
  {
    var len := HogLen(h, w, cfg.hog);
    if !cfg.hogFeat then 0 else if cfg.hogChannel.AllChannels? then len + len + len else len
  }

  /** Length of the feature vector of an `h x w` patch: a function of the
      configuration and the patch size only, never of the pixel values. */
  function FeatureLength(cfg: FeatureConfig, h: nat, w: nat): nat
    requires ValidConfig(cfg)
  {
    SpatialLen(cfg) + HistLen(cfg) + HogBlockLen(cfg, h, w)
  }

  function AsReals(s: seq<int>): (r: seq<real>)
    ensures |r| == |s| && forall i :: 0 <= i < |s| ==> r[i] == s[i] as real
  {
    seq(|s|, i requires 0 <= i < |s| => s[i] as real)
  }

  /** The spatial block of an already converted image (empty when disabled). */
  function SpatialBlock(fimg: Image, cfg: FeatureConfig, lib: Library): seq<real>
  {
    if cfg.spatialFeat then BinSpatial(fimg, cfg.spatialSize, lib) else []
  }

  /** The histogram block of an already converted image (empty when disabled). */
  function HistBlock(fimg: Image, cfg: FeatureConfig): seq<real>
    requires ValidConfig(cfg)
  {
    if cfg.histFeat then AsReals(ColorHist(fimg, cfg.histBins)) else []
  }

  /** HOG on all three channels in channel order. */
  function HogAll(fimg: Image, hp: HogParams, lib: Library): seq<real>
  {
    HogVector(ChannelPlane(fimg, 0), hp, lib)
      + HogVector(ChannelPlane(fimg, 1), hp, lib)
      + HogVector(ChannelPlane(fimg, 2), hp, lib)
  }

  /** The HOG block at inference (`single_img_features`): the selected
      channel `fimg[:, :, hog_channel]`, or all three. */
  function InferenceHog(fimg: Image, cfg: FeatureConfig, lib: Library): seq<real>
  {
    if !cfg.hogFeat then []
    else match cfg.hogChannel
      case AllChannels => HogAll(fimg, cfg.hog, lib)
      case OneChannel(c) => HogVector(ChannelPlane(fimg, c), cfg.hog, lib)
  }

  /** The HOG block at training (`combined_features`): all three channels,
      or, for any single channel index, the grey image obtained by converting
      back to RGB from `prmsColorSpace` (the global colour-space setting). */
  function TrainingHog(fimg: Image, cfg: FeatureConfig, prmsColorSpace: ColorSpace, lib: Library): seq<real>
  {
    if !cfg.hogFeat then []
    else match cfg.hogChannel
      case AllChannels => HogAll(fimg, cfg.hog, lib)
      case OneChannel(_) => HogVector(lib.toGray(FromColorSpace(fimg, prmsColorSpace, lib)), cfg.hog, lib)
  }

  lemma ChannelPlaneShape(img: Image, c: ChannelIndex)
    requires Rect(img)
    ensures Rect(ChannelPlane(img, c)) && |ChannelPlane(img, c)| == |img|
    ensures Width(ChannelPlane(img, c)) == Width(img)
  {
  }

  lemma HogPlaneLength(fimg: Image, c: ChannelIndex, hp: HogParams, lib: Library)
    requires ShapeContracts(lib) && Rect(fimg)
    ensures |HogVector(ChannelPlane(fimg, c), hp, lib)| == HogLen(|fimg|, Width(fimg), hp)
  {
    ChannelPlaneShape(fimg, c);
  }

  lemma HogAllLength(fimg: Image, hp: HogParams, lib: Library)
    requires ShapeContracts(lib) && Rect(fimg)
    ensures var len := HogLen(|fimg|, Width(fimg), hp);
            |HogAll(fimg, hp, lib)| == len + len + len
  {
    HogPlaneLength(fimg, 0, hp, lib);
    HogPlaneLength(fimg, 1, hp, lib);
    HogPlaneLength(fimg, 2, hp, lib);
  }

  lemma InferenceHogLength(fimg: Image, cfg: FeatureConfig, lib: Library)
    requires ShapeContracts(lib) && Rect(fimg)
    ensures |InferenceHog(fimg, cfg, lib)| == HogBlockLen(cfg, |fimg|, Width(fimg))
  {
    if cfg.hogFeat {
      match cfg.hogChannel
      case AllChannels =>
        HogAllLength(fimg, cfg.hog, lib);
        assert InferenceHog(fimg, cfg, lib) == HogAll(fimg, cfg.hog, lib);
      case OneChannel(c) =>
        HogPlaneLength(fimg, c, cfg.hog, lib);
        assert InferenceHog(fimg, cfg, lib) == HogVector(ChannelPlane(fimg, c), cfg.hog, lib);
    }
  }

  lemma TrainingHogLength(fimg: Image, cfg: FeatureConfig, prmsColorSpace: ColorSpace, lib: Library)
    requires ShapeContracts(lib) && Rect(fimg)
    ensures |TrainingHog(fimg, cfg, prmsColorSpace, lib)| == HogBlockLen(cfg, |fimg|, Width(fimg))
  {
    InferenceHogLength(fimg, cfg, lib);
    var rgb := FromColorSpace(fimg, prmsColorSpace, lib);
    var g := lib.toGray(rgb);
    assert IsGrid(g, |fimg|, Width(fimg));
    assert Width(g) == Width(fimg) by {
      if |fimg| == 0 { assert g == []; }
    }
  }

  /** `single_img_features`: convert to the working colour space, then the
      enabled blocks in the fixed order spatial, histogram, HOG. Its length
      depends only on the configuration and the patch size. */
  function SingleImgFeatures(img: Image, cfg: FeatureConfig, lib: Library): (r: seq<real>)
    requires ValidConfig(cfg)
    ensures ShapeContracts(lib) && Rect(img) ==> |r| == FeatureLength(cfg, |img|, Width(img))
  {
    var fimg := ToColorSpace(img, cfg.colorSpace, lib);
    ConvertedHogLength(img, cfg, lib);
    SpatialBlock(fimg, cfg, lib) + HistBlock(fimg, cfg) + InferenceHog(fimg, cfg, lib)
  }

  lemma ConvertedHogLength(img: Image, cfg: FeatureConfig, lib: Library)
    ensures ShapeContracts(lib) && Rect(img) ==>
              var fimg := ToColorSpace(img, cfg.colorSpace, lib);
              Rect(fimg) && |fimg| == |img| && Width(fimg) == Width(img)
              && |InferenceHog(fimg, cfg, lib)| == HogBlockLen(cfg, |img|, Width(img))
  {
    if ShapeContracts(lib) && Rect(img) {
      var fimg := ToColorSpace(img, cfg.colorSpace, lib);
      assert Width(fimg) == Width(img) by {
        if |img| == 0 { assert fimg == []; }
      }
      InferenceHogLength(fimg, cfg, lib);
    }
  }

  /** `combined_features`: the list of enabled blocks of an already converted
      image, in the order spatial, histogram, HOG (one entry per enabled block). */
  function CombinedFeatures(fimg: Image, cfg: FeatureConfig, prmsColorSpace: ColorSpace, lib: Library): (blocks: seq<seq<real>>)
    requires ValidConfig(cfg)
    ensures |blocks| == (if cfg.spatialFeat then 1 else 0) + (if cfg.histFeat then 1 else 0) + (if cfg.hogFeat then 1 else 0)
    ensures Concat(blocks) == SpatialBlock(fimg, cfg, lib) + HistBlock(fimg, cfg) + TrainingHog(fimg, cfg, prmsColorSpace, lib)
  {
    var s := if cfg.spatialFeat then [SpatialBlock(fimg, cfg, lib)] else [];
    var h := if cfg.histFeat then [HistBlock(fimg, cfg)] else [];
    var g := if cfg.hogFeat then [TrainingHog(fimg, cfg, prmsColorSpace, lib)] else [];
    ConcatAppend(s + h, g);
    ConcatAppend(s, h);
    ConcatSingle(SpatialBlock(fimg, cfg, lib));
    ConcatSingle(HistBlock(fimg, cfg));
    ConcatSingle(TrainingHog(fimg, cfg, prmsColorSpace, lib));
    s + h + g
  }

  lemma ConcatSingle(b: seq<real>)
    ensures Concat([b]) == b
  {
    assert [b][..0] == [];
  }

  /** The training vector of a converted image: `np.concatenate(combined_features(...))`,
      laid out as the spatial block, then the histogram block, then the HOG block. */
  function TrainingVector(fimg: Image, cfg: FeatureConfig, prmsColorSpace: ColorSpace, lib: Library): (v: seq<real>)
    requires ValidConfig(cfg)
    ensures v == SpatialBlock(fimg, cfg, lib) + HistBlock(fimg, cfg) + TrainingHog(fimg, cfg, prmsColorSpace, lib)
  {
    Concat(CombinedFeatures(fimg, cfg, prmsColorSpace, lib))
  }

  /** Training vectors have the same length as inference vectors of a patch
      of the same size, whatever the HOG channel choice. */
  lemma TrainingVectorLength(fimg: Image, cfg: FeatureConfig, prmsColorSpace: ColorSpace, lib: Library)
    requires ValidConfig(cfg) && ShapeContracts(lib) && Rect(fimg)
    ensures |TrainingVector(fimg, cfg, prmsColorSpace, lib)| == FeatureLength(cfg, |fimg|, Width(fimg))
  {
    TrainingHogLength(fimg, cfg, prmsColorSpace, lib);
  }

  /** With HOG on `'ALL'` channels (or HOG disabled), training and inference
      produce the very same vector for the same image. */
  lemma TrainingMatchesInference(img: Image, cfg: FeatureConfig, prmsColorSpace: ColorSpace, lib: Library)
    requires ValidConfig(cfg)
    requires cfg.hogChannel.AllChannels? || !cfg.hogFeat
    ensures TrainingVector(ToColorSpace(img, cfg.colorSpace, lib), cfg, prmsColorSpace, lib)
            == SingleImgFeatures(img, cfg, lib)
  {
  }

  /** With a single HOG channel, training and inference vectors agree on the
      spatial and histogram blocks and have equal length, but the training
      HOG block comes from the grey image and the inference HOG block from
      channel `hog_channel`: the two agree only if those HOG vectors do. */
  lemma SingleChannelDivergence(img: Image, cfg: FeatureConfig, prmsColorSpace: ColorSpace, lib: Library)
    requires ValidConfig(cfg) && cfg.hogFeat && cfg.hogChannel.OneChannel?
    requires ShapeContracts(lib) && Rect(img)
    ensures var fimg := ToColorSpace(img, cfg.colorSpace, lib);
            var t := TrainingVector(fimg, cfg, prmsColorSpace, lib);
            var i := SingleImgFeatures(img, cfg, lib);
            var k := |SpatialBlock(fimg, cfg, lib) + HistBlock(fimg, cfg)|;
            && |t| == |i|
            && t[..k] == i[..k]
            && (t == i <==>
                  HogVector(lib.toGray(FromColorSpace(fimg, prmsColorSpace, lib)), cfg.hog, lib)
                  == HogVector(ChannelPlane(fimg, cfg.hogChannel.index), cfg.hog, lib))
  {
    var fimg := ToColorSpace(img, cfg.colorSpace, lib);
    assert Width(fimg) == Width(img) by {
      if |img| == 0 { assert fimg == []; }
    }
    TrainingVectorLength(fimg, cfg, prmsColorSpace, lib);
    var pre := SpatialBlock(fimg, cfg, lib) + HistBlock(fimg, cfg);
    var t := TrainingVector(fimg, cfg, prmsColorSpace, lib);
    var i := SingleImgFeatures(img, cfg, lib);
    assert t == pre + TrainingHog(fimg, cfg, prmsColorSpace, lib);
    assert i == pre + InferenceHog(fimg, cfg, lib);
    if t == i {
      assert t[|pre|..] == i[|pre|..];
    }
  }

  /** Position of the histogram block inside a feature vector. */
  function HistOffset(cfg: FeatureConfig): nat
  {
    SpatialLen(cfg)
  }

  /** The histogram block sits right after the spatial block, at
      `[HistOffset, HistOffset + 3 * hist_bins)`, in both the inference
      vector and the training vector. */
  lemma HistBlockPosition(fimg: Image, cfg: FeatureConfig, prmsColorSpace: ColorSpace, lib: Library)
    requires ValidConfig(cfg) && cfg.histFeat && ShapeContracts(lib)
    ensures var t := TrainingVector(fimg, cfg, prmsColorSpace, lib);
            && HistOffset(cfg) + 3 * cfg.histBins <= |t|
            && t[HistOffset(cfg) .. HistOffset(cfg) + 3 * cfg.histBins] == AsReals(ColorHist(fimg, cfg.histBins))
  {
    var t := TrainingVector(fimg, cfg, prmsColorSpace, lib);
    var sp := SpatialBlock(fimg, cfg, lib);
    var hb := HistBlock(fimg, cfg);
    assert |sp| == SpatialLen(cfg);
    assert t == sp + hb + TrainingHog(fimg, cfg, prmsColorSpace, lib);
    assert t[|sp| .. |sp| + |hb|] == hb;
  }

  /** Mirror augmentation keeps the histogram block: the training vector of
      the flipped image has the same histogram block as the original's. */
  lemma MirroredHistBlock(fimg: Image, cfg: FeatureConfig, prmsColorSpace: ColorSpace, lib: Library)
    requires ValidConfig(cfg) && cfg.histFeat && ShapeContracts(lib)
    ensures var t := TrainingVector(fimg, cfg, prmsColorSpace, lib);
            var m := TrainingVector(FlipH(fimg), cfg, prmsColorSpace, lib);
            var k := HistOffset(cfg);
            && k + 3 * cfg.histBins <= |t| && k + 3 * cfg.histBins <= |m|
            && m[k .. k + 3 * cfg.histBins] == t[k .. k + 3 * cfg.histBins]
  {
    HistBlockPosition(fimg, cfg, prmsColorSpace, lib);
    HistBlockPosition(FlipH(fimg), cfg, prmsColorSpace, lib);
    ColorHistFlip(fimg, cfg.histBins);
  }

  /** The two vectors `extract_features` emits for one image: the training
      vector of the converted image, then that of its mirror image. */
  function ExtractPair(img: Image, cfg: FeatureConfig, prmsColorSpace: ColorSpace, lib: Library): seq<seq<real>>
    requires ValidConfig(cfg)
  {
    var fimg := ToColorSpace(img, cfg.colorSpace, lib);
    [TrainingVector(fimg, cfg, prmsColorSpace, lib), TrainingVector(FlipH(fimg), cfg, prmsColorSpace, lib)]
  }

  function Extractor(cfg: FeatureConfig, prmsColorSpace: ColorSpace, lib: Library): Image -> seq<seq<real>>
    requires ValidConfig(cfg)
  {
    img => ExtractPair(img, cfg, prmsColorSpace, lib)
  }

  /** The vectors `extract_features` emits for `imgs`, image by image. */
  function Extracted(imgs: seq<Image>, cfg: FeatureConfig, prmsColorSpace: ColorSpace, lib: Library): seq<seq<real>>
    requires ValidConfig(cfg)
  {
    FlatMap(imgs, Extractor(cfg, prmsColorSpace, lib))
  }

  /** Image `i`'s vector is at `2i`, its mirror's at `2i + 1`. */
  lemma ExtractedLayout(imgs: seq<Image>, cfg: FeatureConfig, prmsColorSpace: ColorSpace, lib: Library)
    requires ValidConfig(cfg)
    ensures |Extracted(imgs, cfg, prmsColorSpace, lib)| == 2 * |imgs|
    ensures forall i :: 0 <= i < |imgs| ==>
              var fimg := ToColorSpace(imgs[i], cfg.colorSpace, lib);
              && Extracted(imgs, cfg, prmsColorSpace, lib)[2 * i] == TrainingVector(fimg, cfg, prmsColorSpace, lib)
              && Extracted(imgs, cfg, prmsColorSpace, lib)[2 * i + 1] == TrainingVector(FlipH(fimg), cfg, prmsColorSpace, lib)
  {
    var f := Extractor(cfg, prmsColorSpace, lib);
    assert forall k :: 0 <= k < |imgs| ==> f(imgs[k]) == ExtractPair(imgs[k], cfg, prmsColorSpace, lib);
    FlatMapPairs(imgs, f);
  }

  /** `extract_features` on already decoded images. */
  method ExtractFeatures(imgs: seq<Image>, cfg: FeatureConfig, prmsColorSpace: ColorSpace, lib: Library)
    returns (features: seq<seq<real>>)
    requires ValidConfig(cfg)
    ensures features == Extracted(imgs, cfg, prmsColorSpace, lib)
  {
    features := [];
    for n := 0 to |imgs|
      invariant features == FlatMap(imgs[..n], Extractor(cfg, prmsColorSpace, lib))
    {
      FlatMapStep(imgs, Extractor(cfg, prmsColorSpace, lib), n);
      var fimg := ToColorSpace(imgs[n], cfg.colorSpace, lib);
      features := features + [TrainingVector(fimg, cfg, prmsColorSpace, lib)];
      fimg := FlipH(fimg);
      features := features + [TrainingVector(fimg, cfg, prmsColorSpace, lib)];
    }
    assert imgs[..|imgs|] == imgs;
  }

  /** The two vectors `extract_features` emits for one `h x w` image have
      the configured length, and the mirrored one repeats the histogram
      block of the original. */
  lemma ExtractedPairAgrees(img: Image, h: nat, w: nat, cfg: FeatureConfig, prmsColorSpace: ColorSpace, lib: Library)
    requires ValidConfig(cfg) && ShapeContracts(lib)
    requires IsGrid(img, h, w) && (h == 0 ==> w == 0)
    ensures var fimg := ToColorSpace(img, cfg.colorSpace, lib);
            var t := TrainingVector(fimg, cfg, prmsColorSpace, lib);
            var m := TrainingVector(FlipH(fimg), cfg, prmsColorSpace, lib);
            var k := HistOffset(cfg);
            && |t| == FeatureLength(cfg, h, w) && |m| == FeatureLength(cfg, h, w)
            && (cfg.histFeat ==> m[k .. k + 3 * cfg.histBins] == t[k .. k + 3 * cfg.histBins])
  {
    var fimg := ToColorSpace(img, cfg.colorSpace, lib);
    assert Width(img) == w;
    assert IsGrid(fimg, h, w);
    assert Width(fimg) == w;
    assert IsGrid(FlipH(fimg), h, w);
    assert Width(FlipH(fimg)) == w;
    TrainingVectorLength(fimg, cfg, prmsColorSpace, lib);
    TrainingVectorLength(FlipH(fimg), cfg, prmsColorSpace, lib);
    if cfg.histFeat {
      MirroredHistBlock(fimg, cfg, prmsColorSpace, lib);
    }
  }
}
