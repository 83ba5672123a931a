/** Images, single-channel planes, HOG block grids and boxes, plus the
    OpenCV/skimage operations the detector calls, which are not modelled
    internally: they are carried as function values in a `Library`, and
    `ShapeContracts` states the only facts the model relies on (their output
    shapes). */
module Images {
  import opened Numeric

  /** An 8-bit sample. */
  type Byte = v: int | 0 <= v < 256

  /** One pixel of a 3-channel image (`img[y, x, :]`). */
  datatype Pixel = Pixel(c0: Byte, c1: Byte, c2: Byte)

  type ChannelIndex = c: int | 0 <= c < 3

  /** `img[y, x, c]` */
  function Channel(p: Pixel, c: ChannelIndex): Byte
  {
    if c == 0 then p.c0 else if c == 1 then p.c1 else p.c2
  }

  /** A 3-channel image as rows of pixels (numpy shape `(H, W, 3)`). */
  type Image = seq<seq<Pixel>>

  /** A single-channel image (`img[:, :, c]` or a greyscale image). */
  type Plane = seq<seq<int>>

  /** HOG output with `feature_vector=False`: rows of blocks, each block the
      flattened `cells_per_block x cells_per_block x orientations` values. */
  type HogGrid = seq<seq<seq<real>>>

  /** A box `((x1, y1), (x2, y2))`: top-left and bottom-right corners. */
  datatype Box = Box(x1: int, y1: int, x2: int, y2: int)

  /** `g` has `h` rows of `w` elements each. */
  predicate IsGrid<T>(g: seq<seq<T>>, h: nat, w: nat)
  {
    |g| == h && forall y :: 0 <= y < h ==> |g[y]| == w
  }

  function Width<T>(g: seq<seq<T>>): nat
  {
    if g == [] then 0 else |g[0]|
  }

  /** All rows have the same length: a numpy 2-D (or 3-D) array. */
  predicate Rect<T>(g: seq<seq<T>>)
  {
    IsGrid(g, |g|, Width(g))
  }

  /** A grid of known shape is rectangular; its width is `w` unless it has no rows. */
  lemma GridRect<T>(g: seq<seq<T>>, h: nat, w: nat)
    requires IsGrid(g, h, w)
    ensures Rect(g) && Width(g) <= w && (h > 0 ==> Width(g) == w)
  {
  }

  /** `img[:, :, c]` */
  function ChannelPlane(img: Image, c: ChannelIndex): (p: Plane)
    ensures |p| == |img| && forall y :: 0 <= y < |img| ==> |p[y]| == |img[y]|
  {
    seq(|img|, y requires 0 <= y < |img| =>
      seq(|img[y]|, x requires 0 <= x < |img[y]| => Channel(img[y][x], c) as int))
  }

  function Reverse<T>(s: seq<T>): (r: seq<T>)
    ensures |r| == |s|
    ensures forall i :: 0 <= i < |s| ==> r[i] == s[|s| - 1 - i]
  {
    if s == [] then [] else [s[|s| - 1]] + Reverse(s[..|s| - 1])
  }

  /** `cv2.flip(img, 1)`: mirror every row left to right. */
  function FlipH(img: Image): (r: Image)
    ensures |r| == |img|
    ensures forall y :: 0 <= y < |img| ==> r[y] == Reverse(img[y])
  {
    seq(|img|, y requires 0 <= y < |img| => Reverse(img[y]))
  }

  /** `row[x1:x2]` with numpy's clamping. */
  function SliceRow<T>(row: seq<T>, x1: int, x2: int): (r: seq<T>)
  {
    var s := SliceBounds(x1, x2, |row|);
    row[s.lo..s.hi]
  }

  /** `g[y1:y2, x1:x2]` with numpy's clamping on both axes. */
  function Crop<T>(g: seq<seq<T>>, y1: int, y2: int, x1: int, x2: int): (r: seq<seq<T>>)
  {
    var s := SliceBounds(y1, y2, |g|);
    seq(s.hi - s.lo, i requires 0 <= i < s.hi - s.lo => SliceRow(g[s.lo + i], x1, x2))
  }

  /** A crop whose bounds lie inside a `h x w` grid selects exactly the
      `(y2 - y1) x (x2 - x1)` sub-grid starting at `(y1, x1)`. */
  lemma CropInside<T>(g: seq<seq<T>>, h: nat, w: nat, y1: int, y2: int, x1: int, x2: int)
    requires IsGrid(g, h, w)
    requires 0 <= y1 <= y2 <= h && 0 <= x1 <= x2 <= w
    ensures IsGrid(Crop(g, y1, y2, x1, x2), y2 - y1, x2 - x1)
    ensures forall i, j :: 0 <= i < y2 - y1 && 0 <= j < x2 - x1 ==>
              Crop(g, y1, y2, x1, x2)[i][j] == g[y1 + i][x1 + j]
  {
    var r := Crop(g, y1, y2, x1, x2);
    assert SliceBounds(y1, y2, |g|) == Span(y1, y2);
    forall i | 0 <= i < y2 - y1
      ensures r[i] == g[y1 + i][x1..x2]
    {
      assert r[i] == SliceRow(g[y1 + i], x1, x2);
      assert SliceBounds(x1, x2, |g[y1 + i]|) == Span(x1, x2);
    }
  }

  /** A crop with non-negative bounds of a rectangular grid, even one reaching
      past the grid's edges, is rectangular and at most `(y2 - y1) x (x2 - x1)`:
      numpy clips the slice to the grid. */
  lemma ClampedCropShape<T>(g: seq<seq<T>>, y1: int, y2: int, x1: int, x2: int)
    requires Rect(g)
    requires 0 <= y1 <= y2 && 0 <= x1 <= x2
    ensures var r := Crop(g, y1, y2, x1, x2);
      Rect(r) && |r| <= y2 - y1 && Width(r) <= x2 - x1
  {
    var r := Crop(g, y1, y2, x1, x2);
    var xs := SliceBounds(x1, x2, Width(g));
    SliceBoundsLen(y1, y2, |g|);
    SliceBoundsLen(x1, x2, Width(g));
    var ys := SliceBounds(y1, y2, |g|);
    forall i | 0 <= i < |r|
      ensures |r[i]| == xs.hi - xs.lo
    {
      assert r[i] == SliceRow(g[ys.lo + i], x1, x2);
      assert |g[ys.lo + i]| == Width(g);
    }
    GridRect(r, |r|, xs.hi - xs.lo);
  }

  /** `patch` is the `h x w` sub-grid of `g` whose top-left element is `g[y0][x0]`. */
  predicate SubGridAt(patch: Image, g: Image, y0: nat, x0: nat, h: nat, w: nat)
  {
    && IsGrid(patch, h, w)
    && y0 + h <= |g|
    && forall i, j :: 0 <= i < h && 0 <= j < w ==> x0 + j < |g[y0 + i]| && patch[i][j] == g[y0 + i][x0 + j]
  }

  /** The colour spaces the detector can work in. */
  datatype ColorSpace = RGB | HSV | LUV | HLS | YUV | YCrCb

  /** HOG geometry: orientations, pixels per cell, cells per block. */
  datatype HogRep = HogParams(orient: nat, pixPerCell: nat, cellPerBlock: nat)
  type HogParams = p: HogRep | p.orient > 0 && p.pixPerCell > 0 && p.cellPerBlock > 0
    witness HogParams(9, 8, 2)

  /** Number of HOG blocks along an axis of `n` pixels (none when the axis is
      shorter than one block). */
  function BlocksAlong(n: nat, hp: HogParams): nat
  {
    if n / hp.pixPerCell >= hp.cellPerBlock then n / hp.pixPerCell - hp.cellPerBlock + 1 else 0
  }

  /** Number of values in one HOG block. */
  function BlockLen(hp: HogParams): nat
  {
    hp.cellPerBlock * hp.cellPerBlock * hp.orient
  }

  /** A block grid of `ny x nx` blocks of `len` values each. */
  predicate IsHogGrid(g: HogGrid, ny: nat, nx: nat, len: nat)
  {
    IsGrid(g, ny, nx) && forall y, x :: 0 <= y < ny && 0 <= x < nx ==> |g[y][x]| == len
  }

  /** The library operations the detector calls and this model does not
      define: `cv2.cvtColor` (RGB to a colour space, back, and to grey),
      `cv2.resize(img, (w, h))` and skimage's `hog(..., feature_vector=False)`. */
  datatype Library = Library(
    toColorSpace: (Image, ColorSpace) -> Image,
    toRGB: (Image, ColorSpace) -> Image,
    toGray: Image -> Plane,
    resize: (Image, nat, nat) -> Image,
    hog: (Plane, HogParams) -> HogGrid)

  /** The output shapes of the library operations: colour conversions keep
      the image size, `resize(img, w, h)` yields `h` rows of `w` pixels, and
      HOG yields one block per block position of the input plane. */
  ghost predicate ShapeContracts(lib: Library)
  {
    && (forall img: Image, cs: ColorSpace :: Rect(img) ==>
          IsGrid(lib.toColorSpace(img, cs), |img|, Width(img)))
    && (forall img: Image, cs: ColorSpace :: Rect(img) ==>
          IsGrid(lib.toRGB(img, cs), |img|, Width(img)))
    && (forall img: Image :: Rect(img) ==> IsGrid(lib.toGray(img), |img|, Width(img)))
    && (forall img: Image, w: nat, h: nat :: IsGrid(lib.resize(img, w, h), h, w))
    && (forall p: Plane, hp: HogParams :: Rect(p) ==>
          IsHogGrid(lib.hog(p, hp), BlocksAlong(|p|, hp), BlocksAlong(Width(p), hp), BlockLen(hp)))
  }

  /** `convertImageForColorspace`: RGB is returned as a copy, any other
      space goes through the library conversion, which keeps the size. */
  function ToColorSpace(img: Image, cs: ColorSpace, lib: Library): (r: Image)
    ensures cs == RGB ==> r == img
    ensures ShapeContracts(lib) && Rect(img) ==> IsGrid(r, |img|, Width(img))
  {
    if cs == RGB then img else lib.toColorSpace(img, cs)
  }

  /** `colorspace2RGB`: the inverse direction, again a copy for RGB. */
  function FromColorSpace(img: Image, cs: ColorSpace, lib: Library): (r: Image)
    ensures cs == RGB ==> r == img
    ensures ShapeContracts(lib) && Rect(img) ==> IsGrid(r, |img|, Width(img))
  {
    if cs == RGB then img else lib.toRGB(img, cs)
  }
}
