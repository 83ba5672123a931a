# Vehicle detection core, modelled in Dafny

This project models the detection core of `src/dip.py`, a classical
vehicle detector:

- **Feature vectors.** `color_hist`, `bin_spatial`, `get_hog_features`,
  `combined_features`, `single_img_features` and `extract_features` turn an
  image patch into a fixed-layout vector. The layout is the spatial block,
  then the histogram block, then the HOG block.
- **Window search.** `slide_window` and `search_windows` enumerate
  fixed-size windows over a region and keep those the classifier labels 1.
- **Sub-sampling search.** `find_cars` runs the classifier over the windows
  of a scaled search strip. It computes HOG once and slices the block grid
  per window, then maps every positive window back to a box in the
  original image.
- **Heatmap.** `add_heat` and `apply_threshold` update a vote array in
  place. `draw_labeled_bboxes` reduces every labelled region to its
  bounding box.

The modules follow the program's structure:

| file | module | what it holds |
|---|---|---|
| `numeric.dfy` | `Numeric` | Python `int()` of a quotient (truncation toward zero), floor division, `range`, numpy slice clamping, and rationals for the floating-point overlaps and scales |
| `seqs.dfy` | `Seqs` | concatenation of blocks, sums, order-preserving filtering, flat-map |
| `images.dfy` | `Images` | images, planes, HOG block grids, boxes, numpy crops, and the OpenCV/skimage operations as function values with their shape contracts |
| `features.dfy` | `Features` | histograms, spatial binning, raveling, and the training and inference feature vectors |
| `windows.dfy` | `Windows` | `slide_window`, including its mutable default arguments, and `search_windows` |
| `subsampling.dfy` | `Subsampling` | `find_cars` |
| `heatmap.dfy` | `Heatmap` | `add_heat`, `apply_threshold`, and the bounding boxes of `draw_labeled_bboxes` |

Code that works by mutation is modelled imperatively:

- the heatmap is an `array2<int>` updated by `AddBox`, `AddHeat` and `ApplyThreshold`;
- the loops of `slide_window`, `search_windows`, `find_cars`, `extract_features` and `draw_labeled_bboxes` are `for` loops with invariants;
- the two-element `[start, stop]` lists of `slide_window` form a class, `StartStop`.

Every loop is proved equal to a specification function. The properties are
proved about that function.

The library calls are fields of a `Library` value:

- `cv2.cvtColor` (to a colour space, back to RGB, and to grey);
- `cv2.resize`;
- skimage `hog` with `feature_vector=False`.

The ghost predicate `ShapeContracts` states the only facts used about them,
namely their output shapes. The feature scaler and the classifier are plain
function parameters.

## Model

| member | source | states |
|---|---|---|
| Numeric.Trunc | src/dip.py:322-329 | `np.int(n / d)` truncates toward zero: `|q*d| <= |n| < |q*d| + |d|`, and `q` has the sign of the quotient |
| Numeric.TruncNonNeg | src/dip.py:328-329 | for a non-negative quotient, truncation is floor division |
| Numeric.SliceBounds | src/dip.py:408 | a numpy slice `a[start:stop]` selects a range inside `[0, n)`, and exactly `[start, stop)` when the bounds lie in the axis |
| Images.ToColorSpace | src/dip.py:21-38 | `'RGB'` yields the image itself (a copy); the other spaces keep the image's shape |
| Images.FromColorSpace | src/dip.py:40-58 | `'RGB'` yields the image itself; the other spaces keep the shape |
| Images.CropInside | src/dip.py:408 | an in-bounds crop `g[y1:y2, x1:x2]` is the `(y2-y1) x (x2-x1)` sub-grid at `(y1, x1)`, element by element |
| Images.ClampedCropShape | src/dip.py:408 | any crop `g[y1:y2, x1:x2]` with `0 <= y1 <= y2` and `0 <= x1 <= x2`, clamped by numpy, is rectangular and at most `(y2-y1) x (x2-x1)` |
| Images.FlipH | src/dip.py:232 | `cv2.flip(img, 1)` keeps the height and reverses every row, so pixel `(y, x)` moves to `(y, w-1-x)` |
| Features.Bin | src/dip.py:120-122 | a byte `v` falls in the bin `b < nbins` with `b*256 <= v*nbins < (b+1)*256` over the range `(0, 256)` |
| Features.ChannelHist | src/dip.py:120-122 | `nbins` counts, and count `b` is the number of pixels whose channel falls in bin `b` |
| Features.ColorHist | src/dip.py:116-128 | `3*nbins` counts; channel `c`'s bin `b` is at `c*nbins + b` |
| Features.ChannelHistTotal | src/dip.py:120-122 | a channel histogram counts every pixel exactly once (it sums to the pixel count) |
| Features.ColorHistTotal | src/dip.py:116-128 | each channel block of an `h x w` image sums to `h*w` |
| Features.ColorHistFlip | src/dip.py:231-236 | mirroring an image left to right leaves its colour histogram unchanged |
| Features.RavelImageLayout | src/dip.py:135 | `.ravel()` of an `h x w x 3` image puts `(y, x, c)` at `(y*w + x)*3 + c` |
| Features.BinSpatial | src/dip.py:130-136 | the spatial block has `3 * w * h` values for `size = (w, h)` |
| Features.RavelGridLength | src/dip.py:450-456 | raveling an `ny x nx` block grid of `len`-value blocks yields `ny*nx*len` values |
| Features.HogVector | src/dip.py:142-164 | the HOG vector of an `h x w` plane has `HogLen(h, w)` values, one block per block position |
| Features.HogAllLength | src/dip.py:187-196 | HOG on `'ALL'` channels is three channel vectors of equal length |
| Features.InferenceHogLength | src/dip.py:273-290 | the inference HOG block has the configured length (one channel, or three) |
| Features.TrainingHogLength | src/dip.py:185-203 | the training HOG block has the configured length (the grey plane has the image's size) |
| Features.SingleImgFeatures | src/dip.py:241-293 | an `h x w` patch yields a vector of `FeatureLength(cfg, h, w)` values |
| Features.CombinedFeatures | src/dip.py:166-206 | one block per enabled flag, concatenating to spatial, then histogram, then HOG |
| Features.TrainingVector | src/dip.py:226-229 | `np.concatenate(combined_features(...))` is the spatial block, then the histogram block, then the HOG block |
| Features.TrainingVectorLength | src/dip.py:225-229 | a training vector has the same length as an inference vector of the same size |
| Features.TrainingMatchesInference | src/dip.py:166-293 | with HOG on `'ALL'` (or disabled), training and inference vectors of the same image are equal |
| Features.SingleChannelDivergence | src/dip.py:197-202 | with one HOG channel, the vectors agree on the spatial and histogram blocks and have equal length; they are equal exactly when the grey-image HOG equals the channel-`hog_channel` HOG |
| Features.HistBlockPosition | src/dip.py:172-181 | the training vector holds the image's colour histogram at `[spatial length, + 3*nbins)` |
| Features.MirroredHistBlock | src/dip.py:231-236 | the mirrored training vector repeats the original's histogram block |
| Features.ExtractFeatures | src/dip.py:208-239 | the loop appends, image by image, the training vector of the converted image and then that of its mirror (`Extracted`) |
| Features.ExtractedLayout | src/dip.py:208-239 | `2n` vectors for `n` images: image `i`'s vector at `2i`, its mirror's at `2i+1` |
| Features.ExtractedPairAgrees | src/dip.py:220-236 | both vectors emitted for an image have the configured length and share the histogram block |
| Windows.PlanAxis | src/dip.py:321-329 | an axis has a window count exactly when the step `int(size*(1-overlap))` is non-zero (otherwise Python divides by zero); start, step and size are the source's |
| Windows.Resolve | src/dip.py:308-315 | a given bound is kept, and a missing (`None`) one takes its default (`0`, or the image's width or height) |
| Windows.WindowGridSize | src/dip.py:337-347 | the grid has `ny * nx` windows |
| Windows.WindowGridAt | src/dip.py:337-347 | window `(xs, ys)` is element `ys*nx + xs`: `ys` outer, `xs` inner, at `(xs*stepx + x0, ys*stepy + y0)` |
| Windows.SlideWindow | src/dip.py:299-350 | the nested loops return exactly the grid of the resolved region (`None` becomes `0` or the image size) |
| Windows.SlackBounds | src/dip.py:322-327 | for an overlap in `[0, 1]`, the truncations lose at most one pixel, and none when `size*overlap` is integral |
| Windows.AxisWithinRegion | src/dip.py:328-345 | every window starts inside the span and ends at most `Slack` pixels past it |
| Windows.WindowsWithinRegion | src/dip.py:299-350 | every window has the requested size, starts in the region, and ends at most one pixel past its far edge |
| Windows.StepNonNeg | src/dip.py:322-323 | an overlap in `[0, 1]` gives a non-negative step |
| Windows.OverrunByOnePixel | src/dip.py:322-345 | a region 63 pixels wide at overlap 0.3 holds the 64-pixel window `[0, 64)`, which overruns it by one pixel |
| Windows.StartStop.constructor | src/dip.py:299 | a `[start, stop]` list holds the given entries |
| Windows.SlideWindowInPlace | src/dip.py:299-316 | the `None` entries of the caller's lists are overwritten with the resolved bounds; the windows are those of the resolved region |
| Windows.FullFrameWindows | src/dip.py:321-347 | a 1280 x 720 frame at 64 px and overlap 0.5 gives 39 x 21 = 819 windows; the first 39 are the top row, window `j` at `((32j, 0), (32j + 64, 64))`, the last ending at x = 1280 |
| Windows.HalfFrameWindows | src/dip.py:321-347 | a 640 x 360 image gives 19 x 10 = 190 windows |
| Windows.DefaultBoundsCarryOver | src/dip.py:299-316 | two default-argument calls, on a 1280 x 720 image and then a 640 x 360 image, give the same 819 windows, the first frame's; some of the second call's windows lie outside the 640-wide image, window 19 being `(608, 0)-(672, 64)` and window 20 `(640, 0)-(704, 64)` |
| Windows.WindowFeatureLength | src/dip.py:362-376 | every window is classified on a vector of the length of a 64 x 64 patch's vector |
| Windows.TestWindow | src/dip.py:365-385 | one window fails exactly when its clipped crop `img[y1:y2, x1:x2]` is empty (`cv2.resize` raises); otherwise its verdict is whether the classifier labels the 64 x 64 resized crop 1 |
| Windows.NoEmptyCropStep | src/dip.py:364-367 | the first `i+1` windows have non-empty crops exactly when the first `i` do and window `i` does |
| Windows.SearchStep | src/dip.py:364-386 | one iteration fails exactly when the window's crop is empty, and otherwise extends the kept windows to those of the first `i+1` windows |
| Windows.SearchWindows | src/dip.py:352-389 | fails exactly when some window's crop is empty; otherwise the result is the windows labelled 1, in input order, and a window is kept exactly when it is in the input and labelled 1 |
| Seqs.FilterIsSubsequence | src/dip.py:361-389 | the kept windows are the input read at strictly increasing positions, and a position is among them exactly when its window is kept: a subsequence in input order |
| Windows.TopRowCropEmpty | src/dip.py:366 | on a 640 x 360 frame, the clipped crop of the 64 x 64 window at `(x1, 0)` is empty exactly when `x1 >= 640` |
| Windows.CarriedOverFirstEmpty | src/dip.py:337-367 | of the 1280 x 720 frame's windows, the first 20 have non-empty crops on a 640 x 360 frame and window 20 has an empty one |
| Windows.CarriedOverSearchFails | src/dip.py:299-389 | searching a 640 x 360 frame with the windows left over from a default-bounds call on a 1280 x 720 frame fails; in list order the first window with an empty crop is window 20, `(640, 0)-(704, 64)` |
| Subsampling.CandidatesSize | src/dip.py:443-444 | the loops visit `nx * ny` positions |
| Subsampling.CandidatesAt | src/dip.py:443-444 | position `(xb, yb)` is visited `xb*ny + yb`-th: `xb` outer, `yb` inner |
| Subsampling.CandidatesInRange | src/dip.py:443-444 | every visited position has `xb < nx` and `yb < ny` |
| Subsampling.StepsAsWritten | src/dip.py:424-433 | the source's step count is `(n // ppc - 64 // ppc) // 2`: `cell_per_block` cancels out; it is non-negative once the side reaches 64 pixels |
| Subsampling.StepsExact | src/dip.py:429-433 | (corrected count) position `p` is visited exactly when its 64-pixel patch at `p*cells_per_step*pix_per_cell` fits the surface |
| Subsampling.StepFits | src/dip.py:446-469 | a visited position's patch ends inside the surface, and its block slice `[2i, 2i + nblocks_per_window)` inside the block grid |
| Subsampling.AsWrittenPrefix | src/dip.py:422-433 | the source's `(nblocks - nblocks_per_window) // 2` visits only positions that fit (a prefix of the corrected ones) |
| Subsampling.StepsMissLastPosition | src/dip.py:422-433 | when `pix_per_cell` divides 64, the source's count is the corrected count minus one: the last fitting position is never visited |
| Subsampling.OneWindowStripHasNoWindows | src/dip.py:422-433 | a 64-pixel strip (8 px per cell, 2 cells per block) has one fitting position, and the source's count is 0 |
| Subsampling.UnscaleBound | src/dip.py:411-413 | `int(n / scale)` pixels, scaled back by `scale`, span at most `n` |
| Subsampling.ScaleBackFits | src/dip.py:479-482 | a patch inside the scaled surface maps back to a box `[int(xleft*scale), + int(64*scale)]` inside the unscaled span |
| Subsampling.SurfaceShape | src/dip.py:408-413 | for any region with `0 <= start <= stop` on both axes, the searched surface is rectangular and, multiplied by `scale`, no larger than the region |
| Subsampling.ConvertedCropShape | src/dip.py:408-409 | the colour-converted crop of an in-image region has the region's height and at most its width |
| Subsampling.ClampedConvertedCropShape | src/dip.py:408-409 | the colour-converted crop of any region with non-negative bounds is rectangular and no larger than the region (numpy clamps it to the image) |
| Subsampling.RescaledShape | src/dip.py:411-413 | resizing by `1 / scale` (or not, at scale 1) yields a rectangular surface whose sides, multiplied by `scale`, stay within the region's |
| Subsampling.PatchInsideSurface | src/dip.py:466-469 | every visited window's pixel patch is a full 64 x 64 block of the surface, never clipped |
| Subsampling.HogSliceLength | src/dip.py:449-456 | an in-grid block slice, raveled, has the HOG length of a 64 x 64 patch |
| Subsampling.SliceInsideGrid | src/dip.py:449-456 | every block slice taken lies inside the surface's block grid |
| Subsampling.PatchHogLength | src/dip.py:449-462 | each window's HOG features (one channel, or three) have the length of a 64 x 64 training patch's HOG block |
| Subsampling.PatchFeaturesLayout | src/dip.py:471-476 | each window is classified on spatial, histogram and HOG features in training order, of the training length |
| Subsampling.DetectionsFiltered | src/dip.py:446-489 | the boxes are those of the positive windows, in visiting order |
| Subsampling.DetectionsMembers | src/dip.py:478-489 | a box is reported exactly when some visited positive window yields it |
| Subsampling.DetectedMembers | src/dip.py:477-489 | one window yields a box exactly when the classifier labels it 1, and the box is the window's own |
| Subsampling.DetectedBox | src/dip.py:478-489 | a positive window yields only its own box |
| Subsampling.ScaledBox | src/dip.py:480-488 | a positive window's box is a square of side `int(64*scale)`, starting at or after `(xstart, ystart)` |
| Subsampling.PatchBoxInside | src/dip.py:479-489 | a visited window's box is square with side `int(64*scale)` and lies inside `[xstart, x2] x [ystart, y2]` whenever the scaled surface fits that region |
| Subsampling.DetectionsInside | src/dip.py:443-489 | every reported box is such a square inside the region the surface fits |
| Subsampling.SearchFits | src/dip.py:408-413 | the surface cut from `img[ystart:ystop, xstart:xstop]` fits `[xstart, xstop] x [ystart, ystop]` once scaled back |
| Subsampling.BoxesInsideRegion | src/dip.py:391-492 | for any region with non-negative bounds (numpy clamps a region reaching past the image), every box `find_cars` reports is square with side `int(64*scale)` and lies inside `[xstart, xstop] x [ystart, ystop]` |
| Subsampling.WindowHog | src/dip.py:449-462 | a window's HOG features are the block slice of channel 0's grid, followed by channels 1 and 2 for `'ALL'` |
| Subsampling.ClassifyWindow | src/dip.py:448-489 | one inner iteration yields the window's box exactly when the classifier labels its features 1 |
| Subsampling.ScanColumn | src/dip.py:444-489 | the inner loop yields the positive boxes of one column, in order |
| Subsampling.ScanSteps | src/dip.py:443-489 | the nested loops yield the positive boxes of all visited positions, `xb` outer |
| Subsampling.SurfaceHogs | src/dip.py:436-441 | HOG is computed once per selected channel of the whole surface: channel 0, and channels 1 and 2 for `'ALL'` |
| Subsampling.ScanSurface | src/dip.py:415-489 | (corrected count) after the surface is ready, the result is the positive boxes over the step grid |
| Subsampling.ScanSurfaceAsWritten | src/dip.py:415-489 | with the source's own `nxsteps` and `nysteps`, the result is the positive boxes over `range(nxsteps) x range(nysteps)` |
| Subsampling.PrepareSurface | src/dip.py:408-413 | crop, colour conversion and resize give the search surface; for non-negative bounds it is rectangular and fits the region once scaled back |
| Subsampling.FindCars | src/dip.py:391-492 | (corrected count) the boxes of the positive windows in visiting order; no result when `hog_channel` is 1 or 2 (`ch1` is unbound) |
| Subsampling.FindCarsAsWritten | src/dip.py:391-492 | the same search with the source's step counts: the boxes of the positive windows over `range(nxsteps) x range(nysteps)`; no result when `hog_channel` is 1 or 2 |
| Subsampling.CandidatesGrow | src/dip.py:443-444 | a position of a smaller step grid is also a position of a larger one |
| Subsampling.DetectionsSubset | src/dip.py:443-489 | visiting more positions can only add boxes |
| Subsampling.AsWrittenAmongCorrected | src/dip.py:424-444 | every box the source's loops report is also reported by the corrected loops |
| Subsampling.AsWrittenBoxesInsideRegion | src/dip.py:391-492 | with the source's step counts too, every reported box is a square of side `int(64*scale)` inside the region |
| Heatmap.Coverage | src/dip.py:500-503 | a cell's vote count never exceeds the number of boxes |
| Heatmap.AddBox | src/dip.py:503 | `heatmap[y1:y2, x1:x2] += 1` adds one to exactly the covered cells and leaves the others unchanged |
| Heatmap.AddHeat | src/dip.py:498-506 | each cell grows by the number of boxes covering it, so no cell decreases |
| Heatmap.CoverageAppend | src/dip.py:500-503 | adding two batches in turn equals adding their concatenation |
| Heatmap.CoverageRemove | src/dip.py:500-503 | removing one box removes exactly its own vote |
| Heatmap.CoverageOrder | src/dip.py:500-503 | the votes do not depend on the order of the boxes (any permutation gives the same heatmap) |
| Heatmap.CoverageZero | src/dip.py:500-503 | a cell gets no vote exactly when no box covers it |
| Heatmap.CoversInside | src/dip.py:503 | for a box inside the map, the covered cells are exactly the half-open `[y1, y2) x [x1, x2)` |
| Heatmap.Thresholded | src/dip.py:510 | after thresholding, a cell is 0 or above the threshold, and a non-zero cell keeps its value |
| Heatmap.ApplyThreshold | src/dip.py:508-513 | every cell `<= threshold` becomes 0, and every other cell is unchanged |
| Heatmap.ThresholdIdempotent | src/dip.py:510 | thresholding twice equals thresholding once; a cell keeps its value exactly when it is above the threshold or 0 |
| Heatmap.LabelBox | src/dip.py:519-526 | found exactly when some pixel has the label; the box contains every such pixel, and each of its four bounds is attained by one of them |
| Heatmap.LabeledBoxes | src/dip.py:515-532 | one bounding box per label `1..n`, in label order; no result exactly when some label in `1..n` has no pixel (`np.min` of an empty array raises) |
| Heatmap.BoundingBoxUnique | src/dip.py:526 | a label's `((min x, min y), (max x, max y))` box is unique |

## Left out

- File I/O is not modelled: `read_image`, and `extract_features` reading image files. `ExtractFeatures` takes decoded images.
- Rendering is not modelled: `draw_boxes`, the drawn copy of `find_cars`, and `cv2.rectangle` in `draw_labeled_bboxes`.
- Template matching is not modelled: `find_matches` runs inside OpenCV.
- OpenCV colour conversion, `cv2.resize`, `cv2.flip` and skimage `hog` are abstract functions, of which only output shapes are used.
  - The flip is defined (`FlipH`), since it only rearranges pixels.
  - The `vis=True` branch of `get_hog_features` is not modelled.
- `StandardScaler.transform` and the classifier's `predict` are uninterpreted function parameters.
- scipy `label` is not modelled. `LabeledBoxes` takes its output: the label array and the label count.
- Floating-point arithmetic is not modelled. Overlaps and scales are exact rationals, and `np.int` truncates the exact quotient. Rounding of the float products is not captured.
- The histogram range is `(0, 256)` for 8-bit samples. The `bins_range` and `hist_range` parameters are never varied by the source, so they are not parameters.
- A `hog_channel` that is negative or above 2 is not modelled. Neither is a colour-space string outside the six names, where the source fails with an unbound local.
- Integer arrays are unbounded: the heatmap's dtype and overflow are not modelled.
- `Prms` is a parameter module that is not part of this model. Its colour space, spatial size and bin count are the parameter `prms` of `find_cars`.
  - `find_cars` ignores its own `spatial_size` and `hist_bins` arguments in favour of these, and so does the model.
  - `combined_features` reads `Prms.COLORSPACE` to go back to RGB. The model passes it as `prmsColorSpace`.
- Subsampling.FindCars: the step count is the corrected one, `(W - 64) // (2*ppc) + 1` windows when `W >= 64`, not the source's `(nblocks - nblocks_per_window) // 2`. `FindCarsAsWritten` runs the source's own count (see Findings).
- Subsampling.ScanSurface: uses the corrected count too. `ScanSurfaceAsWritten` is its as-written twin.
- Windows.WindowFeatureLength: holds for every window, including one whose crop is empty, because `ShapeContracts` takes `cv2.resize` as total. `cv2.resize` raises on an empty crop. `SearchWindows` models that failure (`None`), so no vector of an empty window is ever used.
- Subsampling.FindCarsSpec: the crop, the colour conversion and the resizes are modelled as total. On a region that clamps to an empty crop, or one that shrinks to nothing at the given scale, OpenCV raises; the model instead searches the empty surface and reports no boxes.
- Images.HogParams: `orient`, `pix_per_cell` and `cell_per_block` are positive by type. With `pix_per_cell = 0` the source raises `ZeroDivisionError` (src/dip.py:424); that error is not modelled.
- Subsampling.FindCars: requires `Prms.N_BINS > 0`, as `FindCarsSpec` and the members below it do. With a non-positive bin count `np.histogram` raises; that error is not modelled.
- Windows.IsCar: one abstract `resize` stands for both interpolations: `search_windows` passes `cv2.INTER_AREA` (src/dip.py:366-367), `find_cars` uses OpenCV's default (src/dip.py:469). Only output shapes are used, so no proved property depends on the difference.
- Features.ValidConfig: requires at least one enabled feature block, and `hist_bins > 0` when histograms are on. With every block off, `np.concatenate` of no arrays raises. With `hist_bins <= 0`, `np.histogram` raises. These errors are not modelled: the members that require `ValidConfig` exclude them.
- Windows.WindowsWithinRegion: the source is described as keeping windows inside the search region. The code lets the last window overrun the far edge by one pixel when `size * overlap` is not integral (`OverrunByOnePixel`), so the contract allows that pixel. This follows the code.
- Subsampling.HogSliceLength: requires `64 // pix_per_cell - cell_per_block + 1 >= 1`. Otherwise the slice bound is negative and numpy counts it from the far edge.
- Subsampling.PatchHogLength: requires the same bound, for the same reason.
- Features.Bin: the bin formula is the exact one for integer samples and `range=(0, 256)`. It is not numpy's floating-point edge computation.
- Heatmap.Coverage: its own contract only bounds the count. Its meaning is given by `CoverageZero`, `CoverageAppend`, `CoverageOrder` and `AddHeat`.
- Heatmap.LabeledBoxes: it scans the label array in row-major order for each label, where the source calls `nonzero()`. The resulting min and max are the same.

## Findings

| source | as written | input that shows it | evidently intended | confidence | as-written member | corrected member |
|---|---|---|---|---|---|---|
| src/dip.py:299-316 | `slide_window`'s defaults `x_start_stop=[None, None]` and `y_start_stop=[None, None]` are lists created once, and the function writes the resolved bounds into them | a call with default bounds on a 1280 x 720 image, then one on a 640 x 360 image: the second returns the first image's 819 windows, some reaching x = 1280; `search_windows` on the 640 x 360 image then raises at the first carried-over window past x = 640, window 20 `(640, 0)-(704, 64)`, whose crop is empty | each call resolves `None` to its own image's size (190 windows for 640 x 360) | high, not executed | Windows.DefaultBoundsCarryOver, Windows.CarriedOverSearchFails | Windows.SlideWindow |
| src/dip.py:422-433 | `nxsteps = (nxblocks - nblocks_per_window) // cells_per_step` counts one position too few, so the last window that fits is never visited | a strip 64 pixels high at scale 1 with 8 px per cell and 2 cells per block: `nyblocks = 7`, `nblocks_per_window = 7`, so `nysteps = 0` and no window is searched, though one fits | every window position whose patch fits is visited: `(nblocks - nblocks_per_window) // cells_per_step + 1` when `pix_per_cell` divides 64 | medium, not executed | Subsampling.StepsMissLastPosition, Subsampling.FindCarsAsWritten | Subsampling.StepsExact, Subsampling.FindCars |
