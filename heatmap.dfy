/** The heatmap stage: every detected box adds one vote to each heatmap cell
    it covers, cells with too few votes are zeroed, and each labelled region
    of the thresholded map is reduced to the bounding box of its pixels.
    The heatmap and the label image are 2-D numpy arrays, here `array2<int>`
    indexed `[row, column]`, i.e. `[y, x]`. */
module Heatmap {
  import opened Seqs
  import opened Numeric
  import opened Images

  // ---------------------------------------------------------------------
  // add_heat
  // ---------------------------------------------------------------------

  /** Cell `(y, x)` of an `h x w` heatmap lies in the slice
      `heatmap[y1:y2, x1:x2]` of box `b`, with numpy's slice clamping. */
  predicate Covers(b: Box, h: nat, w: nat, y: int, x: int)
  {
    var ys, xs := SliceBounds(b.y1, b.y2, h), SliceBounds(b.x1, b.x2, w);
    ys.lo <= y < ys.hi && xs.lo <= x < xs.hi
  }

  /** The number of boxes in `boxes` that cover cell `(y, x)`. */
  function Coverage(boxes: seq<Box>, h: nat, w: nat, y: int, x: int): (c: nat)
    ensures c <= |boxes|
  {
    if boxes == [] then 0
    else Coverage(boxes[..|boxes| - 1], h, w, y, x) + (if Covers(boxes[|boxes| - 1], h, w, y, x) then 1 else 0)
  }

  /** One iteration of `add_heat`: `heatmap[y1:y2, x1:x2] += 1`. */
  method AddBox(heat: array2<int>, b: Box)
    modifies heat
    ensures forall y, x :: 0 <= y < heat.Length0 && 0 <= x < heat.Length1 ==>
              heat[y, x] == old(heat[y, x]) + (if Covers(b, heat.Length0, heat.Length1, y, x) then 1 else 0)
  {
    var ys := SliceBounds(b.y1, b.y2, heat.Length0);
    var xs := SliceBounds(b.x1, b.x2, heat.Length1);
    for y := ys.lo to ys.hi
      invariant forall r, c :: 0 <= r < heat.Length0 && 0 <= c < heat.Length1 ==>
                  heat[r, c] == old(heat[r, c]) + (if ys.lo <= r < y && xs.lo <= c < xs.hi then 1 else 0)
    {
      for x := xs.lo to xs.hi
        invariant forall r, c :: 0 <= r < heat.Length0 && 0 <= c < heat.Length1 ==>
                    heat[r, c] == old(heat[r, c]) +
                      (if (ys.lo <= r < y && xs.lo <= c < xs.hi) || (r == y && xs.lo <= c < x) then 1 else 0)
      {
        heat[y, x] := heat[y, x] + 1;
      }
    }
  }

  /** `add_heat`: every cell grows by the number of boxes covering it, so no
      cell decreases. */
  method AddHeat(heat: array2<int>, boxes: seq<Box>)
    modifies heat
    ensures forall y, x :: 0 <= y < heat.Length0 && 0 <= x < heat.Length1 ==>
              heat[y, x] == old(heat[y, x]) + Coverage(boxes, heat.Length0, heat.Length1, y, x)
    ensures forall y, x :: 0 <= y < heat.Length0 && 0 <= x < heat.Length1 ==> heat[y, x] >= old(heat[y, x])
  {
    for i := 0 to |boxes|
      invariant forall y, x :: 0 <= y < heat.Length0 && 0 <= x < heat.Length1 ==>
                  heat[y, x] == old(heat[y, x]) + Coverage(boxes[..i], heat.Length0, heat.Length1, y, x)
    {
      AddBox(heat, boxes[i]);
      assert boxes[..i + 1][..i] == boxes[..i];
    }
    assert boxes[..|boxes|] == boxes;
  }

  /** Adding two batches of boxes one after the other gives the votes of the
      concatenated batch. */
  lemma {:induction false} CoverageAppend(a: seq<Box>, b: seq<Box>, h: nat, w: nat, y: int, x: int)
    ensures Coverage(a + b, h, w, y, x) == Coverage(a, h, w, y, x) + Coverage(b, h, w, y, x)
    decreases |b|
  {
    if b == [] {
      assert a + b == a;
    } else {
      var b' := b[..|b| - 1];
      assert (a + b)[..|a + b| - 1] == a + b';
      assert (a + b)[|a + b| - 1] == b[|b| - 1];
      CoverageAppend(a, b', h, w, y, x);
    }
  }

  /** Taking box `j` out of a batch removes exactly its own vote. */
  lemma CoverageRemove(b: seq<Box>, j: nat, h: nat, w: nat, y: int, x: int)
    requires j < |b|
    ensures Coverage(b, h, w, y, x) ==
              Coverage(b[..j] + b[j + 1..], h, w, y, x) + (if Covers(b[j], h, w, y, x) then 1 else 0)
  {
    assert b == b[..j] + [b[j]] + b[j + 1..];
    CoverageAppend(b[..j] + [b[j]], b[j + 1..], h, w, y, x);
    CoverageAppend(b[..j], [b[j]], h, w, y, x);
    CoverageAppend(b[..j], b[j + 1..], h, w, y, x);
    assert [b[j]][..0] == [];
  }

  /** The votes do not depend on the order of the boxes: any rearrangement
      of the same boxes gives the same heatmap. */
  lemma {:induction false} CoverageOrder(a: seq<Box>, b: seq<Box>, h: nat, w: nat, y: int, x: int)
    requires multiset(a) == multiset(b)
    ensures Coverage(a, h, w, y, x) == Coverage(b, h, w, y, x)
    decreases |a|
  {
    if a == [] {
      assert |b| == |multiset(b)| == 0;
    } else {
      var z := a[|a| - 1];
      assert z in multiset(b) by {
        assert a == a[..|a| - 1] + [z];
      }
      var j :| 0 <= j < |b| && b[j] == z;
      RemoveMatching(a, b, j);
      CoverageOrder(a[..|a| - 1], b[..j] + b[j + 1..], h, w, y, x);
      CoverageRemove(b, j, h, w, y, x);
    }
  }

  /** A cell gets no vote exactly when no box covers it. */
  lemma {:induction false} CoverageZero(boxes: seq<Box>, h: nat, w: nat, y: int, x: int)
    ensures Coverage(boxes, h, w, y, x) == 0 <==> forall i :: 0 <= i < |boxes| ==> !Covers(boxes[i], h, w, y, x)
  {
    if boxes != [] {
      var boxes' := boxes[..|boxes| - 1];
      CoverageZero(boxes', h, w, y, x);
      assert forall i :: 0 <= i < |boxes'| ==> boxes'[i] == boxes[i];
    }
  }

  /** For a box inside the heatmap the covered cells are exactly the
      half-open rectangle `[y1, y2) x [x1, x2)`: the bottom row and right
      column named by the box get no vote. */
  lemma CoversInside(b: Box, h: nat, w: nat, y: int, x: int)
    requires 0 <= b.y1 <= b.y2 <= h && 0 <= b.x1 <= b.x2 <= w
    ensures Covers(b, h, w, y, x) <==> b.y1 <= y < b.y2 && b.x1 <= x < b.x2
  {
  }

  // ---------------------------------------------------------------------
  // apply_threshold
  // ---------------------------------------------------------------------

  /** A cell after `heatmap[heatmap <= threshold] = 0`. */
  function Thresholded(v: int, threshold: int): (r: int)
    ensures r == 0 || r > threshold
    ensures r != 0 ==> r == v
  {
    if v <= threshold then 0 else v
  }

  /** `apply_threshold`, in place. */
  method ApplyThreshold(heat: array2<int>, threshold: int)
    modifies heat
    ensures forall y, x :: 0 <= y < heat.Length0 && 0 <= x < heat.Length1 ==>
              heat[y, x] == Thresholded(old(heat[y, x]), threshold)
  {
    for y := 0 to heat.Length0
      invariant forall r, c :: 0 <= r < heat.Length0 && 0 <= c < heat.Length1 ==>
                  heat[r, c] == if r < y then Thresholded(old(heat[r, c]), threshold) else old(heat[r, c])
    {
      for x := 0 to heat.Length1
        invariant forall r, c :: 0 <= r < heat.Length0 && 0 <= c < heat.Length1 ==>
                    heat[r, c] == if r < y || (r == y && c < x) then Thresholded(old(heat[r, c]), threshold)
                                  else old(heat[r, c])
      {
        if heat[y, x] <= threshold {
          heat[y, x] := 0;
        }
      }
    }
  }

  /** Thresholding twice with the same threshold changes nothing more, and
      a cell keeps its value exactly when that value exceeds the threshold. */
  lemma ThresholdIdempotent(v: int, threshold: int)
    ensures Thresholded(Thresholded(v, threshold), threshold) == Thresholded(v, threshold)
    ensures Thresholded(v, threshold) == v <==> v > threshold || v == 0
  {
  }

  // ---------------------------------------------------------------------
  // draw_labeled_bboxes (bounding boxes only)
  // ---------------------------------------------------------------------

  /** Pixel `(y, x)` of the label image carries label `k`. */
  predicate Labelled(labels: array2<int>, k: int, y: int, x: int)
    reads labels
  {
    0 <= y < labels.Length0 && 0 <= x < labels.Length1 && labels[y, x] == k
  }

  /** Some pixel carries label `k`. */
  ghost predicate LabelPresent(labels: array2<int>, k: int)
    reads labels
  {
    exists y, x :: Labelled(labels, k, y, x)
  }

  /** `b` is `((min x, min y), (max x, max y))` over the pixels labelled `k`:
      every such pixel lies in `b` (inclusive corners) and each of the four
      bounds is attained by one of them. */
  ghost predicate IsBoundingBox(labels: array2<int>, k: int, b: Box)
    reads labels
  {
    && (forall y, x :: Labelled(labels, k, y, x) ==> b.x1 <= x <= b.x2 && b.y1 <= y <= b.y2)
    && (exists y, x :: Labelled(labels, k, y, x) && x == b.x1)
    && (exists y, x :: Labelled(labels, k, y, x) && x == b.x2)
    && (exists y, x :: Labelled(labels, k, y, x) && y == b.y1)
    && (exists y, x :: Labelled(labels, k, y, x) && y == b.y2)
  }

  /** Pixel `(r, c)` comes before `(y, x)` in row-major order. */
  predicate Before(r: int, c: int, y: int, x: int)
  {
    r < y || (r == y && c < x)
  }

  /** The bounding box of the pixels labelled `k`: the pixels of
      `(labels == k).nonzero()` are visited in row-major order, keeping the
      running minimum and maximum of their coordinates. `found` is false when
      no pixel carries the label, where `np.min` of the empty array raises. */
  method LabelBox(labels: array2<int>, k: int) returns (found: bool, b: Box)
    ensures found <==> LabelPresent(labels, k)
    ensures found ==> IsBoundingBox(labels, k, b)
  {
    found := false;
    b := Box(0, 0, 0, 0);
    ghost var minX, maxX, minY, maxY := (0, 0), (0, 0), (0, 0), (0, 0);
    for y := 0 to labels.Length0
      invariant found <==> exists r, c :: Labelled(labels, k, r, c) && r < y
      invariant found ==> forall r, c :: Labelled(labels, k, r, c) && r < y ==>
                  b.x1 <= c <= b.x2 && b.y1 <= r <= b.y2
      invariant found ==> Labelled(labels, k, minX.0, minX.1) && minX.1 == b.x1
      invariant found ==> Labelled(labels, k, maxX.0, maxX.1) && maxX.1 == b.x2
      invariant found ==> Labelled(labels, k, minY.0, minY.1) && minY.0 == b.y1
      invariant found ==> Labelled(labels, k, maxY.0, maxY.1) && maxY.0 == b.y2
    {
      for x := 0 to labels.Length1
        invariant found <==> exists r, c :: Labelled(labels, k, r, c) && Before(r, c, y, x)
        invariant found ==> forall r, c :: Labelled(labels, k, r, c) && Before(r, c, y, x) ==>
                    b.x1 <= c <= b.x2 && b.y1 <= r <= b.y2
        invariant found ==> Labelled(labels, k, minX.0, minX.1) && minX.1 == b.x1
        invariant found ==> Labelled(labels, k, maxX.0, maxX.1) && maxX.1 == b.x2
        invariant found ==> Labelled(labels, k, minY.0, minY.1) && minY.0 == b.y1
        invariant found ==> Labelled(labels, k, maxY.0, maxY.1) && maxY.0 == b.y2
      {
        if labels[y, x] == k {
          if !found {
            found := true;
            b := Box(x, y, x, y);
            minX, maxX, minY, maxY := (y, x), (y, x), (y, x), (y, x);
          } else {
            if x < b.x1 {
              b := b.(x1 := x);
              minX := (y, x);
            }
            if x > b.x2 {
              b := b.(x2 := x);
              maxX := (y, x);
            }
            if y < b.y1 {
              b := b.(y1 := y);
              minY := (y, x);
            }
            if y > b.y2 {
              b := b.(y2 := y);
              maxY := (y, x);
            }
          }
          assert Labelled(labels, k, y, x) && Before(y, x, y, x + 1);
        } else {
          forall r, c | Labelled(labels, k, r, c) && Before(r, c, y, x + 1)
            ensures Before(r, c, y, x)
          {
          }
        }
      }
    }
  }

  /** The boxes `draw_labeled_bboxes` draws for labels `1 .. n`, in label
      order; `None` when one of those labels has no pixel (`np.min` of an
      empty array raises). */
  method LabeledBoxes(labels: array2<int>, n: int) returns (r: Option<seq<Box>>)
    ensures r.Some? <==> forall k :: 1 <= k <= n ==> LabelPresent(labels, k)
    ensures r.Some? ==> |r.value| == RangeLen(n)
    ensures r.Some? ==> forall i :: 0 <= i < |r.value| ==> IsBoundingBox(labels, i + 1, r.value[i])
  {
    if n < 1 {
      return Some([]);
    }
    var bboxes: seq<Box> := [];
    for carNumber := 1 to n + 1
      invariant |bboxes| == carNumber - 1
      invariant forall k :: 1 <= k < carNumber ==> LabelPresent(labels, k)
      invariant forall i :: 0 <= i < |bboxes| ==> IsBoundingBox(labels, i + 1, bboxes[i])
    {
      var found, bbox := LabelBox(labels, carNumber);
      if !found {
        return None;
      }
      bboxes := bboxes + [bbox];
    }
    return Some(bboxes);
  }

  /** A label has at most one bounding box. */
  lemma BoundingBoxUnique(labels: array2<int>, k: int, b1: Box, b2: Box)
    requires IsBoundingBox(labels, k, b1) && IsBoundingBox(labels, k, b2)
    ensures b1 == b2
  {
    var y1, x1 :| Labelled(labels, k, y1, x1) && x1 == b1.x1;
    var y2, x2 :| Labelled(labels, k, y2, x2) && x2 == b2.x1;
    var y3, x3 :| Labelled(labels, k, y3, x3) && x3 == b1.x2;
    var y4, x4 :| Labelled(labels, k, y4, x4) && x4 == b2.x2;
    var y5, x5 :| Labelled(labels, k, y5, x5) && y5 == b1.y1;
    var y6, x6 :| Labelled(labels, k, y6, x6) && y6 == b2.y1;
    var y7, x7 :| Labelled(labels, k, y7, x7) && y7 == b1.y2;
    var y8, x8 :| Labelled(labels, k, y8, x8) && y8 == b2.y2;
  }
}
