/**
 * Prediction assembly (prepare_predictions): every ROI's score vector is made
 * hierarchy-consistent and reduced, one row is emitted per non-zero entry, and
 * the rows are bucketed per class and per image for the average-precision
 * routine.
 */
module PredictionAssembly {
  import opened Outcomes
  import opened Hierarchy

  /** A row of preds_for_img: ROI coordinates, score and class index. */
  datatype Detection = Detection(coords: Coords, score: Score, cls: nat)

  /** A row handed to the average-precision routine: ROI coordinates and score. */
  datatype ScoredBox = ScoredBox(coords: Coords, score: Score)

  /** all_boxes: indexed by class, then by image. */
  type Grid = seq<seq<seq<ScoredBox>>>

  // ---------------------------------------------------------------------------
  // Specification

  /** The reduced vector of a ROI: its raw scores, decoded top-down, then mapped. */
  function ReducedPrediction(h: Helper, raw: ClassVector): ClassVector {
    h.predictionVector(h.topDownEval(raw))
  }

  /** The rows emitted for the non-zero entries 0 .. n-1 of `v`, background included. */
  function RoiDetections(roi: Coords, v: ClassVector, n: nat): seq<Detection>
    requires n <= |v|
  {
    if n == 0 then []
    else RoiDetections(roi, v, n - 1) + (if v[n - 1] != 0.0 then [Detection(roi, v[n - 1], n - 1)] else [])
  }

  /** The rows of the first `n` ROIs of an image; the first error wins. */
  function RoisDetections(h: Helper, output: seq<ClassVector>, rois: seq<Coords>, numClasses: nat, n: nat): Result<seq<Detection>>
    requires n <= |output|
  {
    if n == 0 then Ok([])
    else match RoisDetections(h, output, rois, numClasses, n - 1)
      case Err(e) => Err(e)
      case Ok(dets) =>
        if n - 1 >= |rois| then Err(IndexOutOfRange)
        else
          var v := ReducedPrediction(h, output[n - 1]);
          if |v| != numClasses then Err(LengthMismatch)
          else Ok(dets + RoiDetections(rois[n - 1], v, numClasses))
  }

  /** The rows of one image; an image that yields none cannot be concatenated. */
  function ImageDetections(h: Helper, output: seq<ClassVector>, rois: seq<Coords>, numClasses: nat): Result<seq<Detection>> {
    match RoisDetections(h, output, rois, numClasses, |output|)
    case Err(e) => Err(e)
    case Ok(dets) => if dets == [] then Err(EmptyConcatenate) else Ok(dets)
  }

  /** The rows of the first `n` images; the first error wins. */
  function AllDetections(h: Helper, outputs: seq<seq<ClassVector>>, roiss: seq<seq<Coords>>, numClasses: nat, n: nat): Result<seq<seq<Detection>>>
    requires n <= |outputs|
  {
    if n == 0 then Ok([])
    else match AllDetections(h, outputs, roiss, numClasses, n - 1)
      case Err(e) => Err(e)
      case Ok(dss) =>
        if n - 1 >= |roiss| then Err(IndexOutOfRange)
        else match ImageDetections(h, outputs[n - 1], roiss[n - 1], numClasses)
          case Err(e) => Err(e)
          case Ok(dets) => Ok(dss + [dets])
  }

  /** The rows of class `c`, in their original order, without the class column. */
  function ClassBucket(dets: seq<Detection>, c: int): seq<ScoredBox> {
    if dets == [] then []
    else
      var d := dets[|dets| - 1];
      ClassBucket(dets[..|dets| - 1], c) + (if d.cls == c then [ScoredBox(d.coords, d.score)] else [])
  }

  /** The grid for the given per-image rows: class 0 empty, class `c` its bucket of each image. */
  function BuildGrid(numClasses: nat, dss: seq<seq<Detection>>): Grid {
    seq(numClasses, c => seq(|dss|, i requires 0 <= i < |dss| => if c == 0 then [] else ClassBucket(dss[i], c)))
  }

  /** The whole of prepare_predictions. */
  function AssembledPredictions(h: Helper, outputs: seq<seq<ClassVector>>, roiss: seq<seq<Coords>>, numClasses: nat): Result<Grid> {
    match AllDetections(h, outputs, roiss, numClasses, |outputs|)
    case Err(e) => Err(e)
    case Ok(dss) => Ok(BuildGrid(numClasses, dss))
  }

  /** Reference for one bucket: one row per ROI whose reduced entry at `c` is non-zero, in ROI order. */
  function ClassScores(h: Helper, output: seq<ClassVector>, rois: seq<Coords>, c: int, n: nat): seq<ScoredBox>
    requires n <= |output| && n <= |rois|
  {
    if n == 0 then []
    else
      var v := ReducedPrediction(h, output[n - 1]);
      ClassScores(h, output, rois, c, n - 1) + (if 0 <= c < |v| && v[c] != 0.0 then [ScoredBox(rois[n - 1], v[c])] else [])
  }

  // ---------------------------------------------------------------------------
  // Implementation

  /** The per-image part: run every ROI through the hierarchy and emit its non-zero entries. */
  method CollectDetections(h: Helper, output: seq<ClassVector>, rois: seq<Coords>, numClasses: nat) returns (r: Result<seq<Detection>>)
    ensures r == ImageDetections(h, output, rois, numClasses)
  {
    var predsForImg: seq<Detection> := [];
    var roiI := 0;
    while roiI < |output|
      invariant 0 <= roiI <= |output|
      invariant RoisDetections(h, output, rois, numClasses, roiI) == Ok(predsForImg)
    {
      var predVector := output[roiI];
      if roiI >= |rois| {
        RoisDetectionsErrorSticks(h, output, rois, numClasses, roiI + 1, |output|);
        return Err(IndexOutOfRange);
      }
      var roi := rois[roiI];
      var processed := h.topDownEval(predVector);
      var reduced := h.predictionVector(processed);
      if |reduced| != numClasses {
        RoisDetectionsErrorSticks(h, output, rois, numClasses, roiI + 1, |output|);
        return Err(LengthMismatch);
      }
      ghost var before := predsForImg;
      var labelI := 0;
      while labelI < numClasses
        invariant 0 <= labelI <= numClasses
        invariant predsForImg == before + RoiDetections(roi, reduced, labelI)
      {
        if reduced[labelI] != 0.0 {
          predsForImg := predsForImg + [Detection(roi, reduced[labelI], labelI)];
        }
        labelI := labelI + 1;
      }
      roiI := roiI + 1;
    }
    if predsForImg == [] {
      return Err(EmptyConcatenate);
    }
    return Ok(predsForImg);
  }

  /** The inner loop of prepare_predictions: store the bucket of class j of one image in column `imgI`, for every class but the background. */
  method FillColumn(g: Grid, imgI: nat, dets: seq<Detection>) returns (r: Grid)
    requires forall c :: 0 <= c < |g| ==> imgI < |g[c]|
    ensures |r| == |g|
    ensures forall c :: 0 <= c < |g| ==>
      r[c] == if c != 0 then g[c][imgI := ClassBucket(dets, c)] else g[c]
  {
    r := g;
    var clsJ := 1;
    while clsJ < |g|
      invariant 1 <= clsJ && (clsJ <= |g| || clsJ == 1)
      invariant |r| == |g|
      invariant forall c :: 0 <= c < |g| ==>
        r[c] == if c < clsJ && c != 0 then g[c][imgI := ClassBucket(dets, c)] else g[c]
    {
      r := r[clsJ := r[clsJ][imgI := ClassBucket(dets, clsJ)]];
      clsJ := clsJ + 1;
    }
  }

  /** prepare_predictions: pre-allocate the grid, then fill column `img_i` class by class. */
  method PreparePredictions(h: Helper, outputs: seq<seq<ClassVector>>, roiss: seq<seq<Coords>>, numClasses: nat) returns (r: Result<Grid>)
    ensures r == AssembledPredictions(h, outputs, roiss, numClasses)
  {
    var numTestImages := |outputs|;
    var allBoxes: Grid := seq(numClasses, _ => seq(numTestImages, _ => []));
    ghost var done: seq<seq<Detection>> := [];
    PartialGridEmpty(numClasses, numTestImages);
    var imgI := 0;
    while imgI < numTestImages
      invariant 0 <= imgI <= numTestImages && |done| == imgI
      invariant AllDetections(h, outputs, roiss, numClasses, imgI) == Ok(done)
      invariant allBoxes == PartialGrid(numClasses, numTestImages, done)
    {
      var output := outputs[imgI];
      if imgI >= |roiss| {
        AllDetectionsErrorSticks(h, outputs, roiss, numClasses, imgI + 1, numTestImages);
        return Err(IndexOutOfRange);
      }
      var rois := roiss[imgI];
      var preds := CollectDetections(h, output, rois, numClasses);
      if preds.Err? {
        AllDetectionsErrorSticks(h, outputs, roiss, numClasses, imgI + 1, numTestImages);
        return Err(preds.error);
      }
      PartialGridShape(numClasses, numTestImages, done);
      allBoxes := FillColumn(allBoxes, imgI, preds.value);
      PartialGridNext(allBoxes, numClasses, numTestImages, done, preds.value);
      done := done + [preds.value];
      imgI := imgI + 1;
    }
    PartialGridComplete(numClasses, done);
    return Ok(allBoxes);
  }

  // ---------------------------------------------------------------------------
  // Lemmas

  /** The grid after the first |dss| images: later columns are still empty. */
  function PartialGrid(numClasses: nat, numImages: nat, dss: seq<seq<Detection>>): Grid {
    seq(numClasses, c => seq(numImages, i requires 0 <= i < numImages => if c == 0 || i >= |dss| then [] else ClassBucket(dss[i], c)))
  }

  /** Before any image, the grid is the pre-allocated one. */
  lemma PartialGridEmpty(numClasses: nat, numImages: nat)
    ensures PartialGrid(numClasses, numImages, []) == seq(numClasses, _ => seq(numImages, _ => []))
  {
    var p := PartialGrid(numClasses, numImages, []);
    var e: Grid := seq(numClasses, _ => seq(numImages, _ => []));
    forall c | 0 <= c < numClasses
      ensures p[c] == e[c]
    {
    }
  }

  /** The partial grid has a row per class and a column per image. */
  lemma PartialGridShape(numClasses: nat, numImages: nat, dss: seq<seq<Detection>>)
    ensures |PartialGrid(numClasses, numImages, dss)| == numClasses
    ensures forall c :: 0 <= c < numClasses ==> |PartialGrid(numClasses, numImages, dss)[c]| == numImages
  {
  }

  /** Once every column is filled, the partial grid is the whole grid. */
  lemma PartialGridComplete(numClasses: nat, dss: seq<seq<Detection>>)
    ensures PartialGrid(numClasses, |dss|, dss) == BuildGrid(numClasses, dss)
  {
    var p := PartialGrid(numClasses, |dss|, dss);
    var b := BuildGrid(numClasses, dss);
    forall c | 0 <= c < numClasses
      ensures p[c] == b[c]
    {
      forall i | 0 <= i < |dss|
        ensures p[c][i] == b[c][i]
      {
      }
    }
  }

  /** Filling column |dss| of every class but the background adds image `d` to the grid. */
  lemma PartialGridNext(g: Grid, numClasses: nat, numImages: nat, dss: seq<seq<Detection>>, d: seq<Detection>)
    requires |dss| < numImages && |g| == numClasses
    requires var p := PartialGrid(numClasses, numImages, dss);
      forall c :: 0 <= c < numClasses ==>
        g[c] == if c != 0 then p[c][|dss| := ClassBucket(d, c)] else p[c]
    ensures g == PartialGrid(numClasses, numImages, dss + [d])
  {
    var p := PartialGrid(numClasses, numImages, dss);
    var q := PartialGrid(numClasses, numImages, dss + [d]);
    forall c | 0 <= c < numClasses
      ensures g[c] == q[c]
    {
      forall i | 0 <= i < numImages
        ensures g[c][i] == q[c][i]
      {
        if i < |dss| {
          assert (dss + [d])[i] == dss[i];
        }
      }
    }
  }

  lemma {:induction false} RoisDetectionsErrorSticks(h: Helper, output: seq<ClassVector>, rois: seq<Coords>, numClasses: nat, j: nat, n: nat)
    requires j <= n <= |output|
    requires RoisDetections(h, output, rois, numClasses, j).Err?
    ensures RoisDetections(h, output, rois, numClasses, n) == RoisDetections(h, output, rois, numClasses, j)
  {
    if n > j {
      RoisDetectionsErrorSticks(h, output, rois, numClasses, j, n - 1);
    }
  }

  lemma {:induction false} AllDetectionsErrorSticks(h: Helper, outputs: seq<seq<ClassVector>>, roiss: seq<seq<Coords>>, numClasses: nat, j: nat, n: nat)
    requires j <= n <= |outputs|
    requires AllDetections(h, outputs, roiss, numClasses, j).Err?
    ensures AllDetections(h, outputs, roiss, numClasses, n) == AllDetections(h, outputs, roiss, numClasses, j)
  {
    if n > j {
      AllDetectionsErrorSticks(h, outputs, roiss, numClasses, j, n - 1);
    }
  }

  /**
   * A ROI emits exactly one row per non-zero entry below `n`, background
   * included, with the ROI's coordinates and that entry as score, in
   * increasing class order; zero entries emit nothing.
   */
  lemma {:induction false} RoiDetectionsExact(roi: Coords, v: ClassVector, n: nat)
    requires n <= |v|
    ensures var dets := RoiDetections(roi, v, n);
      && (forall k :: 0 <= k < |dets| ==>
            dets[k].coords == roi && dets[k].cls < n && dets[k].score == v[dets[k].cls] && dets[k].score != 0.0)
      && (forall l :: 0 <= l < n && v[l] != 0.0 ==> Detection(roi, v[l], l) in dets)
      && (forall k1, k2 :: 0 <= k1 < k2 < |dets| ==> dets[k1].cls < dets[k2].cls)
  {
    if n > 0 {
      RoiDetectionsExact(roi, v, n - 1);
    }
  }

  /**
   * Scenario: a ROI whose reduced vector holds only background mass emits the
   * background row alone, so it adds nothing to the bucket of any class.
   */
  lemma BackgroundOnlyRoi(roi: Coords, v: ClassVector, n: nat, c: int)
    requires 1 <= n <= |v| && v[0] != 0.0
    requires forall l :: 1 <= l < n ==> v[l] == 0.0
    requires c != 0
    ensures RoiDetections(roi, v, n) == [Detection(roi, v[0], 0)]
    ensures ClassBucket(RoiDetections(roi, v, n), c) == []
  {
    ZeroRange(roi, v, 1, n);
    var d := Detection(roi, v[0], 0);
    assert RoiDetections(roi, v, 1) == RoiDetections(roi, v, 0) + [d];
    assert [d][..0] == [];
    assert ClassBucket([d], c) == ClassBucket([], c);
  }

  /** Zero entries contribute nothing. */
  lemma {:induction false} ZeroRange(roi: Coords, v: ClassVector, m: nat, n: nat)
    requires m <= n <= |v|
    requires forall l :: m <= l < n ==> v[l] == 0.0
    ensures RoiDetections(roi, v, n) == RoiDetections(roi, v, m)
  {
    if n > m {
      ZeroRange(roi, v, m, n - 1);
    }
  }

  lemma {:induction false} ClassBucketAppend(a: seq<Detection>, b: seq<Detection>, c: int)
    ensures ClassBucket(a + b, c) == ClassBucket(a, c) + ClassBucket(b, c)
  {
    if b == [] {
      assert a + b == a;
    } else {
      assert (a + b)[..|a + b| - 1] == a + b[..|b| - 1];
      ClassBucketAppend(a, b[..|b| - 1], c);
    }
  }

  /** One ROI holds at most one row of a class: its score for `c`, if non-zero. */
  lemma {:induction false} ClassBucketRoi(roi: Coords, v: ClassVector, n: nat, c: int)
    requires n <= |v|
    ensures ClassBucket(RoiDetections(roi, v, n), c) ==
      if 0 <= c < n && v[c] != 0.0 then [ScoredBox(roi, v[c])] else []
  {
    if n > 0 {
      var tail := if v[n - 1] != 0.0 then [Detection(roi, v[n - 1], n - 1)] else [];
      ClassBucketRoi(roi, v, n - 1, c);
      ClassBucketAppend(RoiDetections(roi, v, n - 1), tail, c);
      assert ClassBucket(tail, c) == (if v[n - 1] != 0.0 && c == n - 1 then [ScoredBox(roi, v[c])] else []) by {
        if tail != [] {
          assert tail[..0] == [];
        }
      }
    }
  }

  /** Some entry of `v`, background included, is non-zero. */
  predicate NonZeroEntry(v: ClassVector) {
    exists l :: 0 <= l < |v| && v[l] != 0.0
  }

  /** Some reduced entry of the first `n` ROIs, background included, is non-zero. */
  predicate HasNonZero(h: Helper, output: seq<ClassVector>, n: nat)
    requires n <= |output|
  {
    exists j :: 0 <= j < n && NonZeroEntry(ReducedPrediction(h, output[j]))
  }

  /** A ROI emits a row exactly when one of its scanned entries is non-zero. */
  lemma {:induction false} RoiDetectionsNonEmpty(roi: Coords, v: ClassVector, n: nat)
    requires n <= |v|
    ensures RoiDetections(roi, v, n) != [] <==> exists l :: 0 <= l < n && v[l] != 0.0
  {
    if n > 0 {
      RoiDetectionsNonEmpty(roi, v, n - 1);
    }
  }

  /**
   * The ROIs of an image are processed exactly when each has a region and a
   * reduced vector of length num_classes; they then emit at least one row
   * exactly when some reduced entry is non-zero.
   */
  lemma {:induction false} RoisDetectionsOutcome(h: Helper, output: seq<ClassVector>, rois: seq<Coords>, numClasses: nat, n: nat)
    requires n <= |output|
    ensures RoisDetections(h, output, rois, numClasses, n).Ok? <==>
      n <= |rois| && forall j :: 0 <= j < n ==> |ReducedPrediction(h, output[j])| == numClasses
  {
    if n > 0 {
      RoisDetectionsOutcome(h, output, rois, numClasses, n - 1);
    }
  }

  lemma {:induction false} RoisDetectionsNonEmpty(h: Helper, output: seq<ClassVector>, rois: seq<Coords>, numClasses: nat, n: nat)
    requires n <= |output|
    requires RoisDetections(h, output, rois, numClasses, n).Ok?
    ensures RoisDetections(h, output, rois, numClasses, n).value != [] <==> HasNonZero(h, output, n)
  {
    if n > 0 {
      var prev := RoisDetections(h, output, rois, numClasses, n - 1).value;
      RoisDetectionsNonEmpty(h, output, rois, numClasses, n - 1);
      var v := ReducedPrediction(h, output[n - 1]);
      RoiDetectionsNonEmpty(rois[n - 1], v, numClasses);
      assert RoisDetections(h, output, rois, numClasses, n).value == prev + RoiDetections(rois[n - 1], v, numClasses);
      assert HasNonZero(h, output, n) <==> HasNonZero(h, output, n - 1) || NonZeroEntry(v);
    }
  }

  /** An image can be assembled: a region per ROI, num_classes entries per reduced vector, some entry non-zero. */
  predicate Assemblable(h: Helper, output: seq<ClassVector>, rois: seq<Coords>, numClasses: nat) {
    && |output| <= |rois|
    && (forall j :: 0 <= j < |output| ==> |ReducedPrediction(h, output[j])| == numClasses)
    && HasNonZero(h, output, |output|)
  }

  /**
   * An image is assembled exactly when every ROI has a region, every reduced
   * vector has num_classes entries and some entry, background included, is
   * non-zero; the concatenate fails exactly when the first two hold and every
   * entry is zero.
   */
  lemma ImageDetectionsOutcome(h: Helper, output: seq<ClassVector>, rois: seq<Coords>, numClasses: nat)
    ensures ImageDetections(h, output, rois, numClasses).Ok? <==> Assemblable(h, output, rois, numClasses)
    ensures ImageDetections(h, output, rois, numClasses) == Err(EmptyConcatenate) <==>
      && |output| <= |rois|
      && (forall j :: 0 <= j < |output| ==> |ReducedPrediction(h, output[j])| == numClasses)
      && !HasNonZero(h, output, |output|)
  {
    RoisDetectionsOutcome(h, output, rois, numClasses, |output|);
    if RoisDetections(h, output, rois, numClasses, |output|).Ok? {
      RoisDetectionsNonEmpty(h, output, rois, numClasses, |output|);
    }
    RoisDetectionsNotEmptyError(h, output, rois, numClasses, |output|);
  }

  lemma {:induction false} RoisDetectionsNotEmptyError(h: Helper, output: seq<ClassVector>, rois: seq<Coords>, numClasses: nat, n: nat)
    requires n <= |output|
    ensures RoisDetections(h, output, rois, numClasses, n) != Err(EmptyConcatenate)
  {
    if n > 0 {
      RoisDetectionsNotEmptyError(h, output, rois, numClasses, n - 1);
    }
  }

  /**
   * Prediction buckets: for the processed ROIs of an image and any class `c`,
   * the bucket holds one row per ROI whose reduced entry at `c` is non-zero,
   * in ROI order, with that ROI's coordinates and that entry as score.
   */
  lemma {:induction false} ImageBucket(h: Helper, output: seq<ClassVector>, rois: seq<Coords>, numClasses: nat, c: int, n: nat)
    requires n <= |output|
    requires RoisDetections(h, output, rois, numClasses, n).Ok?
    ensures n <= |rois|
    ensures ClassBucket(RoisDetections(h, output, rois, numClasses, n).value, c) == ClassScores(h, output, rois, c, n)
  {
    if n > 0 {
      ImageBucket(h, output, rois, numClasses, c, n - 1);
      var v := ReducedPrediction(h, output[n - 1]);
      var prev := RoisDetections(h, output, rois, numClasses, n - 1).value;
      var last := RoiDetections(rois[n - 1], v, numClasses);
      assert RoisDetections(h, output, rois, numClasses, n).value == prev + last;
      ClassBucketAppend(prev, last, c);
      ClassBucketRoi(rois[n - 1], v, numClasses, c);
      assert ClassScores(h, output, rois, c, n) == ClassScores(h, output, rois, c, n - 1) + ClassBucket(last, c);
    }
  }

  /**
   * All images are assembled exactly when there is a ROI list for each and
   * each image is assembled; the result keeps one entry per image.
   */
  lemma {:induction false} AllDetectionsOutcome(h: Helper, outputs: seq<seq<ClassVector>>, roiss: seq<seq<Coords>>, numClasses: nat, n: nat)
    requires n <= |outputs|
    ensures AllDetections(h, outputs, roiss, numClasses, n).Ok? <==>
      n <= |roiss| && forall i :: 0 <= i < n ==> ImageDetections(h, outputs[i], roiss[i], numClasses).Ok?
    ensures AllDetections(h, outputs, roiss, numClasses, n).Ok? ==>
      var dss := AllDetections(h, outputs, roiss, numClasses, n).value;
      |dss| == n && forall i :: 0 <= i < n ==> dss[i] == ImageDetections(h, outputs[i], roiss[i], numClasses).value
  {
    if n > 0 {
      AllDetectionsOutcome(h, outputs, roiss, numClasses, n - 1);
    }
  }

  /** Image `i` is where assembly stops with error `e`: every earlier image is assembled, and `i` fails with `e`. */
  predicate FirstFailure(h: Helper, outputs: seq<seq<ClassVector>>, roiss: seq<seq<Coords>>, numClasses: nat, i: nat, e: Error)
    requires i < |outputs|
  {
    && (forall k :: 0 <= k < i ==> k < |roiss| && ImageDetections(h, outputs[k], roiss[k], numClasses).Ok?)
    && if i >= |roiss| then e == IndexOutOfRange
       else ImageDetections(h, outputs[i], roiss[i], numClasses) == Err(e)
  }

  /** A failure of the prediction assembly is that of the first image that fails. */
  lemma {:induction false} AllDetectionsFirstError(h: Helper, outputs: seq<seq<ClassVector>>, roiss: seq<seq<Coords>>, numClasses: nat, n: nat)
    requires n <= |outputs|
    requires AllDetections(h, outputs, roiss, numClasses, n).Err?
    ensures exists i :: 0 <= i < n && FirstFailure(h, outputs, roiss, numClasses, i, AllDetections(h, outputs, roiss, numClasses, n).error)
  {
    var e := AllDetections(h, outputs, roiss, numClasses, n).error;
    if AllDetections(h, outputs, roiss, numClasses, n - 1).Err? {
      AllDetectionsFirstError(h, outputs, roiss, numClasses, n - 1);
      var i :| 0 <= i < n - 1 && FirstFailure(h, outputs, roiss, numClasses, i, AllDetections(h, outputs, roiss, numClasses, n - 1).error);
      assert FirstFailure(h, outputs, roiss, numClasses, i, e);
    } else {
      AllDetectionsOutcome(h, outputs, roiss, numClasses, n - 1);
      assert FirstFailure(h, outputs, roiss, numClasses, n - 1, e);
    }
  }

  /**
   * Prediction result shape: num_classes rows of one entry per image; the
   * background row stays empty; every other entry is the image's bucket for
   * that class.
   */
  lemma PredictionsShape(h: Helper, outputs: seq<seq<ClassVector>>, roiss: seq<seq<Coords>>, numClasses: nat, c: nat, i: nat)
    requires AssembledPredictions(h, outputs, roiss, numClasses).Ok?
    requires c < numClasses && i < |outputs|
    ensures var g := AssembledPredictions(h, outputs, roiss, numClasses).value;
      && |g| == numClasses && |g[c]| == |outputs|
      && g[0][i] == []
      && i < |roiss| && |outputs[i]| <= |roiss[i]|
      && (c >= 1 ==> g[c][i] == ClassScores(h, outputs[i], roiss[i], c, |outputs[i]|))
  {
    AllDetectionsOutcome(h, outputs, roiss, numClasses, |outputs|);
    var output, rois := outputs[i], roiss[i];
    assert ImageDetections(h, output, rois, numClasses).Ok?;
    ImageBucket(h, output, rois, numClasses, c, |output|);
  }

  /**
   * prepare_predictions succeeds exactly when there is a ROI list per image
   * and every image can be assembled.
   */
  lemma PredictionsOutcome(h: Helper, outputs: seq<seq<ClassVector>>, roiss: seq<seq<Coords>>, numClasses: nat)
    ensures AssembledPredictions(h, outputs, roiss, numClasses).Ok? <==>
      |outputs| <= |roiss| && forall i :: 0 <= i < |outputs| ==> Assemblable(h, outputs[i], roiss[i], numClasses)
  {
    AllDetectionsOutcome(h, outputs, roiss, numClasses, |outputs|);
    forall i | 0 <= i < |outputs| && i < |roiss| {
      ImageDetectionsOutcome(h, outputs[i], roiss[i], numClasses);
    }
  }
}
