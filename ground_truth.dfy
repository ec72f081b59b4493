/**
 * Ground-truth expansion (prepare_ground_truth_boxes): every ground-truth box
 * is copied once for each non-background class the hierarchy marks active
 * for its label (the original class and its ancestors), and the copies are
 * bucketed per class and per image for the average-precision routine.
 */
module GroundTruth {
  import opened Outcomes
  import opened Hierarchy

  /** One row of an image's ground-truth array: coordinates and the original label. */
  datatype GtBox = GtBox(coords: Coords, rawLabel: int)

  /** A derived row: the box's coordinates and one mapped class index. */
  datatype LabeledBox = LabeledBox(coords: Coords, cls: nat)

  /** The record appended per class and per image: rows with their flags. */
  datatype GtInfo = GtInfo(bbox: seq<LabeledBox>, difficult: seq<bool>, det: seq<bool>)

  type Table = map<ClassName, seq<GtInfo>>

  // ---------------------------------------------------------------------------
  // Specification

  /** The reduced vector of a raw label: its training vector, mapped to the output classes. */
  function ReducedVector(h: Helper, rawLabel: int): ClassVector {
    h.predictionVector(h.vectorsForLabel(rawLabel).0)
  }

  /** Class index `i` is a non-background class that `v` marks active. */
  predicate Active(v: ClassVector, i: int) {
    1 <= i < |v| && v[i] != 0.0
  }

  /** Some active index has no class name, so `classes[vector_i]` raises. */
  predicate HasUnnamedActive(v: ClassVector, classes: seq<ClassName>) {
    exists i :: 1 <= i < |v| && Active(v, i) && i >= |classes|
  }

  /** Some active index is named `name`. */
  predicate NamesClass(v: ClassVector, classes: seq<ClassName>, name: ClassName) {
    exists i :: 1 <= i < |v| && Active(v, i) && i < |classes| && classes[i] == name
  }

  /** The rows emitted for the active indices 1 .. n-1 of `v`, in index order. */
  function ExpandedRows(coords: Coords, v: ClassVector, n: nat): seq<LabeledBox>
    requires n <= |v|
  {
    if n <= 1 then []
    else ExpandedRows(coords, v, n - 1) + (if v[n - 1] != 0.0 then [LabeledBox(coords, n - 1)] else [])
  }

  /** The expansion of one box, or the error that aborts it. */
  function BoxRows(h: Helper, b: GtBox): Result<seq<LabeledBox>> {
    var v := ReducedVector(h, b.rawLabel);
    if HasUnnamedActive(v, h.classes) then Err(IndexOutOfRange)
    else if !NamesClass(v, h.classes, h.originalClassName(b.rawLabel)) then Err(OriginalClassMissing)
    else Ok(ExpandedRows(b.coords, v, |v|))
  }

  /** The rows of the first `n` boxes of an image, concatenated; the first error wins. */
  function BoxesRows(h: Helper, boxes: seq<GtBox>, n: nat): Result<seq<LabeledBox>>
    requires n <= |boxes|
  {
    if n == 0 then Ok([])
    else match BoxesRows(h, boxes, n - 1)
      case Err(e) => Err(e)
      case Ok(rows) =>
        match BoxRows(h, boxes[n - 1])
        case Err(e) => Err(e)
        case Ok(more) => Ok(rows + more)
  }

  /** The derived rows of one image; an image that yields none cannot be concatenated. */
  function ImageRows(h: Helper, boxes: seq<GtBox>): Result<seq<LabeledBox>> {
    match BoxesRows(h, boxes, |boxes|)
    case Err(e) => Err(e)
    case Ok(rows) => if rows == [] then Err(EmptyConcatenate) else Ok(rows)
  }

  /** The derived rows of the first `n` images; the first error wins. */
  function AllImageRows(h: Helper, gtbs: seq<seq<GtBox>>, n: nat): Result<seq<seq<LabeledBox>>>
    requires n <= |gtbs|
  {
    if n == 0 then Ok([])
    else match AllImageRows(h, gtbs, n - 1)
      case Err(e) => Err(e)
      case Ok(rss) =>
        match ImageRows(h, gtbs[n - 1])
        case Err(e) => Err(e)
        case Ok(rows) => Ok(rss + [rows])
  }

  /** The rows labelled `c`, in their original order. */
  function LabelFilter(rows: seq<LabeledBox>, c: int): seq<LabeledBox> {
    if rows == [] then []
    else LabelFilter(rows[..|rows| - 1], c) + (if rows[|rows| - 1].cls == c then [rows[|rows| - 1]] else [])
  }

  function Falses(n: nat): (r: seq<bool>)
    ensures |r| == n && forall k :: 0 <= k < n ==> !r[k]
  {
    seq(n, _ => false)
  }

  /** The record for class `c` of an image: its rows of that class, none difficult, none detected. */
  function InfoFor(rows: seq<LabeledBox>, c: int): (r: GtInfo)
    ensures r.bbox == LabelFilter(rows, c)
    ensures |r.difficult| == |r.bbox| && |r.det| == |r.bbox|
    ensures forall k :: 0 <= k < |r.bbox| ==> !r.difficult[k] && !r.det[k]
  {
    var bbox := LabelFilter(rows, c);
    GtInfo(bbox, Falses(|bbox|), Falses(|bbox|))
  }

  /** One empty list per class name. */
  function EmptyTable(classes: seq<ClassName>): (m: Table)
    ensures m.Keys == set k | k in classes
    ensures forall k :: k in m ==> m[k] == []
  {
    map k | k in classes :: []
  }

  /** Appends an image's record to the lists of the classes at indices 1 .. c-1. */
  function AppendImage(m: Table, classes: seq<ClassName>, rows: seq<LabeledBox>, c: nat): (r: Table)
    requires c <= |classes|
    requires forall k :: k in classes ==> k in m
    ensures r.Keys == m.Keys
  {
    if c <= 1 then m
    else
      var m' := AppendImage(m, classes, rows, c - 1);
      m'[classes[c - 1] := m'[classes[c - 1]] + [InfoFor(rows, c - 1)]]
  }

  /** The per-class table built from the derived rows of every image, in image order. */
  function BuildTable(classes: seq<ClassName>, rss: seq<seq<LabeledBox>>): (m: Table)
    ensures m.Keys == set k | k in classes
  {
    if rss == [] then EmptyTable(classes)
    else AppendImage(BuildTable(classes, rss[..|rss| - 1]), classes, rss[|rss| - 1], |classes|)
  }

  /** The whole of prepare_ground_truth_boxes. */
  function PrepareGroundTruth(h: Helper, gtbs: seq<seq<GtBox>>): Result<Table> {
    match AllImageRows(h, gtbs, |gtbs|)
    case Err(e) => Err(e)
    case Ok(rss) => Ok(BuildTable(h.classes, rss))
  }

  /** Reference for one bucket: one row per box of the image whose hierarchy activates `c`. */
  function ClassRows(h: Helper, boxes: seq<GtBox>, c: int, n: nat): seq<LabeledBox>
    requires n <= |boxes|
  {
    if n == 0 then []
    else ClassRows(h, boxes, c, n - 1)
         + (if Active(ReducedVector(h, boxes[n - 1].rawLabel), c) then [LabeledBox(boxes[n - 1].coords, c)] else [])
  }

  // ---------------------------------------------------------------------------
  // Implementation

  /** The per-box part of the expansion: the loop over the reduced vector and the assertion. */
  method ExpandBox(h: Helper, b: GtBox) returns (r: Result<seq<LabeledBox>>)
    ensures r == BoxRows(h, b)
  {
    var v := h.predictionVector(h.vectorsForLabel(b.rawLabel).0);
    var originalName := h.originalClassName(b.rawLabel);
    var found := false;  // the script sets original_cls_name to None instead
    var rows: seq<LabeledBox> := [];
    var i := 1;
    while i < |v|
      invariant 1 <= i && (i <= |v| || i == 1)
      invariant rows == ExpandedRows(b.coords, v, if i <= |v| then i else |v|)
      invariant forall j :: Active(v, j) && j < i ==> j < |h.classes|
      invariant found <==> exists j :: Active(v, j) && j < i && j < |h.classes| && h.classes[j] == originalName
    {
      if v[i] != 0.0 {
        if i >= |h.classes| {
          assert Active(v, i);
          return Err(IndexOutOfRange);
        }
        if h.classes[i] == originalName {
          found := true;
        }
        rows := rows + [LabeledBox(b.coords, i)];
      }
      i := i + 1;
    }
    if !found {
      return Err(OriginalClassMissing);
    }
    return Ok(rows);
  }

  /** The per-image part: expand every box, then concatenate the rows. */
  method ExpandImage(h: Helper, boxes: seq<GtBox>) returns (r: Result<seq<LabeledBox>>)
    ensures r == ImageRows(h, boxes)
  {
    var rows: seq<LabeledBox> := [];
    var j := 0;
    while j < |boxes|
      invariant 0 <= j <= |boxes|
      invariant BoxesRows(h, boxes, j) == Ok(rows)
    {
      var more := ExpandBox(h, boxes[j]);
      if more.Err? {
        BoxesRowsErrorSticks(h, boxes, j + 1, |boxes|);
        return Err(more.error);
      }
      rows := rows + more.value;
      j := j + 1;
    }
    if rows == [] {
      return Err(EmptyConcatenate);
    }
    return Ok(rows);
  }

  /** The per-class part for one image: append its record to the list of every class but the background. */
  method AppendRecords(m: Table, classes: seq<ClassName>, rows: seq<LabeledBox>) returns (r: Table)
    requires forall k :: k in classes ==> k in m
    ensures r == AppendImage(m, classes, rows, |classes|)
  {
    r := m;
    var c := 0;
    while c < |classes|
      invariant 0 <= c <= |classes|
      invariant r == AppendImage(m, classes, rows, c)
    {
      if c != 0 {
        var bbox := LabelFilter(rows, c);
        r := r[classes[c] := r[classes[c]] + [GtInfo(bbox, Falses(|bbox|), Falses(|bbox|))]];
      }
      c := c + 1;
    }
  }

  /** prepare_ground_truth_boxes: expand every image and append its records class by class. */
  method PrepareGroundTruthBoxes(h: Helper, gtbs: seq<seq<GtBox>>) returns (r: Result<Table>)
    ensures r == PrepareGroundTruth(h, gtbs)
  {
    var classes := h.classes;
    var allGtInfos: Table := map k | k in classes :: [];
    assert allGtInfos == BuildTable(classes, []);
    ghost var done: seq<seq<LabeledBox>> := [];
    var i := 0;
    while i < |gtbs|
      invariant 0 <= i <= |gtbs|
      invariant AllImageRows(h, gtbs, i) == Ok(done)
      invariant allGtInfos == BuildTable(classes, done)
    {
      var image := ExpandImage(h, gtbs[i]);
      if image.Err? {
        AllImageRowsErrorSticks(h, gtbs, i + 1, |gtbs|);
        return Err(image.error);
      }
      allGtInfos := AppendRecords(allGtInfos, classes, image.value);
      NextImage(h, gtbs, i, done, image.value);
      done := done + [image.value];
      i := i + 1;
    }
    return Ok(allGtInfos);
  }

  // ---------------------------------------------------------------------------
  // Lemmas

  /** One more image of the outer loop of prepare_ground_truth_boxes. */
  lemma NextImage(h: Helper, gtbs: seq<seq<GtBox>>, i: nat, done: seq<seq<LabeledBox>>, rows: seq<LabeledBox>)
    requires i < |gtbs|
    requires AllImageRows(h, gtbs, i) == Ok(done)
    requires ImageRows(h, gtbs[i]) == Ok(rows)
    ensures AllImageRows(h, gtbs, i + 1) == Ok(done + [rows])
    ensures BuildTable(h.classes, done + [rows]) == AppendImage(BuildTable(h.classes, done), h.classes, rows, |h.classes|)
  {
    assert (done + [rows])[..|done|] == done;
  }

  lemma {:induction false} BoxesRowsErrorSticks(h: Helper, boxes: seq<GtBox>, j: nat, n: nat)
    requires j <= n <= |boxes|
    requires BoxesRows(h, boxes, j).Err?
    ensures BoxesRows(h, boxes, n) == BoxesRows(h, boxes, j)
  {
    if n > j {
      BoxesRowsErrorSticks(h, boxes, j, n - 1);
    }
  }

  lemma {:induction false} AllImageRowsErrorSticks(h: Helper, gtbs: seq<seq<GtBox>>, j: nat, n: nat)
    requires j <= n <= |gtbs|
    requires AllImageRows(h, gtbs, j).Err?
    ensures AllImageRows(h, gtbs, n) == AllImageRows(h, gtbs, j)
  {
    if n > j {
      AllImageRowsErrorSticks(h, gtbs, j, n - 1);
    }
  }

  /**
   * The expansion of a vector emits exactly one row per active index below `n`,
   * with the box's coordinates, in increasing index order; index 0 never appears.
   */
  lemma {:induction false} ExpandedRowsExact(coords: Coords, v: ClassVector, n: nat)
    requires n <= |v|
    ensures var rows := ExpandedRows(coords, v, n);
      && (forall k :: 0 <= k < |rows| ==>
            rows[k].coords == coords && Active(v, rows[k].cls) && rows[k].cls < n)
      && (forall i :: Active(v, i) && i < n ==> LabeledBox(coords, i) in rows)
      && (forall k1, k2 :: 0 <= k1 < k2 < |rows| ==> rows[k1].cls < rows[k2].cls)
  {
    if n > 1 {
      ExpandedRowsExact(coords, v, n - 1);
    }
  }

  /**
   * A box expands exactly when every emitted row names a known class and one of
   * them names the box's original class; otherwise the lookup of the class name
   * or the assertion aborts, in that order.
   */
  lemma BoxExpansionOutcome(h: Helper, b: GtBox)
    ensures var v := ReducedVector(h, b.rawLabel);
      var rows := ExpandedRows(b.coords, v, |v|);
      && (BoxRows(h, b) == Err(IndexOutOfRange) <==>
            exists k :: 0 <= k < |rows| && rows[k].cls >= |h.classes|)
      && (BoxRows(h, b) == Err(OriginalClassMissing) <==>
            (forall k :: 0 <= k < |rows| ==> rows[k].cls < |h.classes|)
            && !(exists k :: 0 <= k < |rows| && rows[k].cls < |h.classes| && h.classes[rows[k].cls] == h.originalClassName(b.rawLabel)))
      && (BoxRows(h, b).Ok? ==> BoxRows(h, b).value == rows && rows != [])
  {
    var v := ReducedVector(h, b.rawLabel);
    var rows := ExpandedRows(b.coords, v, |v|);
    var name := h.originalClassName(b.rawLabel);
    ExpandedRowsExact(b.coords, v, |v|);
    if HasUnnamedActive(v, h.classes) {
      var i :| Active(v, i) && i >= |h.classes|;
      var k :| 0 <= k < |rows| && rows[k] == LabeledBox(b.coords, i);
    }
    if NamesClass(v, h.classes, name) {
      var i :| Active(v, i) && i < |h.classes| && h.classes[i] == name;
      var k :| 0 <= k < |rows| && rows[k] == LabeledBox(b.coords, i);
      assert h.classes[rows[k].cls] == name;
    }
  }

  /**
   * Scenario: a label whose hierarchy activates exactly the non-background
   * classes `a` (its own) and `f` (an ancestor) expands to exactly two rows,
   * labelled `a` and `f`, with the box's coordinates.
   */
  lemma TwoClassExpansion(h: Helper, b: GtBox, a: nat, f: nat)
    requires var v := ReducedVector(h, b.rawLabel);
      && 1 <= a < f < |v| && f < |h.classes|
      && (forall i :: Active(v, i) ==> i == a || i == f)
      && Active(v, a) && Active(v, f)
      && h.classes[a] == h.originalClassName(b.rawLabel)
    ensures BoxRows(h, b) == Ok([LabeledBox(b.coords, a), LabeledBox(b.coords, f)])
  {
    var v := ReducedVector(h, b.rawLabel);
    assert NamesClass(v, h.classes, h.originalClassName(b.rawLabel)) by {
      assert Active(v, a);
    }
    assert !HasUnnamedActive(v, h.classes);
    InactiveRange(b.coords, v, f + 1, |v|);
    InactiveRange(b.coords, v, a + 1, f);
    InactiveRange(b.coords, v, 1, a);
    assert ExpandedRows(b.coords, v, a + 1) == [LabeledBox(b.coords, a)];
    assert ExpandedRows(b.coords, v, f + 1) == [LabeledBox(b.coords, a), LabeledBox(b.coords, f)];
  }

  /** Inactive indices contribute nothing. */
  lemma {:induction false} InactiveRange(coords: Coords, v: ClassVector, m: nat, n: nat)
    requires 1 <= m <= n <= |v|
    requires forall i :: m <= i < n ==> !Active(v, i)
    ensures ExpandedRows(coords, v, n) == ExpandedRows(coords, v, m)
  {
    if n > m {
      assert !Active(v, n - 1);
      InactiveRange(coords, v, m, n - 1);
    }
  }

  /** The rows of a prefix of boxes are defined exactly when each of those boxes expands. */
  lemma {:induction false} BoxesRowsOutcome(h: Helper, boxes: seq<GtBox>, n: nat)
    requires n <= |boxes|
    ensures BoxesRows(h, boxes, n).Ok? <==> forall k :: 0 <= k < n ==> BoxRows(h, boxes[k]).Ok?
    ensures BoxesRows(h, boxes, n).Ok? && n > 0 ==> BoxesRows(h, boxes, n).value != []
    ensures BoxesRows(h, boxes, n).Err? ==> BoxesRows(h, boxes, n).error != EmptyConcatenate
  {
    if n > 0 {
      BoxesRowsOutcome(h, boxes, n - 1);
      BoxExpansionOutcome(h, boxes[n - 1]);
    }
  }

  /**
   * An image yields rows exactly when it has a box and every box expands; the
   * concatenate fails exactly on an image without boxes.
   */
  lemma ImageRowsOutcome(h: Helper, boxes: seq<GtBox>)
    ensures ImageRows(h, boxes).Ok? <==>
      boxes != [] && forall k :: 0 <= k < |boxes| ==> BoxRows(h, boxes[k]).Ok?
    ensures ImageRows(h, boxes) == Err(EmptyConcatenate) <==> boxes == []
  {
    BoxesRowsOutcome(h, boxes, |boxes|);
  }

  lemma {:induction false} LabelFilterAppend(a: seq<LabeledBox>, b: seq<LabeledBox>, c: int)
    ensures LabelFilter(a + b, c) == LabelFilter(a, c) + LabelFilter(b, c)
  {
    if b == [] {
      assert a + b == a;
    } else {
      assert (a + b)[..|a + b| - 1] == a + b[..|b| - 1];
      LabelFilterAppend(a, b[..|b| - 1], c);
    }
  }

  /** The rows labelled `c` are exactly those of `rows`, and no others. */
  lemma {:induction false} LabelFilterMembers(rows: seq<LabeledBox>, c: int)
    ensures forall x :: x in LabelFilter(rows, c) <==> x in rows && x.cls == c
    ensures |LabelFilter(rows, c)| <= |rows|
  {
    if rows != [] {
      LabelFilterMembers(rows[..|rows| - 1], c);
      assert rows == rows[..|rows| - 1] + [rows[|rows| - 1]];
    }
  }

  /** The expansion of one box holds at most one row of a class: its own row for `c`. */
  lemma {:induction false} LabelFilterExpanded(coords: Coords, v: ClassVector, n: nat, c: int)
    requires n <= |v|
    ensures LabelFilter(ExpandedRows(coords, v, n), c) ==
      if Active(v, c) && c < n then [LabeledBox(coords, c)] else []
  {
    if n > 1 {
      var tail := if v[n - 1] != 0.0 then [LabeledBox(coords, n - 1)] else [];
      LabelFilterExpanded(coords, v, n - 1, c);
      LabelFilterAppend(ExpandedRows(coords, v, n - 1), tail, c);
      assert LabelFilter(tail, c) == (if v[n - 1] != 0.0 && c == n - 1 then [LabeledBox(coords, c)] else []) by {
        if tail != [] {
          assert tail[..0] == [];
        }
      }
    }
  }

  /**
   * The bucket of class `c` of an image holds one row per box whose hierarchy
   * activates `c`, in box order, with that box's coordinates.
   */
  lemma {:induction false} ImageBucket(h: Helper, boxes: seq<GtBox>, c: int, n: nat)
    requires n <= |boxes|
    requires BoxesRows(h, boxes, n).Ok?
    ensures LabelFilter(BoxesRows(h, boxes, n).value, c) == ClassRows(h, boxes, c, n)
  {
    if n > 0 {
      var b := boxes[n - 1];
      var v := ReducedVector(h, b.rawLabel);
      ImageBucket(h, boxes, c, n - 1);
      LabelFilterAppend(BoxesRows(h, boxes, n - 1).value, BoxRows(h, b).value, c);
      LabelFilterExpanded(b.coords, v, |v|, c);
    }
  }

  /**
   * All images are expanded exactly when each image yields rows; the result
   * keeps one entry per image, in image order; a failure is that of the first
   * image that fails.
   */
  lemma {:induction false} AllImageRowsOutcome(h: Helper, gtbs: seq<seq<GtBox>>, n: nat)
    requires n <= |gtbs|
    ensures AllImageRows(h, gtbs, n).Ok? <==> forall k :: 0 <= k < n ==> ImageRows(h, gtbs[k]).Ok?
    ensures AllImageRows(h, gtbs, n).Ok? ==>
      var rss := AllImageRows(h, gtbs, n).value;
      |rss| == n && forall k :: 0 <= k < n ==> rss[k] == ImageRows(h, gtbs[k]).value
    ensures AllImageRows(h, gtbs, n).Err? ==>
      exists k :: 0 <= k < n && (forall j :: 0 <= j < k ==> ImageRows(h, gtbs[j]).Ok?)
                 && ImageRows(h, gtbs[k]) == Err(AllImageRows(h, gtbs, n).error)
  {
    if n > 0 {
      AllImageRowsOutcome(h, gtbs, n - 1);
    }
  }

  /** Appending an image changes exactly the lists of classes 1 .. c-1, by one record each. */
  lemma {:induction false} AppendImageAt(m: Table, classes: seq<ClassName>, rows: seq<LabeledBox>, c: nat, j: nat)
    requires c <= |classes| && j < |classes|
    requires forall k :: k in classes ==> k in m
    requires Distinct(classes)
    ensures classes[j] in m
    ensures AppendImage(m, classes, rows, c)[classes[j]] ==
      if 1 <= j < c then m[classes[j]] + [InfoFor(rows, j)] else m[classes[j]]
  {
    if c > 1 {
      AppendImageAt(m, classes, rows, c - 1, j);
    }
  }

  /**
   * With distinct class names the background list stays empty and every other
   * class has exactly one record per image, in image order.
   */
  lemma {:induction false} BuildTableAt(classes: seq<ClassName>, rss: seq<seq<LabeledBox>>, j: nat)
    requires Distinct(classes) && j < |classes|
    ensures var m := BuildTable(classes, rss);
      && classes[j] in m
      && (j == 0 ==> m[classes[j]] == [])
      && (j >= 1 ==> |m[classes[j]]| == |rss| && forall k :: 0 <= k < |rss| ==> m[classes[j]][k] == InfoFor(rss[k], j))
  {
    if rss != [] {
      var prefix := rss[..|rss| - 1];
      BuildTableAt(classes, prefix, j);
      AppendImageAt(BuildTable(classes, prefix), classes, rss[|rss| - 1], |classes|, j);
    }
  }

  /**
   * Ground-truth result shape: a key per class, the background list empty, and
   * for every other class one record per image whose rows are that image's
   * boxes activating the class, in box order, each flag false.
   */
  lemma GroundTruthShape(h: Helper, gtbs: seq<seq<GtBox>>, c: nat, k: nat)
    requires Distinct(h.classes)
    requires PrepareGroundTruth(h, gtbs).Ok?
    requires 1 <= c < |h.classes| && k < |gtbs|
    ensures var m := PrepareGroundTruth(h, gtbs).value;
      && m.Keys == set x | x in h.classes
      && m[h.classes[0]] == []
      && |m[h.classes[c]]| == |gtbs|
      && m[h.classes[c]][k].bbox == ClassRows(h, gtbs[k], c, |gtbs[k]|)
      && |m[h.classes[c]][k].difficult| == |m[h.classes[c]][k].bbox| == |m[h.classes[c]][k].det|
      && (forall q :: 0 <= q < |m[h.classes[c]][k].bbox| ==> !m[h.classes[c]][k].difficult[q] && !m[h.classes[c]][k].det[q])
  {
    var rss := AllImageRows(h, gtbs, |gtbs|).value;
    AllImageRowsOutcome(h, gtbs, |gtbs|);
    BuildTableAt(h.classes, rss, 0);
    BuildTableAt(h.classes, rss, c);
    var boxes := gtbs[k];
    BoxesRowsOutcome(h, boxes, |boxes|);
    ImageBucket(h, boxes, c, |boxes|);
  }

  /**
   * prepare_ground_truth_boxes succeeds exactly when every image has a box and
   * every box expands; otherwise it fails with the error of the first image
   * that fails.
   */
  lemma GroundTruthOutcome(h: Helper, gtbs: seq<seq<GtBox>>)
    ensures PrepareGroundTruth(h, gtbs).Ok? <==>
      forall k :: 0 <= k < |gtbs| ==>
        gtbs[k] != [] && forall q :: 0 <= q < |gtbs[k]| ==> BoxRows(h, gtbs[k][q]).Ok?
    ensures PrepareGroundTruth(h, gtbs).Err? ==>
      exists k :: 0 <= k < |gtbs| && (forall j :: 0 <= j < k ==> ImageRows(h, gtbs[j]).Ok?)
                 && ImageRows(h, gtbs[k]) == Err(PrepareGroundTruth(h, gtbs).error)
  {
    AllImageRowsOutcome(h, gtbs, |gtbs|);
    forall k | 0 <= k < |gtbs| {
      ImageRowsOutcome(h, gtbs[k]);
    }
  }
}
