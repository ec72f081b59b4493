# Hierarchical detection evaluation: preparation of ground truth and predictions

This project models the data-preparation core of the hierarchical evaluation
script of the Faster R-CNN example (`hierarchical_evaluation.py`). The script
evaluates an object detector whose classes form a hierarchy (for instance
"apple" below "fruit"). Before average precision can be computed:

* every ground-truth box is expanded into one labelled row per class its
  hierarchy activates (its own class and its hypernyms); the rows are then
  grouped into a per-class table of per-image records (`all_gt_infos`), each
  with all-false `difficult` and `det` flags;
* every ROI's raw score vector is made consistent with the hierarchy
  (top-down evaluation), reduced to the output classes, and turned into one
  row per non-zero entry; the rows are then bucketed into a grid
  `all_boxes[class][image]`, with the background class left empty;
* the list of test images is reordered by a fixed index list
  (`_scramble_list`);
* before a box is drawn, its integer pixel corners are reported if they
  leave the image and are then clamped to the image edges.

The hierarchy helper object (`HCH`) is a global in the script. Here it is a
parameter `h: Helper` of function-valued fields (`Hierarchy.Helper`):
label → training vector, training vector → reduced vector, top-down
evaluation, label → original class name, and the output class list. Its
internals are not part of this model, so every property below holds for
every helper.

Every failure of the script (a Python exception or a failed `assert`) is
modelled as an `Err` of `Outcomes.Result`:

* `IndexOutOfRange`: `classes[vector_i]`, `roiss[img_i]`, `rois[roi_i]` or
  `to_sc[i]` outside its list;
* `OriginalClassMissing`: the assertion that a box's original class is among
  its expanded classes;
* `LengthMismatch`: the assertion that a reduced prediction vector has
  `num_classes` entries;
* `EmptyConcatenate`: `np.concatenate` of an empty list.

The three looping functions of the script are imperative methods with loops
(`PrepareGroundTruthBoxes`, `PreparePredictions`, `ScrambleList`), each proved
equal to a recursive specification function. The clamp has no loop: the
method `ClampCorners` performs the four reassignments in turn and is proved
equal to the non-recursive function `Clamp`. The lemmas beside these functions state what the result means: its
outcome in terms of the inputs, and its contents compared with an independent
per-class reference definition (`ClassRows`, `ClassScores`).

Files:

* `outcomes.dfy`: the error kinds and `Result`;
* `hierarchy.dfy`: the hierarchy helper, coordinates and score vectors;
* `ground_truth.dfy`: `prepare_ground_truth_boxes`;
* `predictions.dfy`: `prepare_predictions`;
* `scramble.dfy`: `_scramble_list`;
* `drawing.dfy`: the corner clamp of `draw_bb_on_image`.

## Model

| member | source | states |
|---|---|---|
| GroundTruth.ExpandBox | Examples/Image/Detection/FasterRCNN/hierarchical_evaluation.py:52-68 | The loop over a box's reduced vector, with the class-name lookup and the original-class assertion. It returns exactly the box's expansion (`BoxRows`). |
| GroundTruth.ExpandImage | Examples/Image/Detection/FasterRCNN/hierarchical_evaluation.py:50-70 | The rows of all boxes of one image, concatenated in box order. The first failing box's error is returned. An image without rows fails the concatenate. |
| GroundTruth.AppendRecords | Examples/Image/Detection/FasterRCNN/hierarchical_evaluation.py:72-77 | The class loop appends one record per non-background class index to that class's list, and nothing else changes. |
| GroundTruth.PrepareGroundTruthBoxes | Examples/Image/Detection/FasterRCNN/hierarchical_evaluation.py:31-79 | The whole function equals `PrepareGroundTruth`: the table is built from every image's rows, in image order, and the first error aborts. |
| GroundTruth.InfoFor | Examples/Image/Detection/FasterRCNN/hierarchical_evaluation.py:74-77 | A record holds the image's rows of one class. Its `difficult` and `det` lists have the same length, and every flag is false. |
| GroundTruth.EmptyTable | Examples/Image/Detection/FasterRCNN/hierarchical_evaluation.py:44 | The initial table has exactly the class names as keys, and every list starts empty. |
| GroundTruth.AppendImage | Examples/Image/Detection/FasterRCNN/hierarchical_evaluation.py:72-77 | Appending an image's records keeps the set of keys. |
| GroundTruth.BuildTable | Examples/Image/Detection/FasterRCNN/hierarchical_evaluation.py:44-77 | The finished table has exactly the class names as keys. |
| GroundTruth.ExpandedRowsExact | Examples/Image/Detection/FasterRCNN/hierarchical_evaluation.py:57-66 | The expansion has exactly one row per active index ≥ 1, with the box's coordinates, in increasing index order. Index 0 never appears. |
| GroundTruth.BoxExpansionOutcome | Examples/Image/Detection/FasterRCNN/hierarchical_evaluation.py:56-68 | A box fails with an index error if and only if some emitted row has no class name. It fails the assertion if and only if every row is named and none names the original class. Otherwise it yields its non-empty rows. |
| GroundTruth.TwoClassExpansion | Examples/Image/Detection/FasterRCNN/hierarchical_evaluation.py:52-68 | Scenario: a label activating its own class and one ancestor yields exactly those two rows, in index order. |
| GroundTruth.BoxesRowsOutcome | Examples/Image/Detection/FasterRCNN/hierarchical_evaluation.py:51-68 | The rows of a prefix of boxes exist if and only if every box in it expands. With at least one box they are non-empty. The concatenate error cannot arise inside the box loop. |
| GroundTruth.ImageRowsOutcome | Examples/Image/Detection/FasterRCNN/hierarchical_evaluation.py:50-70 | An image yields rows if and only if it has a box and every box expands. The concatenate fails if and only if the image has no boxes. |
| GroundTruth.ImageBucket | Examples/Image/Detection/FasterRCNN/hierarchical_evaluation.py:74 | An image's bucket for class `c` equals the reference `ClassRows`: one row per box whose hierarchy activates `c`, in box order. |
| GroundTruth.AllImageRowsOutcome | Examples/Image/Detection/FasterRCNN/hierarchical_evaluation.py:45-70 | All images are expanded if and only if each image is. The result has one entry per image. A failure carries the error of the first failing image. |
| GroundTruth.AppendImageAt | Examples/Image/Detection/FasterRCNN/hierarchical_evaluation.py:72-77 | With distinct class names, appending an image extends exactly the lists of classes 1 … c-1, by one record each. |
| GroundTruth.BuildTableAt | Examples/Image/Detection/FasterRCNN/hierarchical_evaluation.py:44-77 | With distinct class names, the background list stays empty, and every other class has one record per image, in image order. |
| GroundTruth.GroundTruthShape | Examples/Image/Detection/FasterRCNN/hierarchical_evaluation.py:42-79 | With distinct class names, result shape: a key per class and an empty background list. Every other class has one record per image, holding exactly the boxes that activate the class, with all-false flags of equal length. |
| GroundTruth.GroundTruthOutcome | Examples/Image/Detection/FasterRCNN/hierarchical_evaluation.py:45-79 | It succeeds if and only if every image has a box and every box expands. Otherwise it fails with the first failing image's error. |
| PredictionAssembly.CollectDetections | Examples/Image/Detection/FasterRCNN/hierarchical_evaluation.py:101-116 | The per-image ROI and label loops, with the length assertion and the concatenate. It returns exactly `ImageDetections`. |
| PredictionAssembly.FillColumn | Examples/Image/Detection/FasterRCNN/hierarchical_evaluation.py:118-120 | Column `img_i` of every class from 1 upwards becomes that class's bucket. The background row and every other column are unchanged. |
| PredictionAssembly.PreparePredictions | Examples/Image/Detection/FasterRCNN/hierarchical_evaluation.py:82-122 | The pre-allocated grid filled image by image equals `AssembledPredictions`. The first error aborts. |
| PredictionAssembly.RoiDetectionsExact | Examples/Image/Detection/FasterRCNN/hierarchical_evaluation.py:110-114 | A ROI emits exactly one row per non-zero entry (background included), carrying that entry as score and its index as label, in index order. |
| PredictionAssembly.RoiDetectionsNonEmpty | Examples/Image/Detection/FasterRCNN/hierarchical_evaluation.py:110-114 | A ROI emits a row if and only if one of its entries is non-zero. |
| PredictionAssembly.BackgroundOnlyRoi | Examples/Image/Detection/FasterRCNN/hierarchical_evaluation.py:110-120 | Scenario: a ROI with only background mass emits the background row alone and adds nothing to any class bucket. |
| PredictionAssembly.ClassBucketRoi | Examples/Image/Detection/FasterRCNN/hierarchical_evaluation.py:119-120 | One ROI contributes at most one row to the bucket of a class: its score for that class, if non-zero. |
| PredictionAssembly.RoisDetectionsOutcome | Examples/Image/Detection/FasterRCNN/hierarchical_evaluation.py:102-109 | The ROIs of an image are processed if and only if each has a region and a reduced vector of `num_classes` entries. |
| PredictionAssembly.RoisDetectionsNonEmpty | Examples/Image/Detection/FasterRCNN/hierarchical_evaluation.py:102-116 | Processed ROIs emit at least one row if and only if some reduced entry is non-zero. |
| PredictionAssembly.ImageDetectionsOutcome | Examples/Image/Detection/FasterRCNN/hierarchical_evaluation.py:102-116 | An image is assembled if and only if it is `Assemblable`. The concatenate fails if and only if the shape is right and every entry is zero. |
| PredictionAssembly.ImageBucket | Examples/Image/Detection/FasterRCNN/hierarchical_evaluation.py:119-120 | An image's bucket for class `c` equals the reference `ClassScores`: one row `roi ++ [score]` per ROI whose reduced entry at `c` is non-zero, in ROI order. |
| PredictionAssembly.AllDetectionsOutcome | Examples/Image/Detection/FasterRCNN/hierarchical_evaluation.py:94-116 | All images are assembled if and only if each has a ROI list and is assembled. The result has one entry per image, in image order. |
| PredictionAssembly.AllDetectionsFirstError | Examples/Image/Detection/FasterRCNN/hierarchical_evaluation.py:94-116 | A failure carries the error of the first image that fails: a missing ROI list, or that image's own error. |
| PredictionAssembly.PredictionsShape | Examples/Image/Detection/FasterRCNN/hierarchical_evaluation.py:92-120 | Result shape: `num_classes` rows of one entry per image. The background entries stay `[]`. Every other entry is the reference bucket of its class and image. |
| PredictionAssembly.PredictionsOutcome | Examples/Image/Detection/FasterRCNN/hierarchical_evaluation.py:94-116 | It succeeds if and only if there is a ROI list per image and every image is `Assemblable`. |
| Scramble.Gather | Examples/Image/Detection/FasterRCNN/hierarchical_evaluation.py:225-229 | The result has one element per index, `out[k] = to_sc[perm[k]]`, with Python's reading of negative indices. |
| Scramble.ScrambleList | Examples/Image/Detection/FasterRCNN/hierarchical_evaluation.py:225-229 | The loop succeeds if and only if every index is valid for the list, and then returns `Gather`. Otherwise it raises an index error. |
| Scramble.GatherPermutation | Examples/Image/Detection/FasterRCNN/hierarchical_evaluation.py:225-229 | Gathering by a permutation of the indices keeps every element with its multiplicity. |
| Scramble.ImageListOrder | Examples/Image/Detection/FasterRCNN/hierarchical_evaluation.py:232 | The fixed order [1, 3, 2, 4, 0] applied to five images yields exactly those images in that order. |
| Scramble.ImageListReordered | Examples/Image/Detection/FasterRCNN/hierarchical_evaluation.py:232 | The same fixed order keeps every image with its multiplicity. |
| Drawing.Clamp | Examples/Image/Detection/FasterRCNN/hierarchical_evaluation.py:325-331 | It guarantees `xmin ≥ 0`, `ymin ≥ 0`, `xmax ≤ width-1` and `ymax ≤ height-1`. Corners only move inwards, and a corner is kept if and only if it passes its own test. The clamped box never triggers the diagnostic. The box is unchanged if and only if the input does not trigger it. |
| Drawing.ClampCorners | Examples/Image/Detection/FasterRCNN/hierarchical_evaluation.py:325-331 | The report flag and the four reassignments, in source order, compute the out-of-bounds test and `Clamp`. |
| Drawing.ClampIdempotent | Examples/Image/Detection/FasterRCNN/hierarchical_evaluation.py:328-331 | Clamping a clamped box changes nothing. |
| Drawing.BoxBeyondImage | Examples/Image/Detection/FasterRCNN/hierarchical_evaluation.py:328-331 | Scenario: a box wholly right of and below the image keeps its top-left corner outside the image. So `xmin`/`ymin` are not bounded above and the drawn corners are inverted. |

## Left out

- The inference loop `eval_fast_rcnn_mAP`, `evaluate_detections` and the mean of the per-class average precisions: they run the network and the average-precision code of other files, which is not part of this model.
- The floating-point coordinate transforms applied before evaluation and drawing (ROI scaling, padding removal, `points_to_xywh`, the box-to-corner arithmetic before the clamp). They are float arithmetic; the clamp takes the already truncated integer corners as input.
- Drawing, plotting and image I/O: `draw_bb_on_image` apart from its clamp (colours, `cv2.rectangle`, `cv2.putText`), `plot_image`, `load_image`, `save_image`, `to_cv2_img`, `visualize_gt`, `visualize_rois`, including their debugger hooks. These are display side effects.
- The image size in `draw_bb_on_image` (width from `len(image[1])`, height from `len(image)`): it is a parameter of `Drawing.ClampCorners`, not read from an image.
- Construction of the hierarchy helper from a dataset's tree (line 26), its printing, and the `__main__` block: these are set-up code outside the core. The helper's own behaviour (for instance a lookup of an unknown label) stays uninterpreted.
- The "Box out of bounds" message: it is printed output, modelled only as the returned `outOfBounds` flag.
- GroundTruth.ExpandBox: the label is taken as an integer. The `int()` truncation of the float label column is not modelled.
- GroundTruth.GroundTruthShape: the shape lemmas (`GroundTruthShape`, `BuildTableAt`, `AppendImageAt`) assume `Distinct(h.classes)`. With a repeated class name the script appends one record per occurrence per image to the shared list (lines 44, 72-77), and a repeated background name fills the background list. `BuildTable` models that behaviour, but no shape is stated for it.
- GroundTruth.BoxRows: `getClass` is taken to return a class name. A `None` result, which the script's assertion at line 68 would accept without any match, is not modelled.
- PredictionAssembly.PreparePredictions: the `astype(np.float32)` rounding of bucket rows is not modelled. Coordinates and scores are exact reals, and a zero test is exact equality.
- PredictionAssembly.PreparePredictions: `num_classes` is a natural number. A negative count, which Python would accept (every length assertion would then fail), is not modelled.
- Idempotence of the two preparation functions: the model is a pure function of its inputs, so running either twice gives the same result without a separate statement. `prepare_ground_truth_boxes` copies each image's array before use (line 46); `prepare_predictions` copies neither `outputs` nor `roiss` and hands each score row to the hierarchy helper, so for it this assumes that the helper does not change its argument in place.
- The "Box out of bounds" diagnostic is printed before clamping, and the clamped box is always drawn (lines 325-334); `Drawing.Clamp` shows that the test can never fire after clamping.
