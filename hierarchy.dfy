/**
 * The label hierarchy as the evaluation script sees it. The hierarchy helper
 * is an external collaborator: its operations are carried as function values,
 * so every property proved here holds for every hierarchy.
 */
module Hierarchy {

  type ClassName = string

  /** A score; the only test the evaluation applies to one is `== 0`. */
  type Score = real

  /** One score per mapped class; index 0 is the background class. */
  type ClassVector = seq<Score>

  /** Four box coordinates. They are carried along and never inspected. */
  datatype Coords = Coords(xmin: real, ymin: real, xmax: real, ymax: real)

  /** The operations of the hierarchy helper that the evaluation calls. */
  datatype Helper = Helper(
    // get_vectors_for_label_nr: the training vector and an auxiliary vector of a raw label
    vectorsForLabel: int -> (ClassVector, ClassVector),
    // output_mapper.get_prediciton_vector: reduce a vector to the mapped class space
    predictionVector: ClassVector -> ClassVector,
    // top_down_eval: make a raw prediction vector consistent with the hierarchy
    topDownEval: ClassVector -> ClassVector,
    // cls_maps[0].getClass: the class name of a raw label
    originalClassName: int -> ClassName,
    // output_mapper.get_all_classes(): the mapped class names, background first
    classes: seq<ClassName>)

  /** No class name occurs twice in the class list. */
  predicate Distinct(classes: seq<ClassName>) {
    forall i, j :: 0 <= i < j < |classes| ==> classes[i] != classes[j]
  }
}
