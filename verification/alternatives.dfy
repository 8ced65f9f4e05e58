/**
 The alternative-technique suggestion (`getAlternativeTechniques`): a fixed
 table keyed by the technique string exactly as entered, with a generic
 suggestion for every other key.
 */
module Alternatives {
  import opened JsObject
  import opened JsString

  /** The five known techniques and what the report suggests instead. */
  const Table: map<string, string> := map[
    "gradcam" := "Grad-CAM++, Eigen-CAM, or Guided Grad-CAM",
    "gradcam++" := "Eigen-CAM, LIME, or Integrated Gradients",
    "lime" := "Grad-CAM, SHAP, or Kernel SHAP",
    "eigencam" := "Grad-CAM, Grad-CAM++, or Guided Backpropagation",
    "guidedgradcam" := "Eigen-CAM, LIME, or Integrated Gradients"
  ]

  /** The suggestion for a technique outside the table. */
  const Fallback: string := "other gradient-based or perturbation-based methods"

  /** The suggestion for `technique`: the table entry for a known key, the
      generic suggestion otherwise; the generic suggestion is returned exactly
      for the unknown keys, so a caller can tell the two cases apart. */
  function AlternativeTechniques(technique: string): (r: string)
    requires OrdinaryKey(technique)
    ensures technique in Table ==> r == Table[technique]
    ensures r == Fallback <==> technique !in Table
    ensures r != ""
  {
    LookupOr(Table, technique, Fallback)
  }

  /** The table's keys are exactly the five lower-case identifiers. */
  lemma KnownTechniques(technique: string)
    ensures technique in Table <==>
      technique in {"gradcam", "gradcam++", "lime", "eigencam", "guidedgradcam"}
  {
  }

  /** Keys are compared exactly: a differently cased or spelled identifier of
      a known technique gets the generic suggestion, while "gradcam" itself is
      pointed at Grad-CAM++. */
  lemma ExactKeyMatch()
    ensures AlternativeTechniques("GradCAM") == Fallback
    ensures AlternativeTechniques("Grad-CAM") == Fallback
    ensures AlternativeTechniques("unknown-technique") == Fallback
    ensures Contains(AlternativeTechniques("gradcam"), "Grad-CAM++")
  {
    assert OccursAt(AlternativeTechniques("gradcam"), "Grad-CAM++", 0);
  }
}
