/**
 The analysis form as the page holds it: the prompt editor, the eight
 coordinate inputs and three metadata inputs (all read as the raw `.value`
 strings), and the `src` of the two image previews.
 */
module Form {

  /** The eleven single-line inputs, named after their element ids. */
  datatype Field =
    | XaiTechnique | ModelArchitecture | Dataset
    | GtX1 | GtY1 | GtX2 | GtY2
    | XaiX1 | XaiY1 | XaiX2 | XaiY2

  datatype Form = Form(
    prompt: string,
    gtX1: string, gtY1: string, gtX2: string, gtY2: string,
    xaiX1: string, xaiY1: string, xaiX2: string, xaiY2: string,
    xaiTechnique: string, modelArchitecture: string, dataset: string,
    originalImageSrc: string, heatmapImageSrc: string)

  /** The current `.value` of an input. */
  function Value(f: Form, field: Field): string {
    match field
    case XaiTechnique => f.xaiTechnique
    case ModelArchitecture => f.modelArchitecture
    case Dataset => f.dataset
    case GtX1 => f.gtX1
    case GtY1 => f.gtY1
    case GtX2 => f.gtX2
    case GtY2 => f.gtY2
    case XaiX1 => f.xaiX1
    case XaiY1 => f.xaiY1
    case XaiX2 => f.xaiX2
    case XaiY2 => f.xaiY2
  }

  /** The `src` a preview image has before anything is uploaded. */
  const EmptyImageSrc: string := "data:,"

  /** An image counts as present once its preview shows something else; any
      `src` of another length, the empty one included, counts as an image. */
  predicate HasImage(src: string)
    ensures !HasImage(src) <==> src == EmptyImageSrc
    ensures |src| != 6 ==> HasImage(src)
    ensures !HasImage(src) ==> src[..5] == "data:"
  {
    src != EmptyImageSrc
  }
}
