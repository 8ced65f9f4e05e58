/**
 The checks made before anything is analysed: `validateInputs`, run on
 submission, and the accept/reject rule of `validateAndDisplayImage`, run on
 every chosen or dropped file.
 */
module Validation {
  import opened JsString
  import opened Form

  /** The inputs `validateInputs` requires to be non-empty, in its order. */
  const RequiredInputs: seq<Field> := [
    GtX1, GtY1, GtX2, GtY2,
    XaiX1, XaiY1, XaiX2, XaiY2,
    XaiTechnique, ModelArchitecture, Dataset
  ]

  /** The strings `validateInputs` requires to be non-empty, in its order:
      the trimmed prompt, the eight coordinates, then the three metadata
      inputs. */
  function RequiredFields(f: Form): (fields: seq<string>)
    ensures |fields| == 1 + |RequiredInputs|
    ensures fields[0] == Trim(f.prompt)
    ensures forall i :: 0 <= i < |RequiredInputs| ==> fields[i + 1] == Value(f, RequiredInputs[i])
  {
    [Trim(f.prompt)] + seq(|RequiredInputs|, i requires 0 <= i < |RequiredInputs| => Value(f, RequiredInputs[i]))
  }

  /** `fields.every(field => field !== '')`. */
  function Every(fields: seq<string>): (r: bool)
    ensures r <==> forall i :: 0 <= i < |fields| ==> fields[i] != ""
  {
    if fields == [] then true
    else fields[0] != "" && Every(fields[1..])
  }

  /** No input escapes the check. */
  lemma EveryInputRequired(field: Field)
    ensures field in RequiredInputs
  {
  }

  /** The required strings are all non-empty exactly when the prompt is not
      blank and none of the eleven inputs is empty. */
  lemma RequiredFieldsFilled(f: Form)
    ensures Every(RequiredFields(f)) <==> !Blank(f.prompt) && forall field :: Value(f, field) != ""
  {
    var fields := RequiredFields(f);
    TrimSpec(f.prompt);
    if Every(fields) {
      forall field ensures Value(f, field) != "" {
        EveryInputRequired(field);
        var i :| 0 <= i < |RequiredInputs| && RequiredInputs[i] == field;
        assert fields[i + 1] == Value(f, field);
      }
    }
  }

  /** `validateInputs`: the submission may go ahead exactly when the prompt
      holds something other than white space, none of the eleven inputs is
      empty, and at least one of the two images is present. */
  function ValidateInputs(f: Form): (r: bool)
    ensures r <==> && !Blank(f.prompt)
                   && (forall field :: Value(f, field) != "")
                   && (HasImage(f.originalImageSrc) || HasImage(f.heatmapImageSrc))
  {
    RequiredFieldsFilled(f);
    Every(RequiredFields(f)) && (HasImage(f.originalImageSrc) || HasImage(f.heatmapImageSrc))
  }

  /** The largest accepted upload: 5 MiB. */
  const MaxImageBytes: nat := 5 * 1024 * 1024

  datatype ImageRejection = NotAnImage | TooLarge

  /** What happens to a chosen file: it is read and previewed, or refused with
      an error notification. */
  datatype ImageDecision = Accept | Reject(reason: ImageRejection)

  /** The accept/reject rule of `validateAndDisplayImage` for a file with MIME
      type `mimeType` and `size` bytes. The type is checked first, so a file
      that is both of the wrong type and too large is refused as not an image;
      the size bound is inclusive. */
  function CheckImage(mimeType: string, size: nat): (d: ImageDecision)
    ensures d == Accept <==> StartsWith(mimeType, "image/") && size <= MaxImageBytes
    ensures d == Reject(NotAnImage) <==> !StartsWith(mimeType, "image/")
    ensures d == Reject(TooLarge) <==> StartsWith(mimeType, "image/") && size > MaxImageBytes
  {
    if !StartsWith(mimeType, "image/") then Reject(NotAnImage)
    else if size > MaxImageBytes then Reject(TooLarge)
    else Accept
  }

  /** The error notification shown for a refused file. */
  function RejectionMessage(reason: ImageRejection): (message: string)
    ensures reason == TooLarge <==> StartsWith(message, "Image size")
  {
    match reason
    case NotAnImage =>
      var message := "Please select a valid image file";
      assert message[..10][0] != "Image size"[0];
      message
    case TooLarge => "Image size must be less than 5MB"
  }

  /** The boundary cases: exactly 5 MiB is accepted, one byte more is not,
      the MIME prefix is matched case-sensitively, and the type is decided
      before the size. */
  lemma ImageBoundaries()
    ensures CheckImage("image/png", 5242880) == Accept
    ensures CheckImage("image/png", 5242881) == Reject(TooLarge)
    ensures CheckImage("image/", 0) == Accept
    ensures CheckImage("IMAGE/PNG", 1) == Reject(NotAnImage)
    ensures CheckImage("", 1) == Reject(NotAnImage)
    ensures CheckImage("application/pdf", 6 * 1024 * 1024) == Reject(NotAnImage)
  {
    assert !StartsWith("IMAGE/PNG", "image/") by {
      assert "IMAGE/PNG"[0] != "image/"[0];
    }
    assert !StartsWith("application/pdf", "image/") by {
      assert "application/pdf"[0] != "image/"[0];
    }
  }
}
