/**
 The two image previews as far as `validateInputs` sees them: the `src` of
 each preview image, set by `displayImagePreview` after an accepted upload
 and meant to be cleared again by `removeImage`.
 */
module Images {
  import opened JsString
  import opened Form
  import opened Validation

  datatype Slot = Original | Heatmap

  /** The `src` of the preview image of `slot`. */
  function ImageSrc(f: Form, slot: Slot): string {
    match slot
    case Original => f.originalImageSrc
    case Heatmap => f.heatmapImageSrc
  }

  /** The form with the `src` of the preview of `slot` set to `src`; every
      other part of the form is left as it was. */
  function SetImageSrc(f: Form, slot: Slot, src: string): (r: Form)
    ensures ImageSrc(r, slot) == src
    ensures forall other :: other != slot ==> ImageSrc(r, other) == ImageSrc(f, other)
    ensures r.prompt == f.prompt && forall field :: Value(r, field) == Value(f, field)
  {
    match slot
    case Original => f.(originalImageSrc := src)
    case Heatmap => f.(heatmapImageSrc := src)
  }

  /** What `FileReader.readAsDataURL` yields for a file of MIME type
      `mimeType` whose base64-encoded content is `payload`. */
  function DataUrl(mimeType: string, payload: string): (url: string)
    ensures |url| == |mimeType| + |payload| + 13
    ensures url[..5] == "data:" && url[5..5 + |mimeType|] == mimeType
    ensures url[5 + |mimeType|..|url| - |payload|] == ";base64,"
    ensures url[|url| - |payload|..] == payload
  {
    "data:" + mimeType + ";base64," + payload
  }

  /** `displayImagePreview` after an accepted upload: the preview shows the
      file's data URL, and from then on the image counts as present. */
  function ShowImage(f: Form, slot: Slot, mimeType: string, size: nat, payload: string): (r: Form)
    requires CheckImage(mimeType, size) == Accept
    ensures ImageSrc(r, slot) == DataUrl(mimeType, payload)
    ensures HasImage(ImageSrc(r, slot))
    ensures forall other :: other != slot ==> ImageSrc(r, other) == ImageSrc(f, other)
    ensures r.prompt == f.prompt && forall field :: Value(r, field) == Value(f, field)
  {
    AcceptedUploadIsPresent(mimeType, payload);
    SetImageSrc(f, slot, DataUrl(mimeType, payload))
  }

  /** The data URL of an accepted file never equals the empty-preview `src`. */
  lemma AcceptedUploadIsPresent(mimeType: string, payload: string)
    requires StartsWith(mimeType, "image/")
    ensures HasImage(DataUrl(mimeType, payload))
  {
    var url := DataUrl(mimeType, payload);
    assert url[5] == mimeType[0] == 'i';
    assert EmptyImageSrc[5] == ',';
  }

  /** `removeImage` as written: it clears the file input and swaps the upload
      area back in, but leaves the preview's `src` alone, so the form that
      `validateInputs` reads is unchanged. */
  function RemoveImageAsWritten(f: Form, slot: Slot): (r: Form)
    ensures forall s :: ImageSrc(r, s) == ImageSrc(f, s)
  {
    f
  }

  /** The consequence: a form whose only image was removed still passes
      validation. */
  lemma RemovedImageStillCounts(f: Form)
    requires ValidateInputs(f)
    requires HasImage(f.originalImageSrc) && !HasImage(f.heatmapImageSrc)
    ensures ValidateInputs(RemoveImageAsWritten(f, Original))
  {
  }

  /** `removeImage` as evidently intended: the preview goes back to the empty
      `src`, and nothing else changes. */
  function RemoveImage(f: Form, slot: Slot): (r: Form)
    ensures !HasImage(ImageSrc(r, slot))
    ensures forall other :: other != slot ==> ImageSrc(r, other) == ImageSrc(f, other)
    ensures r.prompt == f.prompt && forall field :: Value(r, field) == Value(f, field)
  {
    SetImageSrc(f, slot, EmptyImageSrc)
  }

  /** After removing one image, the form passes validation exactly when it
      would with no image in that slot: everything else as before, and the
      other image present. */
  lemma RemovingAnImageLeavesTheOther(f: Form, slot: Slot, other: Slot)
    requires other != slot
    ensures ValidateInputs(RemoveImage(f, slot)) <==>
      && !Blank(f.prompt)
      && (forall field :: Value(f, field) != "")
      && HasImage(ImageSrc(f, other))
  {
    var r := RemoveImage(f, slot);
    assert HasImage(r.originalImageSrc) || HasImage(r.heatmapImageSrc)
       <==> HasImage(ImageSrc(r, other)) by {
      assert r.originalImageSrc == ImageSrc(r, Original);
      assert r.heatmapImageSrc == ImageSrc(r, Heatmap);
    }
  }

  /** With both images removed the form can no longer be submitted. */
  lemma RemovingBothImagesBlocksSubmission(f: Form)
    ensures !ValidateInputs(RemoveImage(RemoveImage(f, Original), Heatmap))
  {
    var r := RemoveImage(RemoveImage(f, Original), Heatmap);
    assert r.originalImageSrc == ImageSrc(r, Original);
    assert r.heatmapImageSrc == ImageSrc(r, Heatmap);
  }
}
