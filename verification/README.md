# XAI discrepancy analyser: the deterministic rules of `script.js`

The analyser is a single browser script. The user fills in a form:

- a free-text prompt;
- the two corners of a ground-truth bounding box and of an XAI-generated bounding box;
- the XAI technique, the model architecture and the dataset;
- an original image and a heat-map image.

The script checks the form, uploads and previews the images, fills a prompt template from the form, and produces a simulated analysis report. Most of the script is DOM and I/O glue. This project models the pure rules inside it and proves what they guarantee:

- **Box metrics** (`BoxMetrics`): the area of each box, the absolute area difference, and the difference as a percentage of the ground-truth area. Also the box centres and the distance between them, as computed at the start of `simulateLLMAnalysis`. JavaScript doubles are idealised as `real`.
  - `PercentAsWritten` keeps the source's unguarded division. A zero ground-truth area gives `NaN` or `Infinity`.
  - `AreaDiffPercent` is the guarded, partial version, returning an `Option`.
  - The square root is characterised relationally: `IsCentreDistance(d, …)` says `d >= 0 && d * d == squared distance`.
- **Alternative techniques** (`Alternatives`): the five-entry suggestion table with its generic fallback. Keys are matched exactly, with no change of case.
- **Notification look** (`Notifications`): the icon and colour tables, both falling back to the "info" entry.
- **Property lookup** (`JsObject`): the `table[key] || fallback` idiom that all three tables share.
- **String operations** (`JsString`): the pieces of JavaScript's `String.prototype` the rules rely on.
  - `trim`, with the ECMAScript white-space and line-terminator set.
  - `startsWith` and `indexOf`.
  - `replace` with a string pattern, which replaces only the first occurrence.
- **Submission check** (`Validation`): `validateInputs`, plus the accept/reject rule applied to each uploaded file by `validateAndDisplayImage`.
- **Image previews** (`Images`): the preview `src` that `validateInputs` reads. It is set by `displayImagePreview` and should be cleared again by `removeImage`.
- **Prompt template** (`PromptTemplate`):
  - The fixed template text. It is twelve stretches of fixed text around eleven `{name}` placeholders.
  - `loadTemplate`'s chain of eleven `replace` calls.
  - The proof that, when no input contains `{`, the chain is a simultaneous substitution: every placeholder gets its own value, and the fixed text is unchanged. When an input does contain a later placeholder, the chain is not a simultaneous substitution; a lemma shows the value landing in the wrong slot.

`Form` holds the form as the script reads it (raw `.value` strings and image `src` strings). `Wrappers` holds `Option`.

## Model

| member | source | states |
|---|---|---|
| BoxMetrics.Area | script.js:210-211 | A box's area is never negative, and it is zero exactly when the two corners share an x or a y coordinate. |
| BoxMetrics.RectangleArea | script.js:210-211 | `Math.abs(w * h)` is non-negative and vanishes exactly when one side is zero. |
| BoxMetrics.RectangleAreaSigns | script.js:210-211 | Reversing the direction of either side leaves the area unchanged. |
| BoxMetrics.AreaCornerOrder | script.js:210-211 | Swapping x1 with x2, y1 with y2, or both, gives the same area. |
| BoxMetrics.Abs | script.js:210-212 | `Math.abs` returns a non-negative value equal to x or to -x. |
| BoxMetrics.AreaDiff | script.js:212 | The area difference is non-negative, zero exactly when the areas are equal, and equal to one of the two signed differences. |
| BoxMetrics.AreaDiffSymmetric | script.js:212 | The area difference is symmetric in the two areas. |
| BoxMetrics.PercentAsWritten | script.js:213 | The unguarded `areaDiff / gtArea * 100`: `NaN` exactly when both areas are zero, `Infinity` exactly when only the ground-truth area is zero, finite otherwise. |
| BoxMetrics.AreaDiffPercent | script.js:213 | The guarded percentage is undefined exactly for a zero ground-truth area. When defined it is non-negative, satisfies `p * gtArea == 100 * areaDiff`, and is zero exactly when the areas agree. |
| BoxMetrics.PercentAgreesWithSource | script.js:213 | The guarded percentage is defined exactly when the source's value is finite, and then the two are equal. |
| BoxMetrics.PercentDenominatorMatters | script.js:213 | For any two non-negative areas, zero included, exchanging which box is the ground truth keeps the guarded percentage only when the areas are equal. |
| BoxMetrics.Centre | script.js:216-219 | A centre is the midpoint of the box's two corners on both axes. |
| BoxMetrics.CentreCornerOrder | script.js:216-219 | Naming the corners in the other order gives the same centre. |
| BoxMetrics.SquaredDistance | script.js:220 | `Math.pow(dx, 2) + Math.pow(dy, 2)` is non-negative and zero exactly when the two points coincide. |
| BoxMetrics.SumOfSquares | script.js:220 | A sum of two real squares is non-negative and vanishes only when both terms are zero. |
| BoxMetrics.SquaredDistanceSymmetric | script.js:220 | The squared distance does not depend on the order of the two points. |
| BoxMetrics.CentreDistanceSquared | script.js:216-220 | The squared distance between the two centres is non-negative, zero exactly when the centres coincide, and the same with the boxes exchanged. |
| BoxMetrics.IsCentreDistance | script.js:220 | Defines what `Math.sqrt(...)` of the squared centre distance is over the reals: `d` is non-negative and `d * d` equals the squared distance between the two centres. |
| BoxMetrics.CentreDistanceProperties | script.js:216-220 | The centre distance (a non-negative root of the squared distance) is unique and symmetric in the two boxes. It is zero exactly when the centres coincide. |
| BoxMetrics.ComputeMetrics | script.js:210-220 | Each field is the metric of the two boxes: the two areas, their absolute difference, the unguarded percentage and the squared centre distance. Every metric is non-negative. The difference is zero iff the areas are equal, and the ground-truth area is zero iff that box is degenerate. The percentage is finite iff the ground-truth box is not degenerate, and then `p * gtArea == 100 * areaDiff`. It is `NaN` iff both boxes are degenerate, and otherwise `Infinity` iff the ground-truth box is degenerate. The squared centre distance is zero iff the centres coincide. |
| BoxMetrics.IdenticalBoxes | script.js:210-220 | Comparing a box with itself gives no area difference and no centre distance, and 0% when the box is not degenerate. |
| BoxMetrics.ShiftedSquareExample | script.js:210-220 | (0,0)-(10,10) against (5,5)-(15,15): both areas are 100, the difference is 0 and 0%, and the squared centre distance is 50. |
| BoxMetrics.DegenerateGroundTruth | script.js:210-213 | An all-zero ground truth gives `NaN` against a degenerate box and `Infinity` against any other; the guarded percentage is undefined. |
| JsObject.LookupOr | script.js:300 | `table[key] \|\| fallback` yields the key's entry when that entry is present and non-empty. It yields the fallback when the key is missing or its entry is the empty string. |
| Alternatives.AlternativeTechniques | script.js:292-301 | A known key gets its own table entry. The generic suggestion is returned exactly for keys outside the table, and the result is never empty. |
| Alternatives.KnownTechniques | script.js:293-299 | The table's keys are exactly gradcam, gradcam++, lime, eigencam and guidedgradcam. |
| Alternatives.ExactKeyMatch | script.js:292-301 | "GradCAM", "Grad-CAM" and unknown names get the generic suggestion; "gradcam" is pointed at Grad-CAM++. |
| Notifications.NotificationIcon | script.js:425-433 | A known type gets its own icon and any other type gets the info icon; the result is always one of the four icons. |
| Notifications.NotificationColor | script.js:435-443 | A known type gets its own colour and any other type gets the info colour; the result is always one of the four colours. |
| Notifications.DistinctLooks | script.js:425-443 | The four known types have pairwise different icons and pairwise different colours. |
| Notifications.UnknownLooksLikeInfo | script.js:425-443 | An unknown type is shown exactly like an info notification. |
| Notifications.KnownTypes | script.js:425-443 | The icon table and the colour table have the same keys: success, error, warning and info. |
| JsString.IsWhiteSpace | script.js:164 | Defines the characters `trim()` strips: tab, vertical tab, form feed, the byte-order mark, every Unicode space separator, and the line terminators LF, CR, U+2028 and U+2029. |
| JsString.StartsWith | script.js:465 | Defines `s.startsWith(prefix)`: the prefix is no longer than `s` and equals its first characters. The test is exact and case-sensitive. |
| JsString.Trim | script.js:164 | `trim()` is no longer than its input, and a non-empty result neither starts nor ends with white space. |
| JsString.TrimStart | script.js:164 | The result is the suffix of the input left after removing leading white space, and it does not start with white space. |
| JsString.TrimEnd | script.js:164 | The result is the prefix of the input left after removing trailing white space, and it does not end with white space. |
| JsString.TrimSpec | script.js:164 | `trim()` returns a contiguous slice with only white space cut from either end, and neither end of the result is white space. It is empty exactly when the input is blank. |
| JsString.IndexOfFrom | script.js:324-334 | Finds the first occurrence of the pattern at or after `from`, or reports that there is none. |
| JsString.IndexOf | script.js:324-334 | `indexOf` finds something exactly when the pattern occurs, and what it finds is the first occurrence. |
| JsString.ReplaceFirst | script.js:324-334 | `replace` with a string pattern leaves the string unchanged when the pattern is absent. Otherwise it splices the value in at the first occurrence. |
| Validation.RequiredFields | script.js:163-170 | The required list is the trimmed prompt followed by the values of the eleven inputs, in the source's order. |
| Validation.Every | script.js:173 | `every(field => field !== '')` holds exactly when no element is empty. |
| Validation.RequiredFieldsFilled | script.js:162-173 | The required strings are all non-empty exactly when the prompt is not blank and none of the eleven inputs is empty. |
| Validation.ValidateInputs | script.js:162-174 | Submission may go ahead iff three things hold: the prompt is not blank, no input is empty, and at least one of the two images is present. |
| Validation.RejectionMessage | script.js:466-470 | Only the too-large refusal gives the message that starts "Image size"; a wrong type gives the other message. |
| Validation.CheckImage | script.js:464-472 | A file is accepted iff its type starts with `image/` and its size is at most 5 MiB. It is refused as not an image iff the type check fails, and as too large iff only the size check fails. |
| Validation.ImageBoundaries | script.js:465-472 | Exactly 5 MiB is accepted and one byte more is refused. The prefix is case-sensitive, and the type is checked before the size. |
| Images.SetImageSrc | script.js:481-488 | Setting one preview's `src` changes that preview only; the prompt and every input keep their values. |
| Images.DataUrl | script.js:478 | The data URL is `data:`, then the MIME type, then `;base64,`, then the payload, so both the type and the payload can be read back from it. |
| Images.ShowImage | script.js:473-488 | After an accepted upload the preview's `src` is exactly the file's data URL, so the image counts as present. The other preview, the prompt and every input are untouched. |
| Form.HasImage | script.js:171-172 | The only `src` that does not count as an image is `data:,`. Any `src` of another length counts, the empty string included. |
| Images.AcceptedUploadIsPresent | script.js:171-172 | The data URL of an image file never equals the empty-preview `src` `data:,`. |
| Images.RemoveImageAsWritten | script.js:490-498 | `removeImage` as written leaves both preview `src`s as they were. |
| Images.RemovedImageStillCounts | script.js:171-173 | With the code as written, a form whose only image has been removed still passes `validateInputs`. |
| Images.RemoveImage | script.js:490-498 | The corrected `removeImage`: the preview goes back to the empty `src`, and nothing else changes. |
| Images.RemovingAnImageLeavesTheOther | script.js:162-174 | After removing one image, the form is accepted exactly when the prompt is not blank, no input is empty, and the other image is present. |
| Images.RemovingBothImagesBlocksSubmission | script.js:162-174 | With both images removed, `validateInputs` fails. |
| PromptTemplate.Token | script.js:324-334 | Every placeholder starts with `{` and ends with `}`. |
| PromptTemplate.Default | script.js:324-334 | The eleven bracketed defaults, from `[XAI_TECHNIQUE]` to `[XAI_Y2]`, one per input. Each starts with `[` and ends with `]`. |
| PromptTemplate.Substitution | script.js:324-334 | `value \|\| '[DEFAULT]'`: the value when it is non-empty, the bracketed default otherwise. It is never empty, and it introduces no `{` or `$` of its own. |
| PromptTemplate.DefaultIsPlain | script.js:324-334 | None of the eleven bracketed defaults contains `{` or `$`. |
| PromptTemplate.SegmentsBraceFree | script.js:35-71 | None of the fixed text of the template contains `{`. |
| PromptTemplate.ReplaceAfterBraceFreePrefix | script.js:324-334 | When no `{` precedes a placeholder, `replace` puts the value exactly there and leaves the rest of the text alone. |
| PromptTemplate.ReplaceEachFillsSlots | script.js:323-334 | On text of the form segment, placeholder, segment, …, the chain of replacements fills the placeholders one by one, as long as neither the fixed text nor the values contain `{`. |
| PromptTemplate.ReplaceEach | script.js:323-334 | A chain of replacements whose placeholders are all absent from the text leaves the text unchanged. |
| PromptTemplate.LoadTemplate | script.js:322-334 | When no input contains `{`, `loadTemplate` equals the simultaneous substitution: the fixed text is kept verbatim, and each placeholder is replaced by its own input's value or by its default. |
| PromptTemplate.PlainInputsFillTemplate | script.js:322-334 | The same statement for the replacement chain applied to the template text. |
| PromptTemplate.LoadTemplateLeavesNoPlaceholder | script.js:322-334 | When no input contains `{`, none of the eleven placeholders survives in the loaded prompt. |
| PromptTemplate.FilledTemplateHasNoToken | script.js:322-334 | For any template of this shape with brace-free fixed text and values, the result of the chain contains no placeholder. |
| PromptTemplate.ShiftedLastSlot | script.js:323-334 | In any template of this shape, suppose the second-to-last input's value is the last placeholder. Then the last value lands in the second-to-last slot, and the last placeholder stays in the text. |
| PromptTemplate.LoadTemplateIsSequential | script.js:322-334 | If the XAI X2 input reads `{xaiY2}`, the loaded prompt has the Y2 value in the X2 slot and a literal `{xaiY2}` in the Y2 slot. The replacements are therefore sequential, not simultaneous. |
| PromptTemplate.LoadTemplateKeepsPlaceholder | script.js:333-334 | In that case the prompt still contains the placeholder `{xaiY2}`. |

## Left out

- The DOM and the event wiring: element lookup, visibility, loading state, toasts, animations, tooltips, keyboard shortcuts, drag-and-drop, and the `setTimeout` delay. The form is modelled only through the strings the rules read.
- Strings are sequences of Unicode code points (`seq<char>`), while JavaScript strings are sequences of UTF-16 code units. Lone surrogates cannot be represented, and `JsString.IndexOf` positions count code points rather than code units. None of the modelled results depends on this. `trim`, `startsWith('image/')`, `replace` with the ASCII placeholders, and the comparisons with `''` and `'data:,'` agree for every string the model can represent.
- `FileReader`, `localStorage` and clipboard access (`navigator.clipboard` and the `execCommand` fallback). These are I/O. `Images.DataUrl` stands in for what `readAsDataURL` produces.
- Floating point. Coordinates are `real`; `parseFloat` parsing, `toFixed` formatting and IEEE-754 rounding are not modelled. Only the two special results of dividing by a zero area (`NaN`, `Infinity`) are kept, in `JsNumber`.
- BoxMetrics.CentreDistanceProperties: `Math.sqrt` is not a Dafny function. The centre distance is characterised only as the non-negative root of the squared distance.
- The report text of `simulateLLMAnalysis` (script.js:222-289). It is fixed prose with the metrics, the metadata and the alternative suggestion interpolated. No operation of its own is modelled beyond those parts.
- `prepareAnalysisData` (script.js:176-203). It only repackages the form, with the same `trim` and the same `data:,` test already modelled.
- JsString.ReplaceFirst: values containing `$` are excluded by a precondition. JavaScript would expand replacement patterns such as `$&` in them.
- Alternatives.AlternativeTechniques, Notifications.NotificationIcon and Notifications.NotificationColor: a key that names an `Object.prototype` property (`constructor`, `toString`, …) is excluded by a precondition. In JavaScript such a key returns the inherited function instead of the fallback.
- Validation.RequiredFields: the source also compares each field with `null`. The `.value` of an input is never `null`, so that test is dropped.
- Validation.RejectionMessage says "less than 5MB", but the check accepts a file of exactly 5 MiB. The message is modelled as written, and `ImageBoundaries` records the inclusive bound.
- The initial `src` of the two preview images is set in the page markup, which is not part of this model. The model assumes it is `data:,`, the value the script treats as "no image".

## Findings

| source | as written | input that shows it | evidently intended | confidence | as-written member | corrected member |
|---|---|---|---|---|---|---|
| script.js:490-498 | `removeImage` clears the file input and hides the preview, but leaves the preview's `src` as it was. `validateInputs` (script.js:171-172) tests image presence by that `src`. | Upload an original image only, then remove it. `validateInputs` still reports an image, and `prepareAnalysisData` still sends the removed one. | Removing an image resets its `src` to `data:,`, so that with both images removed submission is refused. | medium, not executed | Images.RemovedImageStillCounts | Images.RemovingBothImagesBlocksSubmission |
