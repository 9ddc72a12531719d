# File uploader widget — a Dafny model

This project models the core of an HTML file uploader with drag and drop
(`src/js/main.js`). The widget checks every selected file against the file
input's `data-file-size` limit and `accept` list, attaches error markers to
the file objects, splits the selection into files with errors and valid
files, and then shows one of three outcomes: mixed, all-error or
all-success. Each outcome sets the upload container's status class, the
icon variant, the submit button and a status report. The model also covers
the reset for an empty selection, the submit handler and drag focus/blur.

Modules:

- `Options` (`options.dfy`): `Option`, standing for `null`/`undefined`.
- `JsText` (`js_text.dfy`): the JavaScript built-ins the checks rely on.
  - `lastIndexOf`, and `substring` with its clamping and swapping of indices.
  - `split` and `join`.
  - `Array.prototype.indexOf`.
  - `Number(...)` on a decimal string.
  - The decimal rendering of `${size}`.
- `Validator` (`validator.dfy`):
  - the `UploadFile` class, whose two markers the checks change in place;
  - the format check and the size check, as `for` loops over the files;
  - `FormatMarker` and `SizeMarker`, the functions that specify the checks;
  - `Select`, the two order-preserving `filter` calls.
- `Report` (`report.dfy`):
  - the per-file lines, and `Lines`, which specifies `createStatusMessageList`;
  - the status report as a sequence of sections, each with a theme, a summary and list items.
- `Uploader` (`uploader.dfy`):
  - the `Widget` class, with the widget's state fields and its handlers as methods;
  - `OutcomeUi`, `ResetUi` and `ThankYouUi`, the pure functions that state what each handler shows;
  - lemmas that tie the outcome to the files' markers.

JavaScript truthiness is modelled exactly. A marker or attribute is
truthy when it is set and not the empty string (`Validator.Truthy`). A
missing attribute is `None`.

Some of what `src/js/main.js` does is easy to misread, and the model keeps
it as written:

- the report lines read `"<name> is larger than <marker>"` and
  `"<name> should be in a <marker> format"`;
- drag blur always sets `standard`/`upload`, and does not restore the
  status from before the drag;
- submit with a selection keeps `fileList` and the submit button as they
  are, and shows the thank-you section with the `standard` status;
- the size label is the first *character* of the limit string plus `MB`;
- a name without a `.` is rejected by every declared `accept` list that
  does not hold the whole name, not by every declared list.

## Model

| member | source | states |
|---|---|---|
| JsText.LastIndexOf | src/js/main.js:92 | -1 exactly when the character is absent; otherwise the position of an occurrence with none after it |
| JsText.Substring | src/js/main.js:92 | for in-range indices, the slice between them; a negative start reads from 0 |
| JsText.JoinSplit | src/js/main.js:87 | joining the pieces of `split(sep)` with `sep` gives back the split string |
| JsText.SplitPiecesClean | src/js/main.js:87 | no piece of a split contains the separator |
| JsText.Split | src/js/main.js:87 | `split(", ")` gives at least one piece; no ensures beyond that, and JoinSplit and SplitPiecesClean fix its pieces |
| JsText.IndexOf | src/js/main.js:95 | negative exactly when the element is absent; otherwise its first position |
| JsText.NatToDecimal | src/js/main.js:245 | the rendering of a size is a non-empty digit string, with a leading `0` only for 0 |
| JsText.NatToDecimalRoundTrip | src/js/main.js:245 | reading back the decimal rendering of n gives n |
| JsText.DecimalOfDigitsValue | src/js/main.js:116 | a canonical digit string is the rendering of the number it coerces to |
| JsText.ToNumber | src/js/main.js:116 | `Number(limit)` for a non-empty digit string, and `None` (standing for `NaN`) for every other string, including numeric forms JavaScript reads as numbers (see Left out); no ensures, and DefaultLimitValue, NatToDecimalRoundTrip and DecimalOfDigitsValue fix its values |
| Validator.UploadFile.constructor | src/js/main.js:35 | a selected file has its name and size and carries no marker |
| Validator.Truthy | src/js/main.js:58-66 | JavaScript truthiness of a marker or attribute: set and not empty; no ensures, and HasError, FormatMarker, SizeLimit and FileLinesShape use it as the code's `if (…)` tests |
| Validator.Extension | src/js/main.js:91-92 | without a `.`, the whole name; otherwise the suffix from the last `.`, with no `.` after its first character |
| Validator.AcceptedTypes | src/js/main.js:86-87 | the `accept` attribute split on `", "`; no ensures, and JoinSplit and FormatMarkerIsAcceptList relate it back to the attribute |
| Validator.FormatMarker | src/js/main.js:83-97 | no `accept`: marker unchanged; extension not among the accepted types: the whole `accept` string; otherwise unchanged; a set marker stays set |
| Validator.NoDotNameRejected | src/js/main.js:92-96 | a name without `.` is rejected by every `accept` list that does not contain the whole name |
| Validator.FormatMarkerIsAcceptList | src/js/main.js:86-96 | a fresh file is marked exactly when its extension is not accepted, and the marker equals the accepted types joined by `", "` |
| Validator.SizeLimit | src/js/main.js:112 | the limit string is never empty |
| Validator.SizeLabel | src/js/main.js:117-118 | the label is the limit's first character followed by `MB` |
| Validator.Exceeds | src/js/main.js:116 | `file.size > limit` with the limit coerced by ToNumber, false when that gives `None`, which also happens for some numeric forms (see Left out); no ensures, and NumericSizeLimit, DefaultSizeLimit and NonNumericSizeLimit state when it holds |
| Validator.SizeMarker | src/js/main.js:112-119 | the marker is either unchanged or newly set and truthy; a set marker stays set |
| Validator.DefaultLimitValue | src/js/main.js:112 | the default limit `'5242880'` coerces to 5242880 |
| Validator.DefaultSizeLimit | src/js/main.js:112-119 | with no or an empty `data-file-size`, a file is marked `"5MB"` exactly when it is larger than 5242880 bytes; other files keep their marker |
| Validator.NumericSizeLimit | src/js/main.js:112-119 | a declared limit that reads as the number n, leading zeros included, marks exactly the files larger than n, with the limit's first character plus `MB` (`"05242880"` gives `"0MB"`); other files keep their marker |
| Validator.DeclaredSizeLimit | src/js/main.js:112-119 | a limit of n bytes marks exactly the files larger than n, with the first digit of n plus `MB` |
| Validator.NonNumericSizeLimit | src/js/main.js:116 | a limit that is not a plain digit string marks no file (every limit that is `NaN` is such a string) |
| Validator.MarkersIdempotent | src/js/main.js:81-122 | running either check again changes no marker |
| Validator.MarkSize | src/js/main.js:115-119 | one file's size marker after the check is `SizeMarker` of its old marker |
| Validator.SizeCheck | src/js/main.js:109-122 | every file's size marker becomes `SizeMarker` of its old one; format markers are unchanged |
| Validator.MarkFormat | src/js/main.js:89-97 | one file's format marker after the check is `FormatMarker` of its old marker |
| Validator.FormatCheck | src/js/main.js:81-104 | every file's format marker becomes `FormatMarker` of its old one; size markers are unchanged |
| Validator.HasError | src/js/main.js:58-62 | a file has an error when either marker is truthy; no ensures, and ChecksKeepWellMarked relates it to set markers |
| Validator.Select | src/js/main.js:58-63 | the two `filter` calls; no ensures, and SelectMembers, SelectAppend, PartitionCovers, SelectEmptyIff and SelectUniform describe it |
| Validator.Keep | src/js/main.js:58-63 | the same filter over verdicts recorded apart from the files; no ensures, and SelectKeep ties it to Select |
| Validator.SelectKeep | src/js/main.js:58-63 | the lists depend on the files' verdicts only: with the verdicts recorded, Select is Keep of them |
| Validator.SelectMembers | src/js/main.js:58-63 | each list holds only input files with its verdict, and every input file with that verdict |
| Validator.SelectCons | src/js/main.js:58-63 | filtering a file followed by more files keeps that file first or drops it, then filters the rest |
| Validator.SelectAppend | src/js/main.js:58-63 | filtering a concatenation filters each part in order, so input order is kept |
| Validator.PartitionCovers | src/js/main.js:58-63 | the invalid and valid lists together are the input: lengths and multisets add up |
| Validator.SelectEmptyIff | src/js/main.js:58-63 | a list is empty exactly when no input file has its verdict |
| Validator.SelectUniform | src/js/main.js:58-63 | when all files share a verdict, that list is the whole input and the other is empty |
| Validator.ChecksKeepWellMarked | src/js/main.js:96-118 | markers set by the checks are never empty, so on a well-marked file an error is exactly a set marker |
| Validator.ChecksMarkBoth | src/js/main.js:95-118 | a file larger than the limit whose extension is not accepted gets both a truthy size marker and a truthy format marker |
| Report.FileLinesShape | src/js/main.js:232-247 | a file gives one or two lines: the size line first, the format line last, two only with both markers, and the `(<size> bytes)` line alone when the file has no error |
| Report.FileLines | src/js/main.js:232-247 | one file's list items; no ensures, and FileLinesShape describes them |
| Report.SizeLine | src/js/main.js:235 | `"<name> is larger than <sizeError>"`; no ensures, and FileLinesShape places it first in a file's lines |
| Report.FormatLine | src/js/main.js:240 | `"<name> should be in a <formatError> format"`; no ensures, and FileLinesShape places it last in a file's lines |
| Report.ReadyLine | src/js/main.js:245 | `"<name> (<size> bytes)"`; no ensures, and FileLinesShape, LinesOfValid and AllValidReport make it the one line of a valid file |
| Report.Lines | src/js/main.js:228-251 | the list items of the files, file by file; no ensures, and LinesAppend, LinesBounds, LinesOfValid and CreateStatusMessageList describe them |
| Report.LinesAppend | src/js/main.js:232-248 | the lines of a concatenation are the lines of each part, in order |
| Report.LinesBounds | src/js/main.js:228-251 | n files give between n and 2n lines |
| Report.LinesOfValid | src/js/main.js:243-246 | files without errors give one `"<name> (<size> bytes)"` line each, in order |
| Report.CreateStatusMessageList | src/js/main.js:228-251 | the list built item by item is `Lines` of the files |
| Uploader.ButtonAfter | src/js/main.js:367-375 | `disable` disables the button and gives it `btn--disabled`; `enable` on a disabled button enables it with `btn--primary`, and changes nothing on an enabled one |
| Uploader.ButtonIdempotent | src/js/main.js:367-375 | a second identical request leaves the button as the first left it |
| Uploader.OutcomeOf | src/js/main.js:69-75 | mixed iff both lists are non-empty; all-error iff only errors; all-success iff no errors |
| Uploader.OutcomeUi | src/js/main.js:69-75 | each outcome's status, icon and button request |
| Uploader.StatusOf | src/js/main.js:136-209 | the container status each outcome sets (`standard` at 136, `success` at 181, `warning` at 209); no ensures, and OutcomeUi and CheckedStatus tie it to the files' markers |
| Uploader.IconOf | src/js/main.js:136-209 | the icon each outcome sets (`upload`, `uploaded`, `upload-error`); no ensures, and OutcomeUi and CheckedStatus tie it to the status |
| Uploader.CommandOf | src/js/main.js:130-203 | the button request each outcome makes (`enable` at 130 and 175, `disable` at 203); no ensures, and OutcomeUi and CheckedSubmitButton tie it to the files' markers |
| Uploader.MixedUi | src/js/main.js:127-167 | the mixed display: `standard`/`upload`, button enabled, a warning section of the invalid files then a success section of the valid ones; no ensures, and it is the specification FileUploadReporting's ensures states |
| Uploader.SuccessUi | src/js/main.js:172-195 | the all-success display: `success`/`uploaded`, button enabled, one success section; no ensures, and it is the specification FileUploadSuccess's ensures states |
| Uploader.ErrorUi | src/js/main.js:200-223 | the all-error display: `warning`/`upload-error`, button disabled, one warning section; no ensures, and it is the specification FileUploadError's ensures states |
| Uploader.ResetUi | src/js/main.js:256-277 | the reset display: `standard`/`upload`, button enabled, one standard section "No files selected"; no ensures, and it is the specification FileUploadStatusReset's ensures states |
| Uploader.ThankYouUi | src/js/main.js:290-307 | the submit display: `standard`/`upload`, button as it was, one success section with the thank-you note; no ensures, and it is the specification FileUploadSubmit's ensures states |
| Uploader.OutcomeUiStable | src/js/main.js:69-75 | showing an outcome again from the button the first showing left shows the same display |
| Uploader.CheckedSubmitButton | src/js/main.js:69-75 | after checking a non-empty selection, the button is disabled exactly when every file has an error |
| Uploader.CheckedStatus | src/js/main.js:58-75 | status `success` iff no file has an error; `warning` iff all have; `standard` iff both kinds are present; the icon matches |
| Uploader.CheckedFormData | src/js/main.js:62-75 | for a non-empty selection, the valid list is non-empty iff the outcome is not all-error; all-success keeps every file |
| Uploader.CheckedReportSize | src/js/main.js:127-251 | the report of n checked files lists between n and 2n items |
| Uploader.AllValidReport | src/js/main.js:172-195 | when all files are valid, one success section lists each file with its size, in order |
| Uploader.Widget.constructor | src/js/main.js:11-21 | the widget starts with empty `fileList` and `filesToFormData` and shows what the markup shows |
| Uploader.Widget.SubmitBtnStateChange | src/js/main.js:367-375 | the button afterwards is `ButtonAfter` of the request and the old button |
| Uploader.Widget.SetStatusElements | src/js/main.js:346-349 | the container status and the icon are the ones given |
| Uploader.Widget.RemoveChildElements | src/js/main.js:384-390 | the report is empty afterwards |
| Uploader.Widget.AppendStatusHolder | src/js/main.js:141-151 | one section with the theme, the summary and the files' lines is appended |
| Uploader.Widget.FileUploadReporting | src/js/main.js:127-167 | button enabled, `standard`/`upload`, a warning section of the invalid files then a success section of the valid ones, replacing the old report |
| Uploader.Widget.FileUploadSuccess | src/js/main.js:172-195 | button enabled, `success`/`uploaded`, one success section, replacing the old report |
| Uploader.Widget.FileUploadError | src/js/main.js:200-223 | button disabled, `warning`/`upload-error`, one warning section, replacing the old report |
| Uploader.Widget.FileUploadStatusReset | src/js/main.js:256-277 | button enabled, `standard`/`upload`, a single standard section "No files selected" |
| Uploader.Widget.ShowOutcome | src/js/main.js:69-75 | what is shown is `OutcomeUi` of the two lists and the old button |
| Uploader.Widget.FileUploadCheck | src/js/main.js:49-76 | every file gets both checks' markers; `filesToFormData` becomes the valid list only when it is non-empty; what is shown is the outcome of the two lists |
| Uploader.Widget.FileUploadHandler | src/js/main.js:32-45 | `fileList` becomes the selection; an empty one resets and keeps `filesToFormData`; any other is checked as above |
| Uploader.Widget.FileUploadHandlerTwice | src/js/main.js:32-76 | handling the same non-empty selection twice leaves the markers, `filesToFormData` and the whole display exactly as one handling does |
| Uploader.Widget.FileUploadSubmit | src/js/main.js:282-307 | with an empty `fileList`, the reset state; otherwise `standard`/`upload` and only the thank-you section, with the button and `fileList` unchanged |
| Uploader.Widget.FileUploadDragFocus | src/js/main.js:334-336 | `focused`/`upload`; button and report unchanged |
| Uploader.Widget.FileUploadDragBlur | src/js/main.js:339-341 | `standard`/`upload` whatever the status was; button and report unchanged |

## Left out

- DOM creation: element creation, `appendChild`, the holders' class-name strings and the `aria-live`/`aria-role` attributes (src/js/main.js:352-364). A report is a sequence of sections instead.
- Event wiring: event listeners, `preventDefaults` and reading `dataTransfer.files` (src/js/main.js:328-331, 378-381, 395-414). These are host plumbing; a drop calls the same handler as a change.
- Cosmetic DOM edits: the removal of the `required` attribute, the instruction text swap (src/js/main.js:24-27) and the Firefox focus class (src/js/main.js:413-414).
- Submit leftovers: the commented-out `FormData` construction and the browser call `fileForm.reset()` (src/js/main.js:309-321). They have no logic of their own.
- The `accept` and `data-file-size` attributes are fixed values of the widget (`Uploader.Widget.accept`, `Uploader.Widget.sizeAttr`). The code reads them with `getAttribute` on every check (src/js/main.js:83, 86, 112). The model does not capture the page changing them between two checks.
- The widget's initial appearance comes from the page markup, so it is a parameter of `Uploader.Widget.constructor`.
- Validator.SizeMarker: `Number(...)` is modelled for plain decimal digit strings only; any other limit is `NaN`. JavaScript also reads forms such as `" 12 "`, `"1e6"`, `"0x10"` or `"2.5"` as numbers, and reads a blank string as 0. For those limits the model marks no file where the browser would compare against that number. The reason: reading those forms needs JavaScript's whole string-to-number grammar (whitespace trimming, signs, exponents, hexadecimal, fractions) and floating-point comparison, which the model does not include; byte-count limits are written as plain digits.
- Validator.NonNumericSizeLimit: it speaks of every limit that is not a plain digit string, which includes forms JavaScript reads as numbers (`"1e6"`, `" 12 "`, `"0x10"`, `"2.5"`). For those the browser marks the larger files, and the lemma's "no file is marked" holds only of the model, for the reason on the `Validator.SizeMarker` line.
- JsText.ToNumber: it reads only non-empty plain digit strings and gives `None` for every other string, while JavaScript's `Number()` also reads forms such as `" 12"`, `"1e6"`, `"0x10"`, `"2.5"` and `"-5"`, and reads `" "` as 0; the reason is on the `Validator.SizeMarker` line.
- Validator.Exceeds: it is false for every limit ToNumber gives `None` for, so for the numeric forms on the `JsText.ToNumber` line it marks no file where the browser compares against the number; the reason is on the `Validator.SizeMarker` line.
- JsText.NatToDecimal: JavaScript writes numbers of 10^21 and more in exponent form. The model always writes plain digits, since no file size reaches that magnitude.
- File sizes are unbounded naturals, not IEEE doubles: sizes above 2^53 are not rounded.
