# DeeMG-AI workflow model

DeeMG-AI is a browser form. It takes two photos and a generation type: a
wedding photo, a future-baby portrait, or the couple at a chosen location.
It sends them to an image model and shows the image that comes back, with
download and retry buttons. This project models the logic behind that form
in Dafny, one module per source file:

- `Types` (types.ts): the `GenerationType` enum and its runtime string values,
  the `ImageFile` record, and JavaScript truthiness of a nullable string.
  A null string and an empty string are both absent.
- `GeminiService` (services/geminiService.ts): prompt selection, the
  three-part request, and the scan of the model's reply for the first inline
  image. Every failure of the call or of the reply scan is collapsed into
  one generic error; an invalid generation type fails earlier, with its own
  message.
- `ImageUploader` (components/ImageUploader.tsx): JavaScript's
  `split(',')[1]` on the data URL a file reader produces, the preview data
  URL, the processing of the first chosen or dropped file, and the
  `isDragging` flag as a small class.
- `ResultDisplay` (components/ResultDisplay.tsx): the panel's view
  selection, the download link and the two reset buttons.
- `App` (App.tsx): the `Workflow` class with the page's seven state fields,
  the readiness gate and the stage visibility conditions.
  `handleGenerate` is split at its `await` into `StartGenerate` and
  `Settle`. `Generate` composes the two around the adapter. `Reset` is
  `handleReset`.

The image-generation service itself is not modelled. Its reply is an input value,
`ApiReply`: either a rejection, or a reply whose candidates, content and
parts may each be missing. The file reader is treated the same way: a
`File` carries its declared type and what reading it yields.

## Model

| member | source | states |
|---|---|---|
| `Types.Tag` | types.ts:2-6 | every enum member has a non-empty runtime string, so it is always truthy |
| `GeminiService.PromptForTag` | services/geminiService.ts:11-22 | the switch fails exactly for strings that are not one of the three enum values, and then with "Invalid generation type" |
| `GeminiService.PromptFor` | services/geminiService.ts:11-21 | for each of the three enum members the switch returns a prompt and never reaches its default branch |
| `GeminiService.FixedPrompts` | services/geminiService.ts:13-16 | Wedding and Baby return their fixed prompts whatever the location, and the two prompts differ |
| `GeminiService.LocationPromptContains` | services/geminiService.ts:17-18 | the Location prompt is a fixed prefix, the location verbatim, then a fixed suffix |
| `GeminiService.LocationPromptInjective` | services/geminiService.ts:18 | two locations give the same prompt if and only if they are equal |
| `GeminiService.PromptForTagAcceptsExactlyEnum` | services/geminiService.ts:12-20 | the switch succeeds if and only if the string is the runtime value of some enum member |
| `GeminiService.BuildRequest` | services/geminiService.ts:31-61 | the request has three parts; read back, they carry exactly the two photos in order, with base64 and media type unchanged, then the prompt as the only text; the model and image modality are fixed |
| `GeminiService.ImagePart` | services/geminiService.ts:35-47 | the part carries the photo as inline data, unchanged, and no text |
| `GeminiService.ReplyParts` | services/geminiService.ts:64 | when the first candidate has content with parts, exactly those parts are scanned; a non-empty list is scanned only in that case |
| `GeminiService.FirstInlineData` | services/geminiService.ts:64-67 | whatever the scan returns is the data of some part carrying inline data |
| `GeminiService.DecodeReply` | services/geminiService.ts:64-74 | succeeds if and only if the call resolved and some part of the first candidate carries inline data, and then returns the first such part's data; every failure is the generic API error |
| `GeminiService.FirstInlineDataIsFirst` | services/geminiService.ts:64-68 | the data found is that of a part carrying inline data, and no earlier part carries any (both directions) |
| `GeminiService.FirstInlineDataAbsent` | services/geminiService.ts:64-70 | nothing is found if and only if no part carries inline data |
| `GeminiService.LaterPartsIgnored` | services/geminiService.ts:65-67 | once a part with inline data is found, parts appended after it do not change the result |
| `GeminiService.MissingContentFails` | services/geminiService.ts:64-74 | a reply without candidates, content or parts fails exactly like a rejected call, with the generic error |
| `GeminiService.FirstCandidateImageSucceeds` | services/geminiService.ts:64-67 | a resolved reply whose first candidate carries an inline part succeeds with the data of the earliest such part, whatever candidates follow |
| `GeminiService.GenerateImage` | services/geminiService.ts:24-76 | the loop sends the request BuildRequest describes and settles with DecodeReply of the reply |
| `ImageUploader.Split` | components/ImageUploader.tsx:26 | splitting always yields at least one piece |
| `ImageUploader.SplitJoin` | components/ImageUploader.tsx:26 | joining the pieces with the separator gives the string back |
| `ImageUploader.SplitPiecesFree` | components/ImageUploader.tsx:26 | no piece contains the separator |
| `ImageUploader.SplitPrefix` | components/ImageUploader.tsx:26 | a separator-free prefix becomes the start of the first piece |
| `ImageUploader.SplitLeading` | components/ImageUploader.tsx:26 | a leading separator gives an empty first piece |
| `ImageUploader.Base64OfSegment` | components/ImageUploader.tsx:26 | the body is missing if and only if the URL has no comma; otherwise it is the comma-free text between the first comma and the next comma or the end |
| `ImageUploader.SegmentIsBase64` | components/ImageUploader.tsx:26 | conversely, the text between the first comma and the next comma or the end is the body taken |
| `ImageUploader.Base64Of` | components/ImageUploader.tsx:26 | a body taken from a URL contains no comma and is shorter than the URL |
| `ImageUploader.PreviewUrl` | components/ImageUploader.tsx:86 | the preview URL starts with "data:", ends with the body, and is 13 characters longer than media type and body together |
| `ImageUploader.PreviewRoundTrip` | components/ImageUploader.tsx:86 | the body taken from a photo's preview URL is the stored body, when the media type and body have no comma |
| `ImageUploader.ProcessFile` | components/ImageUploader.tsx:23-36 | a read error reports null; a missing or empty body reports nothing; a loaded URL that reports anything reports a photo; a reported photo has the file's declared type and the URL's comma-free, non-empty body |
| `ImageUploader.UploadPreviewRoundTrip` | components/ImageUploader.tsx:26-28 | reading a data URL of the preview's form stores exactly that photo, when the body is non-empty and neither it nor the media type contains a comma |
| `ImageUploader.StoredPreviewRoundTrip` | components/ImageUploader.tsx:84-86 | whatever an upload stores, its preview URL gives the same body back, when the declared media type contains no comma |
| `ImageUploader.Deliver` | App.tsx:77-78 | the slot's setter is the uploader's callback, so every report is stored as the slot's new value, and with no report the slot is kept |
| `ImageUploader.EmptyBodyKeepsSlot` | components/ImageUploader.tsx:27-34 | an upload with an empty or missing body leaves the photo slot unchanged; a read error clears it |
| `ImageUploader.LaterFilesIgnored` | components/ImageUploader.tsx:17 | files after the first in a selection (line 17) or a drop (line 56) have no effect: the outcome is that of processing the first file alone |
| `ImageUploader.DropZone.constructor` | components/ImageUploader.tsx:13 | the drag flag starts false |
| `ImageUploader.DropZone.DragEnter` | components/ImageUploader.tsx:38-42 | drag-enter sets the drag flag |
| `ImageUploader.DropZone.DragLeave` | components/ImageUploader.tsx:43-47 | drag-leave clears the drag flag |
| `ImageUploader.DropZone.Drop` | components/ImageUploader.tsx:52-59 | a drop clears the drag flag and processes only the first dropped file |
| `ImageUploader.DropZone.FileChange` | components/ImageUploader.tsx:16-21 | choosing files processes only the first one |
| `ResultDisplay.Render` | components/ResultDisplay.tsx:22-66 | nothing is rendered iff not loading with no image and no error; the spinner shows iff loading; the error view iff an error and not loading; the success view iff an image and not loading; the link's href and the image are the generated image, the file name is fixed, and both buttons carry the same onReset |
| `ResultDisplay.LoadingSuppressesResults` | components/ResultDisplay.tsx:29-44 | while loading, the spinner is the only view, whatever the image and error are |
| `ResultDisplay.OneViewAtATime` | components/ResultDisplay.tsx:23-44 | when the image and the error are not both present, the panel shows nothing or exactly one view |
| `App.IsReadyToGenerate` | App.tsx:21-28 | a ready state has both photos and a type, so it also passes the null checks handleGenerate repeats |
| `App.ReadyIff` | App.tsx:21-25 | ready iff both photos, a type, and (type is not Location or a non-empty location) |
| `App.ReadyLocationIsForwarded` | App.tsx:39 | when ready with Location, the location is non-empty, so `selectedLocation!` holds, and the prompt contains it verbatim |
| `App.ShowsInputStages` | App.tsx:71 | when the input stages are shown, the panel shows neither the spinner nor an image |
| `App.ShowsTypeStep` | App.tsx:83 | a ready state whose input stages are shown always shows the type step |
| `App.ShowsLocationStep` | App.tsx:91 | while the input stages are shown and the location step is hidden, readiness needs only the two photos and a type |
| `App.GenerateDisabled` | App.tsx:102 | the button is disabled while loading, and a press on the enabled button passes handleGenerate's guard |
| `App.ResultPanel` | App.tsx:111-116 | no reset button is rendered while loading; both buttons are bound to handleReset; a consistent state shows nothing or exactly one view |
| `App.InFlightShowsOnlySpinner` | App.tsx:71-116 | while loading, the input stages are hidden, the button is disabled, the panel shows only the spinner, and no reset button is rendered |
| `App.InitialScreen` | App.tsx:71-102 | the first screen shows step 1 only, a disabled generate button and no result panel |
| `App.AfterGenerate` | App.tsx:27-47 | an unready state is untouched; otherwise the inputs are kept, loading has ended, the image is present iff the reply decodes and the error iff it does not; consistency is preserved |
| `App.FailureKeepsInputs` | App.tsx:42-46 | after a failed generation the error view shows the fixed message beside the input stages, whose selections are kept and still ready, so generation can be run again |
| `App.SuccessShowsImage` | App.tsx:41-46 | after a successful generation the input stages are hidden and only the success view shows, with the decoded image as a PNG data URL |
| `App.Workflow.constructor` | App.tsx:12-19 | all seven fields start null or false |
| `App.Workflow.SetPerson1Image` | App.tsx:77 | the first uploader's report replaces the first photo and nothing else |
| `App.Workflow.SetPerson2Image` | App.tsx:78 | the second uploader's report replaces the second photo and nothing else |
| `App.Workflow.SetGenerationType` | App.tsx:86 | choosing a type changes only the type and keeps any earlier location |
| `App.Workflow.SetSelectedLocation` | App.tsx:94 | choosing a location changes only the location |
| `App.Workflow.StartGenerate` | App.tsx:27-40 | when not ready nothing changes and no call is made; otherwise loading starts, image and error are cleared, the inputs are unchanged, and the adapter gets both photos, the type, and the location only for Location |
| `App.Workflow.Settle` | App.tsx:41-47 | success stores the data URL "data:image/png;base64," plus the result; failure stores the fixed message; loading ends either way; nothing else changes; from a cleared result it leaves at most one of image and error |
| `App.Workflow.Reset` | App.tsx:50-58 | from any state all seven fields return to their initial values, so resetting twice is the same as resetting once |
| `App.Workflow.Generate` | App.tsx:27-48 | a ready state sends BuildRequest of its inputs and ends with the decoded image or the failure message, loading off, inputs kept; a state that is not ready is left alone; a consistent state stays consistent; the new state is `AfterGenerate` of the old one |
| `App.LocationWithoutPlace` | App.tsx:21-28 | with two photos and Location chosen but no place, generating sends nothing and changes nothing |
| `App.LateSettleAfterReset` | App.tsx:50-58 | under an event order the page never produces (a reset while loading, when no reset button is shown), a late success would still write its image into the reset state: handleReset does not cancel a generation |

## Left out

- The network call to the image model and its SDK. The reply is an input
  value, and the model identifier and the modality are recorded in the
  request.
- The `API_KEY` check when the service module loads. It reads the process
  environment and is not part of the workflow.
- The asynchronous file reader, DOM events, `preventDefault` and
  `stopPropagation`, the drag-over handler (which changes no state) and the
  click that opens the hidden file input. A file's read result is part of
  the `File` value. A `null` file list is treated as an empty one.
- Markup, styling, icons and `console.error` logging. The logged detail of
  a failure is dropped, and only the collapsed message is kept.
- OptionSelector.tsx and LocationSelector.tsx. They only emit a
  `GenerationType` or a location string. `SetGenerationType` and
  `SetSelectedLocation` take those values. The `LOCATIONS` catalog lives in
  `constants`, which is not part of this model, so any string is accepted.
- Overlapping generations. Their interleaving is not modelled. The page
  renders neither the generate button nor a reset button while loading
  (`InFlightShowsOnlySpinner`), so it never produces one.
  `LateSettleAfterReset` shows what the handlers would do under that
  event order: a settle after a reset still writes state.
- An absent location is rendered as "undefined" in the Location prompt, as
  a template literal does. The page never reaches that case, because it
  forwards a location exactly for the Location type.
