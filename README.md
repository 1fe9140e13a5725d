# Moodboard Architect in Dafny

Moodboard Architect is a single-page React application. It turns a short
story idea into a video moodboard: a title, an ordered list of scenes (camera,
characters, lighting, palette, sound, shot instructions, thumbnail) and one
consolidated text-to-video prompt. A hosted generative service supplies the
moodboard structure, one image per scene on request, and a fresh consolidated
prompt after edits.

This project models the logic around those service calls and proves what it
promises:

- `types.dfy` (module `Types`): the moodboard document.
  - A thumbnail URL is `Option<string>`. The in-band markers `"loading"` and
    `"error"` are kept as the source keeps them.
  - The dirty flag is `Option<bool>`.
- `js_string.dfy` (module `JsString`): the JavaScript string built-ins the
  application relies on, with their specifications. These are `trim`,
  `toLowerCase`, `replace(/\s+/g, …)`, `indexOf`, `split` and `join`.
- `gemini_service.dfy` (module `GeminiService`): the service wrapper.
  - It covers the prompt text per target length and per style preset, and the
    layout of the user prompt.
  - It covers the structural check of the parsed reply, the image data URL,
    and the error mapping of each call.
  - Each service call is a function parameter, from the request sent to the
    reply received. So every reply, success or failure, is covered.
- `scene_card.dfy` (module `SceneCard`): the per-field edit handler as a
  tagged edit applied by a pure function. Also the shot-instruction text area,
  the one-line character description, and the four-way thumbnail area.
- `moodboard_panel.dfy` (module `MoodboardPanel`): the choice among the four
  panel views, the total length line, and the numbering of scene cards.
- `app.dfy` (module `App`): the page controller.
  - Its pure rules are the theme, the scene replacement, the export file
    names and the PDF page count.
  - The state is the class `AppState`. Its handler methods change the React
    state step by step.
  - The PDF page loop is a method with a `while` loop. It is proved to place
    page `k` at offset `-pdfHeight * k` for exactly `max(1, ceil(img/page))`
    pages.

## Behaviour of the code worth knowing

- Generation installs the moodboard and stops (App.tsx:46-64). Thumbnails start absent. They change only when one scene's image is regenerated (App.tsx:77-93).
- Prompt regeneration sends the title and the scenes as they are, thumbnail URLs included (services/geminiService.ts:176). Every failure becomes the one message "Failed to update the final prompt." (services/geminiService.ts:189).
- A blank story sets the error message and keeps the current moodboard (App.tsx:47-50).
- The structural check accepts an empty scenes array (services/geminiService.ts:154).

## Model

| member | source | states |
|---|---|---|
| JsString.Trim | App.tsx:47 | `trim` drops the leading white space and then the trailing white space. Its contract is stated by TrimSpec. |
| JsString.TrimSpec | App.tsx:47 | `trim` keeps a contiguous part of the input. Only white space lies on either side of it, and its ends are not white space. The result is empty exactly when the input is white space only. |
| JsString.TrimStartSpec | App.tsx:47 | What the leading-trim drops is a prefix made only of white space. The rest starts with a non-white-space character or is empty. |
| JsString.TrimEndSpec | App.tsx:47 | What the trailing-trim drops is a suffix made only of white space. The rest ends with a non-white-space character or is empty. |
| JsString.LowerChar | App.tsx:117 | An ASCII capital becomes the matching small letter, and every other character is left alone. No capital remains, and white space stays white space. |
| JsString.ToLower | App.tsx:117 | `toLowerCase` keeps the length and lower-cases each character in place. |
| JsString.ReplaceWhitespaceRuns | App.tsx:117 | The replacement never lengthens the text. With a fill that is not white space, no white space is left. Text without white space is unchanged. |
| JsString.WhitespaceRunBecomesOneFill | App.tsx:117 | A maximal run of white space, however long, becomes exactly one fill character. |
| JsString.ReplaceAfterWord | App.tsx:117 | A word without white space passes through the replacement unchanged in front of whatever follows. |
| JsString.IndexOf | components/SceneCard.tsx:135 | The result is the first position where the separator occurs, or -1 when it occurs nowhere. |
| JsString.Split | components/SceneCard.tsx:146 | `split(sep)` with a non-empty separator never returns an empty list. JoinSplit and SplitJoin relate it to Join. |
| JsString.Join | components/SceneCard.tsx:146 | `join(sep)` of no pieces is "", and of one piece is that piece. JoinSplit and SplitJoin relate it to Split. |
| JsString.JoinSplit | components/SceneCard.tsx:146 | Joining the pieces of a split with the same separator gives back the original text. |
| JsString.SplitJoin | components/SceneCard.tsx:146 | Splitting a join on a one-character separator gives back the pieces. This needs the list to be non-empty and no piece to contain the separator. |
| JsString.JoinTailOfSplit | components/SceneCard.tsx:135-136 | `split(sep).slice(1).join(sep)` is the text after the first separator, or "" when there is none. |
| GeminiService.LengthConstraints | services/geminiService.ts:10-21 | The 8s and 16s texts say exactly how many scenes there are, the target total and each duration (3s, 5s and 4s, 8s, 4s). The 30s text asks for 4-5 scenes with a total of 30s and lists no durations. |
| GeminiService.DurationPlanAddsUp | services/geminiService.ts:13-15 | The listed durations add up to the target: 3+5 = 8 and 4+8+4 = 16. Only the 30s constraint lists none. |
| GeminiService.StyleInstructions | services/geminiService.ts:23-35 | A preset gets the cinematic text exactly when it is not comedy-short, edgy-editorial or childrens-story. So the seven extra presets get the cinematic text too. |
| GeminiService.StyleInstructionsDistinct | services/geminiService.ts:23-35 | Comedy-short, edgy-editorial and childrens-story each get their own text, and the three differ. |
| GeminiService.UserPrompt | services/geminiService.ts:135-138 | The template: the quoted story, the length constraints, one space, the style instructions, then the closing request with the aspect ratio. Its layout is stated by UserPromptLayout. |
| GeminiService.UserPromptLayout | services/geminiService.ts:135-138 | The user prompt quotes the story at a fixed position. Then come the length constraints, one space, and the style instructions. |
| GeminiService.GenerateMoodboard | services/geminiService.ts:134-169 | A reply is accepted exactly when it parses to an object with a truthy title, an array of scenes and a truthy final prompt. The moodboard carries those fields. Every failure but a non-Error throw carries the "Failed to generate moodboard: " prefix. A non-Error throw gives the fixed unexpected-error message. |
| GeminiService.ValidStructure | services/geminiService.ts:154 | The reply must be an object with a truthy title, an array of scenes and a truthy final prompt. GenerateMoodboard accepts exactly the replies that pass it. |
| GeminiService.EmptyScenesAccepted | services/geminiService.ts:154 | The structural check accepts an empty scenes array. |
| GeminiService.GenerateSingleImage | services/geminiService.ts:111-132 | It succeeds exactly when at least one image is returned. The result is the JPEG data-URL prefix followed by the first image's bytes. With no images it fails with "No image was generated.". A thrown failure is rethrown unchanged. |
| GeminiService.ImageUrlIsNotAMarker | services/geminiService.ts:123-126 | A generated image URL is non-empty and is neither thumbnail marker. |
| GeminiService.RegenerateFinalPrompt | services/geminiService.ts:171-191 | It succeeds exactly when the reply has text, and returns that text trimmed, with no white space at either end. Every failure maps to "Failed to update the final prompt.". |
| GeminiService.RegenerateReadsTitleAndScenesOnly | services/geminiService.ts:176 | Only the title and the scenes are sent. Moodboards that agree on those get the same result. |
| SceneCard.CameraSet | components/SceneCard.tsx:26 | The named camera field takes the new value and every other camera field is unchanged. |
| SceneCard.SoundSet | components/SceneCard.tsx:28 | The named sound field takes the new value and the other is unchanged. |
| SceneCard.CharacterSet | components/SceneCard.tsx:30 | The named character field takes the new value and every other field is unchanged. |
| SceneCard.ApplyEdit | components/SceneCard.tsx:23-33 | Each edit changes exactly the named field of the named part: top level, camera, sound, or the character at the index. Every other scene field, and every other character, is unchanged. The character list keeps its length. A character edit whose index matches no character leaves the scene as it was. The id never changes. |
| SceneCard.HandleUpdate | components/SceneCard.tsx:23-35 | Every edit is reported under the card's original scene id. |
| SceneCard.ShotInstructionsRoundTrip | components/SceneCard.tsx:146 | Submitting the shown text unchanged gives back the instruction list when the list is non-empty and free of line breaks. An empty list comes back as one empty instruction. |
| SceneCard.ShotInstructionsTextKept | components/SceneCard.tsx:146 | Whatever is typed, the text shown after the edit is the text typed. |
| SceneCard.EditDescription | components/SceneCard.tsx:133-136 | Only the indexed character's `looks` changes. It becomes the text after the first ", " ("" when there is none). Name, age range, clothing, emotion and all other characters are kept. |
| SceneCard.DescriptionEditAbsorbsTail | components/SceneCard.tsx:133-136 | The shown description is not parsed back as shown. When the age range has no comma, resubmitting the shown text makes `looks` absorb the clothing and emotion parts. |
| SceneCard.ThumbnailDisplay | components/SceneCard.tsx:46-66 | The image shows exactly when the URL is set, non-empty and not a marker. The spinner shows exactly for "loading" and the failure panel exactly for "error". Nothing shows when the URL is absent or empty. |
| SceneCard.ThumbnailConditionsExclusive | components/SceneCard.tsx:46-61 | No two of the three markup conditions hold together. |
| MoodboardPanel.SelectView | components/MoodboardPanel.tsx:42-64 | Each of the four views is shown exactly when its markup condition holds. The error view shows the error text. The content view shows the title, the summed length, and one card per scene in order. |
| MoodboardPanel.ExactlyOneView | components/MoodboardPanel.tsx:42-50 | Exactly one view condition holds. Loading hides the error and the content, and an error hides the moodboard. |
| MoodboardPanel.TotalLength | components/MoodboardPanel.tsx:57 | The left fold from 0 equals the sum of the scene durations, defined from the right. It is 0 for no scenes. |
| MoodboardPanel.PlannedScenesTotalTarget | components/MoodboardPanel.tsx:57 | Scenes whose durations follow the 8s or 16s plan show a total length equal to the target. |
| MoodboardPanel.SceneCards | components/MoodboardPanel.tsx:60-64 | There is one card per scene, in array order, and scene i gets number i+1. |
| MoodboardPanel.CardNumbering | components/MoodboardPanel.tsx:60-64 | Card numbers strictly increase from 1 up to the number of scenes. |
| App.InitialTheme | App.tsx:22-30 | The stored value is accepted only when it spells a theme exactly. Anything else gives dark. |
| App.StoredThemeRoundTrip | App.tsx:25-26 | A stored theme is read back as the same theme. |
| App.Toggled | App.tsx:43 | Toggling always switches the theme. |
| App.ToggleTwice | App.tsx:42-44 | Toggling twice is the identity. |
| App.ReplaceScene | App.tsx:72 | The list keeps its length and order. Scenes whose id matches are replaced and every other scene is untouched. |
| App.UpdateScenes | App.tsx:66-75 | A missing moodboard stays missing. Otherwise the moodboard is marked dirty with the scenes replaced, and its title and prompt are kept. |
| App.UpdateScenesOverwrite | App.tsx:83-91 | A second update of the same scene overwrites the first, so the loading marker leaves no trace. |
| App.UpdateWithSameScene | App.tsx:71 | When no other scene shares its id, writing back an unchanged scene still marks the moodboard dirty, and changes nothing else. |
| App.FindIndex | App.tsx:79 | The result is the first index whose scene has the id, or -1 when none has it. |
| App.FindScene | App.tsx:79 | `find` returns the first scene with the id. It returns nothing exactly when no scene has that id. |
| App.RegenerationDisplay | App.tsx:83-91 | While the image is pending the card shows the spinner. Afterwards it shows the new image, or the failure panel when the call failed. |
| App.StripDirty | App.tsx:111 | The export keeps the title, scenes and final prompt. |
| App.StripDirtyForgetsOnlyDirty | App.tsx:111 | Two moodboards export alike exactly when they differ at most in the dirty flag. |
| App.Slug | App.tsx:117 | The file base is no longer than the title, has no white space and no capitals. A title without white space is just lower-cased. |
| App.SlugIdempotent | App.tsx:117 | Applying the slug twice equals applying it once. |
| App.SlugOfTwoWords | App.tsx:117 | Two words separated by any run of white space become the lower-cased words joined by one underscore. |
| App.FileNamesShareBase | App.tsx:171 | The .json and .pdf names share one base: two titles clash in either name exactly when their slugs agree. |
| App.PageCount | App.tsx:154-169 | There is at least one page, enough pages to hold the image, and no page more than needed. |
| App.Paginate | App.tsx:154-169 | The loop ends and produces exactly `PageCount` pages. Page k, counted from 0, places the image at offset -pdfHeight·k. |
| App.ImageHeight | App.tsx:151-152 | The image keeps the canvas's aspect ratio once its width is scaled to the A4 width. |
| App.AppState.constructor | App.tsx:15-30 | The initial state: the default story, 16s, cinematic, no moodboard, not loading or updating, no error, and the theme read from storage. |
| App.AppState.ToggleTheme | App.tsx:42-44 | The theme becomes the other theme. |
| App.AppState.HandleGenerate | App.tsx:46-64 | A blank story only sets "Please enter a story idea.". The moodboard and loading flag are kept. Otherwise the skeleton shows while the service is awaited. On success the result is installed marked clean and the error cleared. On failure there is no moodboard and the error is set. Loading ends false either way. |
| App.AppState.HandleSceneUpdate | App.tsx:66-75 | The moodboard becomes the scene-updated moodboard and nothing else changes. |
| App.AppState.HandleRegenerateImage | App.tsx:77-93 | There is no change without a moodboard or a scene with that id. Otherwise the pre-call snapshot is written back first with the loading marker. It is then written back with the new URL or the error marker, with only `thumbnail_url` changed and the moodboard marked dirty. |
| App.AppState.HandleUpdatePrompt | App.tsx:95-107 | There is no change without a moodboard. On success the new prompt is installed, the moodboard marked clean, and the title and scenes kept. On failure the moodboard is kept and the fixed failure message set. `isUpdating` is set while awaiting and false afterwards. |
| App.AppState.HandleExportJson | App.tsx:109-119 | A file is produced exactly when there is a moodboard. It is named by the slug and holds every field but the dirty flag. |
| App.AppState.HandleExportPdf | App.tsx:121-178 | Nothing happens unless the content view is on the page. Otherwise a rendered canvas gives a document named by the slug, paginated over A4 pages, with the error cleared. A failed render sets the PDF failure message. Loading ends false either way. |

## Left out

- Network calls to the generative service, and the API-key guard: each call is a function parameter from request to reply, and the model never performs one.
- `JSON.parse`, `JSON.stringify`, `encodeURIComponent`, html2canvas rendering, jsPDF drawing and anchor-click downloads: these are I/O and serialisation. The JSON export returns the file name and the exported value. The PDF export takes the rendered canvas, or the render failure, as a parameter and returns the document's name, image height and page offsets.
- The response schema object (services/geminiService.ts:40-109) and the system prompt text: they are data handed to the service and change no decision of the application. The regeneration prompt's wording around the JSON data is not modelled. What is modelled is which fields it carries.
- JSON `null` fields in the parsed reply are treated like missing ones. A non-object reply is one case (`NotAnObject`) and an array `scenes` value is a list of well-formed scenes. The schema is what guarantees the scene shape.
- localStorage writes and the `dark` class on the document element (App.tsx:32-40): browser I/O. The stored value is a parameter of the constructor.
- Async interleaving: each handler runs as one sequence of writes, with no other handler or user edit between its awaits. The functional `setMoodboard(prev => …)` updates are therefore applied to the current state.
- The aspect-ratio argument: the application calls both `generateMoodboard` and `generateSingleImage` without it. The model passes `None`, so the user prompt renders it as "undefined", as the code does.
- The `default` branch of `getLengthConstraints` (services/geminiService.ts:18-19) cannot be reached from the three-valued length type, so it is not modelled.
- The "An unknown error occurred." fallback of App.tsx:60 cannot be reached: `generateMoodboard` only ever throws `Error` instances. So the failure is modelled as its message.
- MoodboardPanel.TotalLength: durations are exact reals; the IEEE rounding of the left-to-right reduce is not modelled. For example, 0.1 + 0.2 shows as 0.30000000000000004 in the application, and the fold-equals-sum fact does not hold for doubles.
- SceneCard.ApplyEdit: a character edit without an index falls through to a top-level write `{ ...scene, [field]: value }` (components/SceneCard.tsx:31-32). That adds a stray key such as `looks` to the scene object, which would then travel in the JSON export and the regeneration payload. The model's `Scene` has no such key, so this edit leaves the scene unchanged. No call site takes this branch: every character edit on the card passes its index (components/SceneCard.tsx:132-136).
- JsString.LowerChar: `toLowerCase` is modelled for ASCII letters only. Non-ASCII case mapping is not captured.
- Strings are sequences of code points. UTF-16 surrogate pairs are not distinguished.
- Heights are exact reals, not IEEE doubles, and the canvas width is assumed positive (the `Width` type), as html2canvas yields for the rendered panel.
- App.AppState.HandleExportPdf: the guard is the content view being on the page, because that is where the element it captures lives. The theme-dependent background colour of the capture is not modelled.
- `isImageLoading` in components/SceneCard.tsx is set and never read. The regenerate button itself only forwards the scene id.
- components/AnimatedBackground.tsx, Header.tsx, IconComponents.tsx, InputPanel.tsx, PromptPanel.tsx and constants.ts are presentational or option tables. They are not part of this model.
