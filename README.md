# Image editor core: edit session, prompt compiler and template registry

This project models the core of a browser image editor that sends a photo
and a text instruction to an image-generation model. The model covers
three parts.

- **The template registry.** There are twelve edit templates. Each has a
  parameter schema (sliders, selects, colours, texts) and an instruction
  pattern with `${name}` placeholders.
- **The prompt compiler and service.** The compiler fills the placeholders
  of a template with the parameter values, one `String.prototype.replace`
  after another. The service builds the request, cleans the image's data
  URL and interprets the model's reply.
- **The edit session.** This is the state of the editor: a working image,
  a pending preview, a linear undo history with a cursor, the selected
  template and its values, an error slot and an in-memory library. Every
  handler is a transition from the previous state to the next.

The modules, in dependency order:

- `Wrappers`: `Option` and `Result`.
- `Strings`: JavaScript's `indexOf`, `includes` and `replace`. For
  `replace`, the `$$`, `$&`, `` $` `` and `$'` patterns of the
  replacement are expanded as JavaScript does.
- `Patterns`: an instruction pattern as literal pieces and holes. Its text
  is the flat `systemPromptTemplate` string. The module proves where a
  placeholder can occur in that text.
- `Types`: the data model of `types.ts`.
- `Records`: `Record<string, ParamValue>` as an insertion-ordered list of
  entries, which is the order `Object.entries` visits them in.
- `Constants`: the registry, with its closure facts proved template by
  template.
- `GeminiService`: `getTemplateById`, `constructPrompt` (a loop proved
  against the fold `Compile`), the data-URL clean-up, the reply
  interpretation and `editImageWithGemini`.
- `App`: the state as a datatype, one function per handler, the session
  invariant and the lemmas about the handlers.
- `AppSession`: the component as a class whose fields are the state. Each
  handler is a method that assigns them. Each method is proved to perform
  its `App` transition and to keep the invariant.

The central results:

- Every handler keeps the invariant: the working image is
  `history[historyIndex]`, or the history is empty, the index is -1 and
  there is no working image.
- Apply truncates the redo branch.
- Undo and redo are inverse to each other.
- On registry templates, replacing first occurrences one key at a time
  fills each placeholder exactly once. The result does not depend on the
  order of the keys.
- Compiling a template against its own defaults leaves no placeholder.

## Model

| member | source | states |
|---|---|---|
| Strings.IndexOf | services/geminiService.ts:16 | the result is the first index where the pattern occurs, or -1 exactly when it occurs nowhere |
| Strings.Substitution | services/geminiService.ts:16 | a replacement without `$` is inserted literally |
| Strings.Replace | services/geminiService.ts:16 | with no occurrence the string is unchanged; otherwise only the first occurrence is replaced, and a `$`-free replacement is spliced in verbatim there |
| Strings.ReplaceInAbc | services/geminiService.ts:16 | `"abc".replace("b", r)` is `"a"`, the substitution of `r` for the match at index 1, then `"c"` |
| Strings.ReplaceMatched | services/geminiService.ts:16 | `$&` in the replacement stands for the matched text: `"abc".replace("b", "$&$&")` is `"abbc"` |
| Strings.ReplaceBefore | services/geminiService.ts:16 | `` $` `` stands for the text before the match: the result is `"aac"` |
| Strings.ReplaceAfter | services/geminiService.ts:16 | `$'` stands for the text after the match: the result is `"acc"` |
| Strings.ReplaceDollar | services/geminiService.ts:16 | `$$` stands for one `$`, and a `$` before another character or at the end stays: `"$$x$"` gives `"a$x$c"`, `"$1"` gives `"a$1c"` |
| Strings.SubstitutionMatched | services/geminiService.ts:16 | the replacement `$&$&` gives the matched text twice |
| Strings.SubstitutionBefore | services/geminiService.ts:16 | the replacement `` $` `` gives the text before the match |
| Strings.SubstitutionAfter | services/geminiService.ts:16 | the replacement `$'` gives the text after the match |
| Strings.SubstitutionDollar | services/geminiService.ts:16 | the replacement `$$x$` gives `$x$` |
| Strings.SubstitutionOther | services/geminiService.ts:16 | the replacement `$1` stays `$1`, since a string pattern has no capture groups |
| Strings.ReplaceBetween | services/geminiService.ts:16 | replacing `p` in `a + p + b`, when `a` contains no earlier occurrence of `p`, gives `a + r + b` |
| Patterns.HoleKeys | constants.ts:17-206 | a name is listed exactly when the pattern has a placeholder with that name |
| Patterns.OccurrenceIsHole | services/geminiService.ts:15 | every occurrence of `${k}` in a pattern's text is one of its placeholders for `k` (a `$` only starts a placeholder) |
| Patterns.PlaceholderOccurrences | services/geminiService.ts:15 | with distinct names, `${k}` occurs exactly at the hole named `k`, and nowhere when there is none |
| Patterns.OccursOnce | constants.ts:17-206 | with distinct names, `${k}` occurs in the text if and only if `k` is a placeholder name, and then at one index only |
| Patterns.ReplaceFills | services/geminiService.ts:15-16 | replacing `${k}` by a `$`-free text fills exactly the hole named `k` and leaves the text alone when there is none |
| Patterns.RenderComplete | services/geminiService.ts:14-17 | once every placeholder has a value, the rendered text contains no `$` |
| Patterns.SubstCompose | services/geminiService.ts:14-17 | filling two disjoint sets of names one after the other equals filling both at once |
| Patterns.InstructionKeys | types.ts:37 | the placeholder names of an instruction's text are its segment names, in order |
| Patterns.InstructionHolesDistinct | types.ts:37 | distinct segment names give a text with distinct placeholder names |
| Types.TemplateIdRoundTrip | types.ts:1-16 | every identifier's string value reads back as that identifier |
| Types.TemplateIdValuesDistinct | types.ts:1-16 | the twelve identifiers have pairwise distinct string values |
| Types.FindTemplate | services/geminiService.ts:6 | `find` answers nothing exactly when no entry has the id; otherwise it returns the first entry with the id |
| Types.FindDistinct | services/geminiService.ts:6 | when the ids are distinct, looking up any entry's id finds that entry |
| Types.PlaceholderOnce | constants.ts:17-206 | in a closed template, `${k}` occurs in the instruction if and only if `k` is a parameter id, and then exactly once |
| Records.Get | types.ts:51 | a key reads as a value exactly when it is a key of the record |
| Records.SetKeys | App.tsx:98-101 | `{...r, [k]: v}` keeps the key order when `k` is present and appends `k` otherwise |
| Records.SetGet | App.tsx:98-101 | after the spread, `k` reads as `v` and every other key reads as before |
| Records.SetEntries | App.tsx:98-101 | the spread adds `(k, v)` and otherwise only keeps entries |
| Records.SetKeepsKeysDistinct | App.tsx:98-101 | the spread keeps the keys distinct |
| Records.AsMapOfPermutation | services/geminiService.ts:14-17 | two records with the same entries in any order denote the same map |
| Constants.BgShipClosed | constants.ts:19-33 | the placeholders of the pattern are exactly the parameter ids, each named once |
| Constants.BgShipSound | constants.ts:19-33 | every slider default lies in its range, every select has options, and no text default holds `$` |
| Constants.BgBeachClosed | constants.ts:34-47 | the placeholders of the pattern are exactly the parameter ids, each named once |
| Constants.BgBeachSound | constants.ts:34-47 | slider defaults lie in range, selects have options, and text defaults are `$`-free |
| Constants.BgStadiumClosed | constants.ts:48-61 | the placeholders of the pattern are exactly the parameter ids, each named once |
| Constants.BgStadiumSound | constants.ts:48-61 | slider defaults lie in range, selects have options, and text defaults are `$`-free |
| Constants.BgNeonClosed | constants.ts:62-75 | the placeholders of the pattern are exactly the parameter ids, each named once |
| Constants.BgNeonSound | constants.ts:62-75 | slider defaults lie in range, selects have options, and text defaults are `$`-free |
| Constants.BgForestClosed | constants.ts:76-90 | the placeholders of the pattern are exactly the parameter ids, each named once |
| Constants.BgForestSound | constants.ts:76-90 | slider defaults lie in range, selects have options, and text defaults are `$`-free |
| Constants.CustomClosed | constants.ts:93-102 | the single placeholder is the single parameter id |
| Constants.CustomSound | constants.ts:93-102 | the text default is `$`-free |
| Constants.BackgroundChangeNames | constants.ts:103-135 | the pattern's placeholder names and the schema's ids, in their orders |
| Constants.BackgroundChangeClosed | constants.ts:103-135 | the seven placeholders are exactly the seven parameter ids, each named once |
| Constants.BackgroundChangeSound | constants.ts:103-135 | the opacity default 0.5 lies in [0.1, 1], every select has options, and text defaults are `$`-free |
| Constants.PortraitRetouchClosed | constants.ts:136-146 | the placeholders of the pattern are exactly the parameter ids, each named once |
| Constants.PortraitRetouchSound | constants.ts:136-146 | both slider defaults lie in [0, 1] |
| Constants.MakeupFilterClosed | constants.ts:147-158 | the placeholders of the pattern are exactly the parameter ids, each named once |
| Constants.MakeupFilterSound | constants.ts:147-158 | slider defaults lie in range, selects have options, and text defaults are `$`-free |
| Constants.ArtisticStyleClosed | constants.ts:159-174 | the placeholders of the pattern are exactly the parameter ids, each named once |
| Constants.ArtisticStyleSound | constants.ts:159-174 | slider defaults lie in range, selects have options, and text defaults are `$`-free |
| Constants.ObjectRemoveClosed | constants.ts:175-188 | the placeholders of the pattern are exactly the parameter ids, each named once |
| Constants.ObjectRemoveSound | constants.ts:175-188 | slider defaults lie in range, selects have options, and text defaults are `$`-free |
| Constants.AddStickerClosed | constants.ts:189-205 | the placeholders of the pattern are exactly the parameter ids, each named once |
| Constants.AddStickerSound | constants.ts:189-205 | slider defaults lie in range, selects have options, and text defaults are `$`-free |
| Constants.SlotFinds | constants.ts:17-206 | every identifier has an entry in the registry, at its own position |
| Constants.SlotOfEntry | constants.ts:17-206 | every registry entry sits at the position of its identifier |
| Constants.TemplateIdsDistinct | constants.ts:17-206 | the registry has twelve entries with pairwise distinct ids |
| Constants.TemplateClosed | constants.ts:17-206 | every template is closed and its schema is sound |
| Constants.RegistryClosed | constants.ts:17-206 | every entry of the registry is closed and sound |
| Constants.LookupSucceeds | constants.ts:17-206 | `find` on the registry succeeds for every identifier |
| GeminiService.GetTemplateById | services/geminiService.ts:5-7 | the lookup always succeeds, with the entry whose id was asked for |
| GeminiService.ConstructPrompt | services/geminiService.ts:10-20 | the loop computes the fold `Compile` of replacements over the entries, in entry order |
| GeminiService.CompileSkipsAbsent | services/geminiService.ts:14-17 | an entry whose `${key}` does not occur changes nothing |
| GeminiService.CompileRenders | services/geminiService.ts:10-20 | with distinct placeholder names and `$`-free values, the sequence of first-occurrence replacements equals filling every named placeholder at once |
| GeminiService.CompileOrderFree | services/geminiService.ts:14-17 | with distinct keys and `$`-free values, the order of the entries does not matter |
| GeminiService.UnfilledStays | services/geminiService.ts:14-17 | a placeholder without an entry stays verbatim in the prompt |
| GeminiService.CompileComplete | services/geminiService.ts:14-17 | when every placeholder has an entry, no `$` is left in the prompt |
| GeminiService.RegistryPrompt | services/geminiService.ts:34-40 | for every registry template, the compiled prompt is its instruction with the entries filled in |
| GeminiService.Split | services/geminiService.ts:43 | `split` gives at least one part, and no part contains the separator |
| GeminiService.JoinSplit | services/geminiService.ts:43 | joining the parts of a split with the separator gives the string back |
| GeminiService.SplitJoin | services/geminiService.ts:43 | splitting joined separator-free parts gives the parts back |
| GeminiService.StripNoComma | services/geminiService.ts:43 | an image with no comma is sent unchanged |
| GeminiService.StripPrefix | services/geminiService.ts:43 | `prefix,data` with non-empty, comma-free `data` sends `data` |
| GeminiService.StripEmptyField | services/geminiService.ts:43 | an empty field after the first comma falls back to the whole input |
| GeminiService.StripIsField | services/geminiService.ts:43 | what is sent is the whole input or the text between its first and second comma |
| GeminiService.FirstImage | services/geminiService.ts:74 | the first part that has image data, or none when no part has it |
| GeminiService.FirstText | services/geminiService.ts:80 | the first part with non-empty text, or none when no part has it |
| GeminiService.Interpret | services/geminiService.ts:67-85 | missing parts give "No content generated."; the reply succeeds exactly when some part has image data, and then yields the data URL of the first such part |
| GeminiService.InterpretNoImage | services/geminiService.ts:76-85 | without an image part, the first text part gives "Model declined to generate image: …", and otherwise "No image data found in response." |
| GeminiService.EditImage | services/geminiService.ts:22-91 | a missing or empty key fails with the missing-key message before anything else; otherwise the request holds the registry template's compiled prompt plus the suffix and the cleaned image, a thrown error passes through, and a reply is interpreted |
| GeminiService.MissingKeyNamesKey | services/geminiService.ts:30 | the missing-key message contains "API Key" |
| App.GetDefaultParams | App.tsx:44-51 | the method computes `DefaultParams`: the found template's defaults, or `{}` |
| App.FillDefaults | App.tsx:47-50 | the `reduce` loop assigns every default in schema order |
| App.DefaultsKeys | App.tsx:47-50 | filling keeps the earlier keys first, appends the parameter ids in order, and keeps the keys distinct |
| App.DefaultsGet | App.tsx:47-50 | with distinct ids, every parameter reads as its default afterwards |
| App.DefaultsKeepEarlier | App.tsx:47-50 | a key that no parameter sets keeps its value |
| App.TemplateDefaults | App.tsx:44-51 | a template's defaults are exactly its parameter ids, in order, each mapped to its default |
| App.DefaultParamsSpec | App.tsx:44-51 | for every identifier, the defaults are exactly the registry template's parameter ids, each mapped to its default |
| App.DefaultsFillTemplate | App.tsx:86-93 | compiling a closed, sound template against its own defaults leaves no `$` |
| App.DefaultPromptComplete | App.tsx:86-93 | right after a template is selected, its prompt compiles without leftover placeholders |
| App.InitialInv | App.tsx:54-65 | the initial state satisfies the invariant and holds the custom template's defaults |
| App.ApplyInv | App.tsx:185-198 | apply keeps `history[0..index]`, appends the preview, moves the cursor to the new tail, shows the preview as the working image and leaves nothing to redo |
| App.StepInv | App.tsx:86-254 | every handler keeps the session invariant |
| App.RunInv | App.tsx:86-254 | every sequence of handler calls keeps the session invariant |
| App.DefaultsDistinct | App.tsx:44-51 | the defaults of every template have distinct keys |
| App.InitialDistinct | App.tsx:54-65 | the initial parameter values have distinct keys |
| App.StepDistinct | App.tsx:86-103 | every handler keeps the keys of the parameter values distinct, as an object's keys are |
| App.RunDistinct | App.tsx:86-254 | every sequence of handler calls keeps both the invariant and the distinct keys |
| App.DefaultParamsPlain | App.tsx:44-51 | when numbers render without `$`, every template's defaults have `}`-free keys and `$`-free texts |
| App.StepPlain | App.tsx:86-103 | every handler keeps the parameter values plain, provided a changed value is plain |
| App.RunPlain | App.tsx:86-254 | every sequence of handler calls whose changed values are plain keeps the parameter values plain, so `GenerateRequest` applies to every state such a run reaches |
| App.UndoSpec | App.tsx:128-139 | undo at index > 0 moves to index-1, shows `history[index-1]` and clears the preview and the error; at 0 it does nothing |
| App.RedoSpec | App.tsx:141-152 | redo below the last index moves to index+1, shows `history[index+1]` and clears the preview and the error; at the end it does nothing |
| App.KUndos | App.tsx:128-139 | after `k` undos the cursor is `max(index - k, 0)`, the working image is the snapshot there, and the history is unchanged |
| App.NoRedoUntilUndo | App.tsx:141-152 | once there is nothing to redo (as right after an apply), no sequence of handler calls without an undo makes redo possible |
| App.UndoRedoInverse | App.tsx:128-152 | redo after undo, and undo after redo, restore the state except for the cleared preview and error |
| App.UndoAfterApply | App.tsx:128-198 | undo right after apply brings back the previous working image and cursor |
| App.ApplyExample | App.tsx:185-198 | `[A,B,C]` at index 1 with preview `D` becomes `[A,B,D]` at index 2 |
| App.ApplyNeedsPreview | App.tsx:185-205 | apply without a preview does nothing, and after a discard it always does nothing |
| App.LoadIsUpload | App.tsx:245-254 | loading a library item is uploading its image, except that the error is kept |
| App.ClearEmpties | App.tsx:117-126 | clear empties the session, and undo and redo do nothing after it |
| App.SelectTemplateSpec | App.tsx:86-93 | selecting a template sets exactly its parameter ids to their defaults and clears the error; the images and the history stay |
| App.ChangeParamSpec | App.tsx:95-103 | a parameter change sets the one key and leaves every other key reading as before |
| App.FinishSpec | App.tsx:166-180 | the answer lowers the processing flag; success sets the preview, and failure sets the error message; the history and the working image stay |
| App.GenerateKeepsHistory | App.tsx:154-182 | generation never changes the history, the cursor or the working image, and without a working image it does nothing |
| App.GenerateWithoutKey | App.tsx:171-180 | without an API key, the error shown is "API Key not found…" |
| App.ErrorMessageSpec | App.tsx:172-174 | an Error's own message is shown unless it mentions "API Key"; anything else thrown gets the generic text; any thrown value whose message mentions "API Key" shows "API Key not found…" |
| App.GenerateRequest | App.tsx:154-182 | with a working image, a key and plain values with distinct keys, generate sends the cleaned image and the selected template's instruction rendered with the values plus the fixed suffix, and records the answer |
| App.AddToLibrarySpec | App.tsx:220-236 | saving prepends one item holding the preview, or else the working image, and switches to the library; with no image it does nothing |
| App.SaveKind | App.tsx:424 | the toolbar saves a preview as 'saved' and a bare working image as 'draft' |
| App.WithoutIdMembers | App.tsx:238-243 | delete keeps exactly the items with another id |
| App.WithoutIdAppend | App.tsx:241 | delete works piece by piece, so it keeps the order of the remaining items |
| App.KindsPartition | App.tsx:260-261 | drafts and saved items split the library: their counts add up and their multisets sum to the library's |
| App.OfKindMembers | App.tsx:260-261 | the items listed under a kind are exactly the library items of that kind |
| AppSession.Session.constructor | App.tsx:54-65 | the session starts in the initial state |
| AppSession.Session.HandleTemplateSelect | App.tsx:86-93 | performs the template-select transition and keeps the invariant, with the defaults' keys distinct |
| AppSession.Session.HandleParamChange | App.tsx:95-103 | performs the parameter-change transition and keeps the invariant, with the keys still distinct |
| AppSession.Session.HandleImageSelect | App.tsx:105-115 | performs the upload transition and keeps the invariant |
| AppSession.Session.HandleClear | App.tsx:117-126 | performs the clear transition and keeps the invariant |
| AppSession.Session.HandleUndo | App.tsx:128-139 | performs the undo transition and keeps the invariant |
| AppSession.Session.HandleRedo | App.tsx:141-152 | performs the redo transition and keeps the invariant |
| AppSession.Session.BeginGenerate | App.tsx:155-157 | with a working image, raises the processing flag and clears the error |
| AppSession.Session.FinishGenerate | App.tsx:166-180 | records the service's answer and keeps the invariant |
| AppSession.Session.HandleGenerate | App.tsx:154-182 | the two updates around the service call make up the generate transition |
| AppSession.Session.HandleApplyChanges | App.tsx:185-198 | performs apply, keeps the invariant, and leaves nothing to redo |
| AppSession.Session.HandleDiscardChanges | App.tsx:200-205 | drops the preview only |
| AppSession.Session.AddToLibrary | App.tsx:220-236 | performs the library-add transition and keeps the invariant |
| AppSession.Session.DeleteFromLibrary | App.tsx:238-243 | performs the library-delete transition and keeps the invariant |
| AppSession.Session.LoadFromLibrary | App.tsx:245-254 | performs the library-load transition and keeps the invariant |
| AppSession.Session.ToggleView | App.tsx:409 | switches between the editor and the library |
| AppSession.Session.ShowEditor | App.tsx:470 | switches to the editor |

## Left out

- Rendering is not modelled. This covers the JSX of App.tsx and the
  components `TemplateSelector`, `ParameterControls` and `ImageUploader`,
  along with the upload size guard and the display fallbacks. The disabled
  states of buttons are not modelled either. The handlers do not check
  `isProcessing`, so the model does not rely on them.
- The download of the current image (App.tsx:207-217) is left out. It
  only touches the DOM.
- `localStorage` persistence of the library (App.tsx:67-84) is left out.
  The library is an in-memory list.
- The network is not modelled. The SDK call becomes the function parameter
  `generate`, and the `process.env` read becomes the optional parameter
  `apiKey`. The `catch` that logs and rethrows (services/geminiService.ts:87-90)
  is the pass-through of `generate`'s failure.
- `Date.now()` is not modelled. The library item's id and timestamp are
  parameters of the add operation, and id collisions are outside the model.
- Floating point is not modelled. `String(number)` is the function
  parameter `numText`. Numbers are `real`s: the registry's slider ranges
  and defaults, and numeric values of the session, which reach the prompt
  only through `numText`.
- The JavaScript event loop is not modelled. `handleGenerate` is a start
  update and a finish update (`BeginGenerate`, `FinishGenerate`, and the
  events `GenerationStarted`/`GenerationFinished` of `App.Run`). Any other
  handler may run between them. `Generate` and `HandleGenerate` describe
  the run in which nothing intervenes. Every handler reads one state, the
  one it acts on. In the source several handlers read parts of the
  rendered `state` instead, which equals that state unless updates are
  still pending: undo and redo read the history index,
  `handleApplyChanges` tests `state.generatedImage` (App.tsx:186) but
  appends `prev.generatedImage` (App.tsx:189), `addToLibrary` takes its
  image from `state` (App.tsx:221), and `handleGenerate` takes its guard
  and its request inputs from `state` (App.tsx:155, 160-164).
- A thrown value that is `null` or `undefined` makes the source's
  `err.message` throw again. Such a value is not modelled: a thrown value
  is an `Error` or an object with an optional `message`.
- `Object.entries` lists integer-like keys first, in ascending order. The
  model keeps plain insertion order, which is what it does for the
  registry's parameter ids, none of which is integer-like.
- GeminiService.CompileRenders: the theorems about compiling
  (`CompileRenders`, `CompileOrderFree`, `UnfilledStays`,
  `CompileComplete`) assume `}`-free keys and `$`-free value texts.
  `Compile` itself expands `$`-patterns as `replace` does, but nothing is
  proved about a value that contains `$`. `App.RunPlain` carries plainness through a
  session only when every value the user types in is plain; that is left
  to the caller.
- The instruction patterns are stored as literal pieces and named holes.
  Splitting a literal into several pieces is only how it is written down.
  The text sent is their concatenation, the same string as the source's
  template literal.
- Select defaults are not claimed to be among their options. Several are
  not, for example the lighting default of the ship scene.
- The "Invalid Template ID" failure (services/geminiService.ts:36-38) is
  kept in the body of `EditImage` but is dead in the model.
  A template id is one of the twelve identifiers, and
  `Constants.LookupSucceeds` proves that each one finds its template.
- `undefined` is `None` wherever the source can read it: `history[i]`
  outside the history, the optional fields of a reply, and a lookup miss.
