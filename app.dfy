/**
 * The edit session of the editor. Every handler of the editor is a
 * transition from the previous state to the next one; this module gives each
 * as a function on `AppState` and proves what the handlers keep and change.
 * The session object that holds the state and runs the handlers is in
 * module `AppSession`.
 */
module App {
  import opened Wrappers
  import opened Strings
  import opened Patterns
  import opened Types
  import opened Records
  import Constants
  import GeminiService

  const InitialTemplate := Custom
  const KeyNotFoundMessage := "API Key not found. Please verify your environment configuration."
  const UnexpectedMessage := "An unexpected error occurred."

  /**
   * The editor's state. `originalImage` is the working image and
   * `generatedImage` the preview of the latest edit; `history` holds the
   * successive working images and `historyIndex` the current position in it.
   */
  datatype AppState = AppState(
    originalImage: Option<string>,
    generatedImage: Option<string>,
    selectedTemplateId: TemplateId,
    paramValues: Record,
    isProcessing: bool,
    error: Option<string>,
    history: seq<string>,
    historyIndex: int,
    library: seq<LibraryItem>,
    viewMode: ViewMode)

  /**
   * The session invariant: either there is no history, the index is -1 and
   * there is no working image, or the index is a position of the history
   * and the working image is the image stored there.
   */
  predicate Inv(s: AppState) {
    || (s.history == [] && s.historyIndex == -1 && s.originalImage.None?)
    || (0 <= s.historyIndex < |s.history| && s.originalImage == Some(s.history[s.historyIndex]))
  }

  // ---------------------------------------------------------------------------
  // Default parameter values
  // ---------------------------------------------------------------------------

  /** Assign each parameter's default in turn, starting from `acc`. */
  function DefaultsFrom(acc: Record, ps: seq<TemplateParam>): Record
    decreases |ps|
  {
    if ps == [] then acc else DefaultsFrom(Set(acc, ps[0].id, ps[0].defaultValue), ps[1..])
  }

  /** `getDefaultParams`: the template's parameter ids mapped to their defaults; `{}` for an unknown id. */
  function DefaultParams(id: TemplateId): Record {
    match FindTemplate(Constants.TEMPLATES, id)
    case None => []
    case Some(t) => DefaultsFrom([], t.params)
  }

  /** `getDefaultParams`: look the template up, then fill in its defaults. */
  method GetDefaultParams(id: TemplateId) returns (acc: Record)
    ensures acc == DefaultParams(id)
  {
    var found := FindTemplate(Constants.TEMPLATES, id);
    if found.None? {
      return [];
    }
    acc := FillDefaults(found.value.params);
  }

  /** The `reduce` of `getDefaultParams`, as the loop that assigns each default into the accumulator. */
  method FillDefaults(ps: seq<TemplateParam>) returns (acc: Record)
    ensures acc == DefaultsFrom([], ps)
  {
    acc := [];
    var i := 0;
    while i < |ps|
      invariant 0 <= i <= |ps|
      invariant DefaultsFrom(acc, ps[i..]) == DefaultsFrom([], ps)
    {
      assert ps[i..][1..] == ps[i + 1..];
      acc := Set(acc, ps[i].id, ps[i].defaultValue);
      i := i + 1;
    }
  }

  /**
   * Filling defaults into a record with distinct keys keeps its keys first,
   * appends the parameter ids in order, and keeps the keys distinct.
   */
  lemma {:induction false} DefaultsKeys(acc: Record, ps: seq<TemplateParam>)
    requires DistinctKeys(acc) && DistinctParamIds(ps)
    requires forall i :: 0 <= i < |ps| ==> ps[i].id !in Records.Keys(acc)
    ensures Records.Keys(DefaultsFrom(acc, ps)) == Records.Keys(acc) + ParamIds(ps)
    ensures DistinctKeys(DefaultsFrom(acc, ps))
    decreases |ps|
  {
    if ps != [] {
      var acc' := Set(acc, ps[0].id, ps[0].defaultValue);
      SetKeys(acc, ps[0].id, ps[0].defaultValue);
      SetKeepsKeysDistinct(acc, ps[0].id, ps[0].defaultValue);
      assert forall i :: 0 <= i < |ps[1..]| ==> ps[1..][i] == ps[i + 1];
      DefaultsKeys(acc', ps[1..]);
      assert ParamIds(ps) == [ps[0].id] + ParamIds(ps[1..]);
    }
  }

  /** With distinct parameter ids, each parameter reads as its default once the defaults are filled in. */
  lemma {:induction false} DefaultsGet(acc: Record, ps: seq<TemplateParam>, i: nat)
    requires DistinctParamIds(ps) && i < |ps|
    ensures Get(DefaultsFrom(acc, ps), ps[i].id) == Some(ps[i].defaultValue)
    decreases |ps|
  {
    var acc' := Set(acc, ps[0].id, ps[0].defaultValue);
    if i == 0 {
      SetGet(acc, ps[0].id, ps[0].defaultValue);
      assert ps[0].id !in ParamIds(ps[1..]);
      DefaultsKeepEarlier(acc', ps[1..], ps[0].id);
    } else {
      assert ps[1..][i - 1] == ps[i];
      DefaultsGet(acc', ps[1..], i - 1);
    }
  }

  /** A key no parameter sets keeps its value. */
  lemma {:induction false} DefaultsKeepEarlier(acc: Record, ps: seq<TemplateParam>, k: string)
    requires k !in ParamIds(ps)
    ensures Get(DefaultsFrom(acc, ps), k) == Get(acc, k)
    decreases |ps|
  {
    if ps != [] {
      SetGet(acc, ps[0].id, ps[0].defaultValue);
      assert ParamIds(ps) == [ps[0].id] + ParamIds(ps[1..]);
      DefaultsKeepEarlier(Set(acc, ps[0].id, ps[0].defaultValue), ps[1..], k);
    }
  }

  /** The defaults of a template with distinct parameter ids are exactly those ids, in schema order, each with its default. */
  lemma TemplateDefaults(t: EditTemplate)
    requires DistinctParamIds(t.params)
    ensures Records.Keys(DefaultsFrom([], t.params)) == ParamIds(t.params) && DistinctKeys(DefaultsFrom([], t.params))
    ensures forall i :: 0 <= i < |t.params| ==> Get(DefaultsFrom([], t.params), t.params[i].id) == Some(t.params[i].defaultValue)
  {
    DefaultsKeys([], t.params);
    assert Records.Keys([]) == [];
    forall i | 0 <= i < |t.params| ensures Get(DefaultsFrom([], t.params), t.params[i].id) == Some(t.params[i].defaultValue) {
      DefaultsGet([], t.params, i);
    }
  }

  /** The defaults of every registry template are its parameter ids, in schema order, each with its default. */
  lemma DefaultParamsSpec(id: TemplateId)
    ensures var t := Constants.TemplateOf(id);
      Records.Keys(DefaultParams(id)) == ParamIds(t.params) && DistinctKeys(DefaultParams(id)) &&
      forall i :: 0 <= i < |t.params| ==> Get(DefaultParams(id), t.params[i].id) == Some(t.params[i].defaultValue)
  {
    Constants.LookupSucceeds(id);
    Constants.TemplateClosed(id);
    TemplateDefaults(Constants.TemplateOf(id));
  }

  /**
   * Compiling a closed template with sound defaults against those defaults
   * fills every placeholder: no `$` is left, given that numbers render
   * without `$`.
   */
  lemma DefaultsFillTemplate(t: EditTemplate, numText: real -> string)
    requires Closed(t) && SchemaSound(t)
    requires forall x :: '$' !in numText(x)
    ensures '$' !in GeminiService.Compile(t.SystemPromptTemplate(), DefaultsFrom([], t.params), numText)
  {
    var d := DefaultsFrom([], t.params);
    TemplateDefaults(t);
    DefaultsPlain(t, numText);
    InstructionHolesDistinct(t.instruction);
    InstructionKeys(t.instruction);
    assert forall k :: k in HoleKeys(Pieces(t.instruction)) ==> k in Records.Keys(d);
    GeminiService.CompileComplete(Pieces(t.instruction), d, numText);
  }

  /** Filling in plain defaults keeps a plain record plain. */
  lemma {:induction false} DefaultsKeepPlain(acc: Record, ps: seq<TemplateParam>, numText: real -> string)
    requires GeminiService.Plain(acc, numText)
    requires forall p :: p in ps ==> '}' !in p.id && '$' !in GeminiService.ValueText(p.defaultValue, numText)
    ensures GeminiService.Plain(DefaultsFrom(acc, ps), numText)
    decreases |ps|
  {
    if ps != [] {
      SetEntries(acc, ps[0].id, ps[0].defaultValue);
      assert ps[0] in ps;
      DefaultsKeepPlain(Set(acc, ps[0].id, ps[0].defaultValue), ps[1..], numText);
    }
  }

  /** The defaults of a closed, sound template are plain: `}`-free keys and `$`-free texts. */
  lemma DefaultsPlain(t: EditTemplate, numText: real -> string)
    requires Closed(t) && SchemaSound(t)
    requires forall x :: '$' !in numText(x)
    ensures GeminiService.Plain(DefaultsFrom([], t.params), numText)
  {
    forall p | p in t.params ensures '}' !in p.id && '$' !in GeminiService.ValueText(p.defaultValue, numText) {
      var i :| 0 <= i < |t.params| && t.params[i] == p;
      assert p.id == ParamIds(t.params)[i];
      assert p.id in Patterns.Keys(t.instruction);
      var n: Name :| n in Patterns.Keys(t.instruction) && n == p.id;
    }
    DefaultsKeepPlain([], t.params, numText);
  }

  /** For every registry template, compiling against its defaults leaves no placeholder. */
  lemma DefaultPromptComplete(id: TemplateId, numText: real -> string)
    requires forall x :: '$' !in numText(x)
    ensures '$' !in GeminiService.Compile(Constants.TemplateOf(id).SystemPromptTemplate(), DefaultParams(id), numText)
  {
    Constants.LookupSucceeds(id);
    Constants.TemplateClosed(id);
    DefaultsFillTemplate(Constants.TemplateOf(id), numText);
  }

  // ---------------------------------------------------------------------------
  // The initial state and the handlers
  // ---------------------------------------------------------------------------

  /** The state the editor starts in: the custom template with its defaults, nothing loaded. */
  function Initial(): AppState {
    AppState(None, None, InitialTemplate, DefaultParams(InitialTemplate), false, None, [], -1, [], Editor)
  }

  /** `history[i]`, which is `undefined` outside the history. */
  function At(history: seq<string>, i: int): Option<string> {
    if 0 <= i < |history| then Some(history[i]) else None
  }

  /** `history.slice(0, end)`; a negative end counts from the back. */
  function SliceTo(history: seq<string>, end: int): seq<string> {
    var e := if end < 0 then (if |history| + end < 0 then 0 else |history| + end)
             else if end > |history| then |history| else end;
    history[..e]
  }

  /** `handleTemplateSelect`. */
  function SelectTemplate(s: AppState, id: TemplateId): AppState {
    s.(selectedTemplateId := id, paramValues := DefaultParams(id), error := None)
  }

  /** `handleParamChange`. */
  function ChangeParam(s: AppState, key: string, value: ParamValue): AppState {
    s.(paramValues := Set(s.paramValues, key, value))
  }

  /** `handleImageSelect`: a new upload starts a fresh history. */
  function SelectImage(s: AppState, image: string): AppState {
    s.(originalImage := Some(image), generatedImage := None, error := None,
       history := [image], historyIndex := 0, viewMode := Editor)
  }

  /** `handleClear`. */
  function Clear(s: AppState): AppState {
    s.(originalImage := None, generatedImage := None, error := None, history := [], historyIndex := -1)
  }

  predicate CanUndo(s: AppState) {
    s.historyIndex > 0
  }

  predicate CanRedo(s: AppState) {
    s.historyIndex < |s.history| - 1
  }

  /** `handleUndo`. */
  function Undo(s: AppState): AppState {
    if !CanUndo(s) then s
    else
      var i := s.historyIndex - 1;
      s.(historyIndex := i, originalImage := At(s.history, i), generatedImage := None, error := None)
  }

  /** `handleRedo`. */
  function Redo(s: AppState): AppState {
    if !CanRedo(s) then s
    else
      var i := s.historyIndex + 1;
      s.(historyIndex := i, originalImage := At(s.history, i), generatedImage := None, error := None)
  }

  /** The first half of `handleGenerate`, before the service is awaited. */
  function StartGeneration(s: AppState): AppState {
    if !Truthy(s.originalImage) then s else s.(isProcessing := true, error := None)
  }

  /** The message the editor shows for what the service threw. */
  function ErrorMessage(e: GeminiService.Thrown): string {
    var fallback := if e.ErrorValue? then e.message else UnexpectedMessage;
    var message := if e.ErrorValue? then Some(e.message) else e.field;
    if message.Some? && Includes(message.value, GeminiService.KeyMarker) then KeyNotFoundMessage else fallback
  }

  /** The second half of `handleGenerate`, once the service has answered. */
  function FinishGeneration(s: AppState, outcome: Result<string, GeminiService.Thrown>): AppState {
    match outcome
    case Success(image) => s.(generatedImage := Some(image), isProcessing := false)
    case Failure(e) => s.(error := Some(ErrorMessage(e)), isProcessing := false)
  }

  /** `handleGenerate` when nothing else happens while the service is awaited. */
  function Generate(
    s: AppState, apiKey: Option<string>, numText: real -> string,
    generate: (string, GeminiService.Request) -> Result<GeminiService.Reply, GeminiService.Thrown>): AppState
  {
    if !Truthy(s.originalImage) then s
    else
      var outcome := GeminiService.EditImage(apiKey, s.originalImage.value, s.selectedTemplateId, s.paramValues, numText, generate);
      FinishGeneration(StartGeneration(s), outcome)
  }

  /** `handleApplyChanges`: the preview becomes the working image, dropping any redo branch. */
  function Apply(s: AppState): AppState {
    if !Truthy(s.generatedImage) then s
    else
      var history := SliceTo(s.history, s.historyIndex + 1) + [s.generatedImage.value];
      s.(history := history, historyIndex := |history| - 1, originalImage := s.generatedImage, generatedImage := None)
  }

  /** `handleDiscardChanges`. */
  function Discard(s: AppState): AppState {
    s.(generatedImage := None)
  }

  /** `addToLibrary`: the preview if there is one, else the working image, goes first in the library. */
  function AddToLibrary(s: AppState, kind: ItemKind, id: string, timestamp: int): AppState {
    var image := if Truthy(s.generatedImage) then s.generatedImage else s.originalImage;
    if !Truthy(image) then s
    else s.(library := [LibraryItem(id, kind, image.value, timestamp)] + s.library, viewMode := Library)
  }

  /** The toolbar's save button: a preview is saved as 'saved', a working image as 'draft'. */
  function SaveFromToolbar(s: AppState, id: string, timestamp: int): AppState {
    AddToLibrary(s, if Truthy(s.generatedImage) then Saved else Draft, id, timestamp)
  }

  /** The items whose id differs from `id`, in order. */
  function WithoutId(items: seq<LibraryItem>, id: string): seq<LibraryItem> {
    if items == [] then []
    else (if items[0].id != id then [items[0]] else []) + WithoutId(items[1..], id)
  }

  /** `deleteFromLibrary`. */
  function DeleteFromLibrary(s: AppState, id: string): AppState {
    s.(library := WithoutId(s.library, id))
  }

  /** `loadFromLibrary`: like an upload of the item's image, but the error is left as it is. */
  function LoadFromLibrary(s: AppState, item: LibraryItem): AppState {
    s.(originalImage := Some(item.imageData), generatedImage := None,
       history := [item.imageData], historyIndex := 0, viewMode := Editor)
  }

  /** The header's view toggle. */
  function ToggleView(s: AppState): AppState {
    s.(viewMode := if s.viewMode == Editor then Library else Editor)
  }

  /** The library's "back to editor" button. */
  function ShowEditor(s: AppState): AppState {
    s.(viewMode := Editor)
  }

  /** The library items of one kind, in library order. */
  function OfKind(items: seq<LibraryItem>, kind: ItemKind): seq<LibraryItem> {
    if items == [] then []
    else (if items[0].kind == kind then [items[0]] else []) + OfKind(items[1..], kind)
  }

  // ---------------------------------------------------------------------------
  // Runs of events
  // ---------------------------------------------------------------------------

  /** Everything that can happen to the session; generation starts and finishes as two events. */
  datatype Event =
    | TemplateSelected(id: TemplateId)
    | ParamChanged(key: string, value: ParamValue)
    | ImageSelected(image: string)
    | Cleared
    | Undone
    | Redone
    | GenerationStarted
    | GenerationFinished(outcome: Result<string, GeminiService.Thrown>)
    | Applied
    | Discarded
    | AddedToLibrary(kind: ItemKind, itemId: string, timestamp: int)
    | DeletedFromLibrary(deletedId: string)
    | LoadedFromLibrary(item: LibraryItem)
    | ViewToggled
    | EditorShown

  function Step(s: AppState, e: Event): AppState {
    match e
    case TemplateSelected(id) => SelectTemplate(s, id)
    case ParamChanged(k, v) => ChangeParam(s, k, v)
    case ImageSelected(image) => SelectImage(s, image)
    case Cleared => Clear(s)
    case Undone => Undo(s)
    case Redone => Redo(s)
    case GenerationStarted => StartGeneration(s)
    case GenerationFinished(outcome) => FinishGeneration(s, outcome)
    case Applied => Apply(s)
    case Discarded => Discard(s)
    case AddedToLibrary(kind, id, t) => AddToLibrary(s, kind, id, t)
    case DeletedFromLibrary(id) => DeleteFromLibrary(s, id)
    case LoadedFromLibrary(item) => LoadFromLibrary(s, item)
    case ViewToggled => ToggleView(s)
    case EditorShown => ShowEditor(s)
  }

  function Run(s: AppState, events: seq<Event>): AppState
    decreases |events|
  {
    if events == [] then s else Run(Step(s, events[0]), events[1..])
  }

  // ---------------------------------------------------------------------------
  // Properties
  // ---------------------------------------------------------------------------

  /** The editor starts in the invariant, with the custom template's defaults. */
  lemma InitialInv()
    ensures Inv(Initial())
    ensures Initial().history == [] && Initial().paramValues == DefaultParams(Custom)
  {
  }

  /** Applying a preview keeps the history up to the current position and appends the preview as the new tail. */
  lemma ApplyInv(s: AppState)
    requires Inv(s) && Truthy(s.generatedImage)
    ensures Apply(s).history == s.history[..s.historyIndex + 1] + [s.generatedImage.value]
    ensures Apply(s).historyIndex == s.historyIndex + 1
    ensures Apply(s).originalImage == s.generatedImage && Apply(s).generatedImage.None?
    ensures Inv(Apply(s)) && !CanRedo(Apply(s))
  {
  }

  /** Every handler keeps the invariant. */
  lemma StepInv(s: AppState, e: Event)
    requires Inv(s)
    ensures Inv(Step(s, e))
  {
    if e.Applied? && Truthy(s.generatedImage) {
      ApplyInv(s);
    }
  }

  /** Every run from the initial state, in any order of events, keeps the invariant. */
  lemma {:induction false} RunInv(s: AppState, events: seq<Event>)
    requires Inv(s)
    ensures Inv(Run(s, events))
    decreases |events|
  {
    if events != [] {
      StepInv(s, events[0]);
      RunInv(Step(s, events[0]), events[1..]);
    }
  }

  /** The defaults of any template have distinct keys. */
  lemma DefaultsDistinct(id: TemplateId)
    ensures DistinctKeys(DefaultParams(id))
  {
    DefaultParamsSpec(id);
  }

  /** The editor starts with parameter values that have distinct keys. */
  lemma InitialDistinct()
    ensures DistinctKeys(Initial().paramValues)
  {
    DefaultsDistinct(InitialTemplate);
  }

  /** Every handler keeps the keys of the parameter values distinct, as the keys of a JavaScript object are. */
  lemma StepDistinct(s: AppState, e: Event)
    requires DistinctKeys(s.paramValues)
    ensures DistinctKeys(Step(s, e).paramValues)
  {
    match e
    case TemplateSelected(id) => DefaultsDistinct(id);
    case ParamChanged(k, v) => SetKeepsKeysDistinct(s.paramValues, k, v);
    case _ =>
  }

  /** Every run keeps both the invariant and the distinct keys of the parameter values. */
  lemma {:induction false} RunDistinct(s: AppState, events: seq<Event>)
    requires Inv(s) && DistinctKeys(s.paramValues)
    ensures Inv(Run(s, events)) && DistinctKeys(Run(s, events).paramValues)
    decreases |events|
  {
    if events != [] {
      StepInv(s, events[0]);
      StepDistinct(s, events[0]);
      RunDistinct(Step(s, events[0]), events[1..]);
    }
  }

  /** An event brings in only plain text: a changed value has a `}`-free key and a `$`-free text. */
  predicate PlainEvent(e: Event, numText: real -> string) {
    e.ParamChanged? ==> '}' !in e.key && '$' !in GeminiService.ValueText(e.value, numText)
  }

  /** The defaults of every registry template are plain, given that numbers render without `$`. */
  lemma DefaultParamsPlain(id: TemplateId, numText: real -> string)
    requires forall x :: '$' !in numText(x)
    ensures GeminiService.Plain(DefaultParams(id), numText)
  {
    Constants.LookupSucceeds(id);
    Constants.TemplateClosed(id);
    DefaultsPlain(Constants.TemplateOf(id), numText);
  }

  /** Every handler keeps the parameter values plain, as long as the values typed in are plain. */
  lemma StepPlain(s: AppState, e: Event, numText: real -> string)
    requires forall x :: '$' !in numText(x)
    requires GeminiService.Plain(s.paramValues, numText) && PlainEvent(e, numText)
    ensures GeminiService.Plain(Step(s, e).paramValues, numText)
  {
    match e
    case TemplateSelected(id) => DefaultParamsPlain(id, numText);
    case ParamChanged(k, v) => SetEntries(s.paramValues, k, v);
    case _ =>
  }

  /** A run whose typed-in values are plain keeps the parameter values plain. */
  lemma {:induction false} RunPlain(s: AppState, events: seq<Event>, numText: real -> string)
    requires forall x :: '$' !in numText(x)
    requires GeminiService.Plain(s.paramValues, numText)
    requires forall i :: 0 <= i < |events| ==> PlainEvent(events[i], numText)
    ensures GeminiService.Plain(Run(s, events).paramValues, numText)
    decreases |events|
  {
    if events != [] {
      StepPlain(s, events[0], numText);
      RunPlain(Step(s, events[0]), events[1..], numText);
    }
  }

  /**
   * With a working image, a key and plain values with distinct keys,
   * generating sends the selected template's instruction with the values
   * filled in, followed by the fixed suffix, and records the answer.
   */
  lemma GenerateRequest(
    s: AppState, apiKey: Option<string>, numText: real -> string,
    generate: (string, GeminiService.Request) -> Result<GeminiService.Reply, GeminiService.Thrown>)
    requires Truthy(s.originalImage) && Truthy(apiKey)
    requires DistinctKeys(s.paramValues) && GeminiService.Plain(s.paramValues, numText)
    ensures var t := Constants.TemplateOf(s.selectedTemplateId);
      var request := GeminiService.Request(
        GeminiService.ModelName, GeminiService.ImageMimeType, GeminiService.StripDataUrl(s.originalImage.value),
        Render(Pieces(t.instruction), GeminiService.Texts(s.paramValues, numText)) + GeminiService.PromptSuffix);
      Generate(s, apiKey, numText, generate) ==
        FinishGeneration(StartGeneration(s), match generate(apiKey.value, request)
                                             case Failure(e) => Failure(e)
                                             case Success(reply) => GeminiService.Interpret(reply))
  {
    GeminiService.RegistryPrompt(s.selectedTemplateId, s.paramValues, numText);
  }

  /** Undo goes one step back in the history, showing the image stored there. */
  lemma UndoSpec(s: AppState)
    requires Inv(s)
    ensures CanUndo(s) ==> Undo(s).historyIndex == s.historyIndex - 1 && Inv(Undo(s)) &&
                           Undo(s).originalImage == Some(s.history[s.historyIndex - 1]) &&
                           Undo(s).generatedImage.None? && Undo(s).error.None? && Undo(s).history == s.history
    ensures !CanUndo(s) ==> Undo(s) == s
  {
  }

  /** Redo goes one step forward in the history, showing the image stored there. */
  lemma RedoSpec(s: AppState)
    requires Inv(s)
    ensures CanRedo(s) ==> Redo(s).historyIndex == s.historyIndex + 1 && Inv(Redo(s)) &&
                           Redo(s).originalImage == Some(s.history[s.historyIndex + 1]) &&
                           Redo(s).generatedImage.None? && Redo(s).error.None? && Redo(s).history == s.history
    ensures !CanRedo(s) ==> Redo(s) == s
  {
  }

  /** `k` undos in a row move the index back by `k`, stopping at the first snapshot, and show the snapshot there. */
  lemma {:induction false} KUndos(s: AppState, k: nat)
    requires Inv(s) && s.history != []
    ensures var j := if s.historyIndex - k < 0 then 0 else s.historyIndex - k;
      var r := Run(s, seq(k, _ => Undone));
      r.historyIndex == j && r.originalImage == Some(s.history[j]) && r.history == s.history
    decreases k
  {
    if k > 0 {
      UndoSpec(s);
      assert seq(k, _ => Undone)[1..] == seq(k - 1, _ => Undone);
      KUndos(Undo(s), k - 1);
    }
  }

  /** Once there is nothing to redo, redo stays impossible until an undo happens. */
  lemma {:induction false} NoRedoUntilUndo(s: AppState, events: seq<Event>)
    requires Inv(s) && !CanRedo(s)
    requires forall i :: 0 <= i < |events| ==> events[i] != Undone
    ensures !CanRedo(Run(s, events))
    decreases |events|
  {
    if events != [] {
      StepInv(s, events[0]);
      if events[0].Applied? && Truthy(s.generatedImage) {
        ApplyInv(s);
      }
      NoRedoUntilUndo(Step(s, events[0]), events[1..]);
    }
  }

  /** Redo undoes an undo, and undo undoes a redo, up to the cleared preview and error. */
  lemma UndoRedoInverse(s: AppState)
    requires Inv(s)
    ensures CanUndo(s) ==> Redo(Undo(s)) == s.(generatedImage := None, error := None)
    ensures CanRedo(s) ==> Undo(Redo(s)) == s.(generatedImage := None, error := None)
  {
  }

  /** Undoing right after applying a preview gives back the working image from before. */
  lemma UndoAfterApply(s: AppState)
    requires Inv(s) && Truthy(s.generatedImage) && s.history != []
    ensures Undo(Apply(s)).originalImage == s.originalImage
    ensures Undo(Apply(s)).historyIndex == s.historyIndex
  {
    ApplyInv(s);
  }

  /** Applying `D` at position 1 of `[A, B, C]` gives `[A, B, D]` at position 2. */
  lemma ApplyExample(s: AppState)
    requires s.history == ["A", "B", "C"] && s.historyIndex == 1 && s.originalImage == Some("B")
    requires s.generatedImage == Some("D")
    ensures Apply(s).history == ["A", "B", "D"] && Apply(s).historyIndex == 2
    ensures Apply(s).originalImage == Some("D") && Apply(s).generatedImage.None?
  {
    ApplyInv(s);
    assert s.history[..2] == ["A", "B"];
  }

  /** Without a preview, applying does nothing; after a discard there is never one to apply. */
  lemma ApplyNeedsPreview(s: AppState)
    ensures !Truthy(s.generatedImage) ==> Apply(s) == s
    ensures Apply(Discard(s)) == Discard(s)
  {
  }

  /** Loading a library item is uploading its image, except that the error is kept. */
  lemma LoadIsUpload(s: AppState, item: LibraryItem)
    ensures LoadFromLibrary(s, item) == SelectImage(s, item.imageData).(error := s.error)
    ensures Inv(LoadFromLibrary(s, item)) && Inv(SelectImage(s, item.imageData))
  {
  }

  /** After clearing, the session is empty and neither undo nor redo applies. */
  lemma ClearEmpties(s: AppState)
    ensures Inv(Clear(s)) && !CanUndo(Clear(s)) && !CanRedo(Clear(s))
    ensures Undo(Clear(s)) == Clear(s) && Redo(Clear(s)) == Clear(s)
  {
  }

  /** Selecting a template sets its defaults as the values and keeps the images and history. */
  lemma SelectTemplateSpec(s: AppState, id: TemplateId)
    ensures var s' := SelectTemplate(s, id); var t := Constants.TemplateOf(id);
      Records.Keys(s'.paramValues) == ParamIds(t.params) &&
      (forall i :: 0 <= i < |t.params| ==> Get(s'.paramValues, t.params[i].id) == Some(t.params[i].defaultValue)) &&
      s'.error.None? && s'.history == s.history && s'.historyIndex == s.historyIndex &&
      s'.originalImage == s.originalImage && s'.generatedImage == s.generatedImage
  {
    DefaultParamsSpec(id);
  }

  /** Changing a parameter sets that one key and leaves every other key reading as before. */
  lemma ChangeParamSpec(s: AppState, key: string, value: ParamValue)
    ensures Get(ChangeParam(s, key, value).paramValues, key) == Some(value)
    ensures forall k :: k != key ==> Get(ChangeParam(s, key, value).paramValues, k) == Get(s.paramValues, k)
    ensures DistinctKeys(s.paramValues) ==> DistinctKeys(ChangeParam(s, key, value).paramValues)
  {
    SetGet(s.paramValues, key, value);
    if DistinctKeys(s.paramValues) {
      SetKeepsKeysDistinct(s.paramValues, key, value);
    }
  }

  /**
   * When the service answers, the processing flag goes down and the answer
   * lands in the preview or, as its message, in the error slot; the history
   * and the working image stay as they are.
   */
  lemma FinishSpec(s: AppState, outcome: Result<string, GeminiService.Thrown>)
    ensures var s' := FinishGeneration(s, outcome);
      !s'.isProcessing && s'.history == s.history && s'.historyIndex == s.historyIndex &&
      s'.originalImage == s.originalImage && s'.library == s.library && s'.paramValues == s.paramValues &&
      (outcome.Success? ==> s'.generatedImage == Some(outcome.value) && s'.error == s.error) &&
      (outcome.Failure? ==> s'.error == Some(ErrorMessage(outcome.error)) && s'.generatedImage == s.generatedImage)
  {
  }

  /** Generation never touches the history or the working image, and without a working image it does nothing. */
  lemma GenerateKeepsHistory(
    s: AppState, apiKey: Option<string>, numText: real -> string,
    generate: (string, GeminiService.Request) -> Result<GeminiService.Reply, GeminiService.Thrown>)
    ensures var s' := Generate(s, apiKey, numText, generate);
      s'.history == s.history && s'.historyIndex == s.historyIndex && s'.originalImage == s.originalImage
    ensures !Truthy(s.originalImage) ==> Generate(s, apiKey, numText, generate) == s
  {
    if Truthy(s.originalImage) {
      var outcome := GeminiService.EditImage(apiKey, s.originalImage.value, s.selectedTemplateId, s.paramValues, numText, generate);
      FinishSpec(StartGeneration(s), outcome);
    }
  }

  /** Without an API key, generating shows the key-not-found message. */
  lemma GenerateWithoutKey(
    s: AppState, apiKey: Option<string>, numText: real -> string,
    generate: (string, GeminiService.Request) -> Result<GeminiService.Reply, GeminiService.Thrown>)
    requires Truthy(s.originalImage) && !Truthy(apiKey)
    ensures Generate(s, apiKey, numText, generate).error == Some(KeyNotFoundMessage)
  {
    GeminiService.MissingKeyNamesKey();
  }

  /** An error's message is shown unless it mentions the API key; anything else thrown gets the generic text. */
  lemma ErrorMessageSpec(e: GeminiService.Thrown)
    ensures e.ErrorValue? && !Includes(e.message, GeminiService.KeyMarker) ==> ErrorMessage(e) == e.message
    ensures e.OtherValue? && !(e.field.Some? && Includes(e.field.value, GeminiService.KeyMarker)) ==>
              ErrorMessage(e) == UnexpectedMessage
    ensures (e.ErrorValue? && Includes(e.message, GeminiService.KeyMarker)) ||
            (e.OtherValue? && e.field.Some? && Includes(e.field.value, GeminiService.KeyMarker)) ==>
              ErrorMessage(e) == KeyNotFoundMessage
    ensures (e.ErrorValue? && ErrorMessage(e) == e.message) || ErrorMessage(e) == UnexpectedMessage || ErrorMessage(e) == KeyNotFoundMessage
  {
  }

  /** Saving puts one new item first and keeps the rest; with no image it does nothing. */
  lemma AddToLibrarySpec(s: AppState, kind: ItemKind, id: string, timestamp: int)
    ensures var s' := AddToLibrary(s, kind, id, timestamp);
      if Truthy(s.generatedImage) || Truthy(s.originalImage) then
        |s'.library| == |s.library| + 1 && s'.library[1..] == s.library &&
        s'.library[0] == LibraryItem(id, kind, (if Truthy(s.generatedImage) then s.generatedImage else s.originalImage).value, timestamp) &&
        s'.viewMode == Library
      else s' == s
  {
    var s' := AddToLibrary(s, kind, id, timestamp);
    if Truthy(s.generatedImage) || Truthy(s.originalImage) {
      assert s'.library[1..] == s.library;
    }
  }

  /** The toolbar saves a preview as 'saved' and a bare working image as 'draft'. */
  lemma SaveKind(s: AppState, id: string, timestamp: int)
    requires Truthy(s.generatedImage) || Truthy(s.originalImage)
    ensures SaveFromToolbar(s, id, timestamp).library[0].kind == (if Truthy(s.generatedImage) then Saved else Draft)
    ensures SaveFromToolbar(s, id, timestamp).library[0].imageData ==
            (if Truthy(s.generatedImage) then s.generatedImage.value else s.originalImage.value)
  {
  }

  /** Deleting keeps exactly the items with another id. */
  lemma {:induction false} WithoutIdMembers(items: seq<LibraryItem>, id: string)
    ensures forall it :: it in WithoutId(items, id) <==> it in items && it.id != id
    decreases |items|
  {
    if items != [] {
      WithoutIdMembers(items[1..], id);
      assert items == [items[0]] + items[1..];
    }
  }

  /** Deleting keeps the order: it works piece by piece. */
  lemma {:induction false} WithoutIdAppend(a: seq<LibraryItem>, b: seq<LibraryItem>, id: string)
    ensures WithoutId(a + b, id) == WithoutId(a, id) + WithoutId(b, id)
    decreases |a|
  {
    if a == [] {
      assert a + b == b;
    } else {
      WithoutIdAppend(a[1..], b, id);
      assert (a + b)[0] == a[0] && (a + b)[1..] == a[1..] + b;
    }
  }

  /** The drafts and the saved items split the library between them. */
  lemma {:induction false} KindsPartition(items: seq<LibraryItem>)
    ensures |OfKind(items, Draft)| + |OfKind(items, Saved)| == |items|
    ensures multiset(OfKind(items, Draft)) + multiset(OfKind(items, Saved)) == multiset(items)
    decreases |items|
  {
    if items != [] {
      KindsPartition(items[1..]);
      assert items == [items[0]] + items[1..];
    }
  }

  /** The items of one kind are exactly the library items of that kind. */
  lemma {:induction false} OfKindMembers(items: seq<LibraryItem>, kind: ItemKind)
    ensures forall it :: it in OfKind(items, kind) <==> it in items && it.kind == kind
    decreases |items|
  {
    if items != [] {
      OfKindMembers(items[1..], kind);
      assert items == [items[0]] + items[1..];
    }
  }
}
