/**
 * The editor component as a long-lived object: its fields are the fields of
 * the one `AppState` the handlers overwrite, and every handler is a method
 * that assigns them. Each method is proved to perform the transition of the
 * same name in module `App` and to keep the session invariant.
 */
module AppSession {
  import opened Wrappers
  import opened Strings
  import opened Types
  import opened Records
  import GeminiService
  import App

  class Session {
    var originalImage: Option<string>
    var generatedImage: Option<string>
    var selectedTemplateId: TemplateId
    var paramValues: Record
    var isProcessing: bool
    var error: Option<string>
    var history: seq<string>
    var historyIndex: int
    var library: seq<LibraryItem>
    var viewMode: ViewMode

    /** The fields, read as one state value. */
    function State(): App.AppState
      reads this
    {
      App.AppState(originalImage, generatedImage, selectedTemplateId, paramValues, isProcessing, error,
                   history, historyIndex, library, viewMode)
    }

    /**
     * The working image is the image at the history cursor, or there is
     * neither; the parameter values have distinct keys.
     */
    predicate Valid()
      reads this
    {
      App.Inv(State()) && DistinctKeys(paramValues)
    }

    /** The initial state, with the custom template's defaults. */
    constructor ()
      ensures State() == App.Initial() && Valid()
    {
      var defaults := App.GetDefaultParams(App.InitialTemplate);
      originalImage := None;
      generatedImage := None;
      selectedTemplateId := App.InitialTemplate;
      paramValues := defaults;
      isProcessing := false;
      error := None;
      history := [];
      historyIndex := -1;
      library := [];
      viewMode := Editor;
      App.InitialDistinct();
    }

    /** `handleTemplateSelect`. */
    method HandleTemplateSelect(id: TemplateId)
      requires Valid()
      modifies this
      ensures State() == App.SelectTemplate(old(State()), id) && Valid()
    {
      var defaults := App.GetDefaultParams(id);
      selectedTemplateId := id;
      paramValues := defaults;
      error := None;
      App.DefaultsDistinct(id);
    }

    /** `handleParamChange`. */
    method HandleParamChange(key: string, value: ParamValue)
      requires Valid()
      modifies this
      ensures State() == App.ChangeParam(old(State()), key, value) && Valid()
    {
      SetKeepsKeysDistinct(paramValues, key, value);
      paramValues := Set(paramValues, key, value);
    }

    /** `handleImageSelect`. */
    method HandleImageSelect(image: string)
      requires Valid()
      modifies this
      ensures State() == App.SelectImage(old(State()), image) && Valid()
    {
      originalImage := Some(image);
      generatedImage := None;
      error := None;
      history := [image];
      historyIndex := 0;
      viewMode := Editor;
    }

    /** `handleClear`. */
    method HandleClear()
      requires Valid()
      modifies this
      ensures State() == App.Clear(old(State())) && Valid()
    {
      originalImage := None;
      generatedImage := None;
      error := None;
      history := [];
      historyIndex := -1;
    }

    /** `handleUndo`. */
    method HandleUndo()
      requires Valid()
      modifies this
      ensures State() == App.Undo(old(State())) && Valid()
    {
      if historyIndex > 0 {
        var newIndex := historyIndex - 1;
        historyIndex := newIndex;
        originalImage := Some(history[newIndex]);
        generatedImage := None;
        error := None;
      }
    }

    /** `handleRedo`. */
    method HandleRedo()
      requires Valid()
      modifies this
      ensures State() == App.Redo(old(State())) && Valid()
    {
      if historyIndex < |history| - 1 {
        var newIndex := historyIndex + 1;
        historyIndex := newIndex;
        originalImage := Some(history[newIndex]);
        generatedImage := None;
        error := None;
      }
    }

    /** The first update of `handleGenerate`, made before the service is awaited. */
    method BeginGenerate()
      requires Valid()
      modifies this
      ensures State() == App.StartGeneration(old(State())) && Valid()
    {
      if Truthy(originalImage) {
        isProcessing := true;
        error := None;
      }
    }

    /** The second update of `handleGenerate`, made once the service has answered or thrown. */
    method FinishGenerate(outcome: Result<string, GeminiService.Thrown>)
      requires Valid()
      modifies this
      ensures State() == App.FinishGeneration(old(State()), outcome) && Valid()
    {
      match outcome
      case Success(image) =>
        generatedImage := Some(image);
        isProcessing := false;
      case Failure(e) =>
        error := Some(App.ErrorMessage(e));
        isProcessing := false;
    }

    /** `handleGenerate`, with nothing else happening while the service is awaited. */
    method HandleGenerate(
      apiKey: Option<string>, numText: real -> string,
      generate: (string, GeminiService.Request) -> Result<GeminiService.Reply, GeminiService.Thrown>)
      requires Valid()
      modifies this
      ensures State() == App.Generate(old(State()), apiKey, numText, generate) && Valid()
    {
      if !Truthy(originalImage) {
        return;
      }
      var image, id, values := originalImage.value, selectedTemplateId, paramValues;
      BeginGenerate();
      var outcome := GeminiService.EditImage(apiKey, image, id, values, numText, generate);
      FinishGenerate(outcome);
    }

    /** `handleApplyChanges`. */
    method HandleApplyChanges()
      requires Valid()
      modifies this
      ensures State() == App.Apply(old(State())) && Valid()
      ensures old(Truthy(generatedImage)) ==> !App.CanRedo(State())
    {
      if !Truthy(generatedImage) {
        return;
      }
      App.ApplyInv(State());
      var newHistory := App.SliceTo(history, historyIndex + 1) + [generatedImage.value];
      history := newHistory;
      historyIndex := |newHistory| - 1;
      originalImage := generatedImage;
      generatedImage := None;
    }

    /** `handleDiscardChanges`. */
    method HandleDiscardChanges()
      requires Valid()
      modifies this
      ensures State() == App.Discard(old(State())) && Valid()
    {
      generatedImage := None;
    }

    /** `addToLibrary`; the id and the timestamp are the caller's clock readings. */
    method AddToLibrary(kind: ItemKind, id: string, timestamp: int)
      requires Valid()
      modifies this
      ensures State() == App.AddToLibrary(old(State()), kind, id, timestamp) && Valid()
    {
      var imageToSave := if Truthy(generatedImage) then generatedImage else originalImage;
      if !Truthy(imageToSave) {
        return;
      }
      library := [LibraryItem(id, kind, imageToSave.value, timestamp)] + library;
      viewMode := Library;
    }

    /** `deleteFromLibrary`. */
    method DeleteFromLibrary(id: string)
      requires Valid()
      modifies this
      ensures State() == App.DeleteFromLibrary(old(State()), id) && Valid()
    {
      library := App.WithoutId(library, id);
    }

    /** `loadFromLibrary`. */
    method LoadFromLibrary(item: LibraryItem)
      requires Valid()
      modifies this
      ensures State() == App.LoadFromLibrary(old(State()), item) && Valid()
    {
      originalImage := Some(item.imageData);
      generatedImage := None;
      history := [item.imageData];
      historyIndex := 0;
      viewMode := Editor;
    }

    /** The header's view toggle. */
    method ToggleView()
      requires Valid()
      modifies this
      ensures State() == App.ToggleView(old(State())) && Valid()
    {
      viewMode := if viewMode == Editor then Library else Editor;
    }

    /** The library's "back to editor" button. */
    method ShowEditor()
      requires Valid()
      modifies this
      ensures State() == App.ShowEditor(old(State())) && Valid()
    {
      viewMode := Editor;
    }
  }
}
