/**
 * The `App` component's model loading: the state cells `models`,
 * `selectedModel`, `isLoading` and `error`, the two steps of `loadModels`
 * around its `await` on `listModels`, the model picker, and the condition
 * under which the chat view is rendered.
 */
module App {
  import opened Wrappers
  import Ollama

  /** The model selected before any list has been loaded. */
  const DefaultModel := "llama2"

  /** Shown when the model list comes back empty. */
  const NoModelsError := "No models found. Please pull a model first (e.g., ollama pull llama2)"

  /** Shown when `listModels` rejects. */
  const ConnectError := "Failed to connect to Ollama. Make sure Ollama is running on localhost:11434"

  datatype AppState = AppState(models: seq<string>, selectedModel: string, isLoading: bool, error: Option<string>)

  /** The state on mount: no models, the default model selected, loading, no error. */
  const Initial := AppState([], DefaultModel, true, None)

  /** How the awaited `listModels()` settled. */
  datatype ListOutcome = Resolved(names: seq<string>) | Rejected

  /** `loadModels` up to the `await`: loading is set and any earlier error is cleared. */
  function StartLoad(s: AppState): (r: AppState)
    ensures r.isLoading && r.error == None
    ensures r.models == s.models && r.selectedModel == s.selectedModel
  {
    s.(isLoading := true, error := None)
  }

  /**
   * `loadModels` after the `await`. A non-empty list replaces the models and
   * selects its first entry, leaving the error as `StartLoad` cleared it; an
   * empty list or a rejection sets the matching error and keeps the earlier
   * models and selection. Loading ends whatever the outcome.
   */
  function FinishLoad(s: AppState, outcome: ListOutcome): (r: AppState)
    ensures !r.isLoading
    ensures outcome.Resolved? && |outcome.names| > 0 ==>
      r.models == outcome.names && r.selectedModel == outcome.names[0] && r.error == s.error
    ensures outcome.Resolved? && |outcome.names| == 0 ==>
      r.models == s.models && r.selectedModel == s.selectedModel && r.error == Some(NoModelsError)
    ensures outcome.Rejected? ==>
      r.models == s.models && r.selectedModel == s.selectedModel && r.error == Some(ConnectError)
  {
    var loaded :=
      match outcome
      case Resolved(names) =>
        if |names| > 0 then s.(models := names, selectedModel := names[0])
        else s.(error := Some(NoModelsError))
      case Rejected => s.(error := Some(ConnectError));
    loaded.(isLoading := false)
  }

  /** One whole run of `loadModels`, on mount or from the retry button. */
  function LoadModels(s: AppState, outcome: ListOutcome): AppState {
    FinishLoad(StartLoad(s), outcome)
  }

  /** The model picker's `onChange`. */
  function SelectModel(s: AppState, name: string): (r: AppState)
    ensures r.selectedModel == name && r.models == s.models
    ensures r.isLoading == s.isLoading && r.error == s.error
  {
    s.(selectedModel := name)
  }

  /** The chat view is rendered when loading is over and there is no error. */
  predicate ShowsChat(s: AppState) {
    !s.isLoading && s.error.None?
  }

  /** The error and its retry button are rendered when loading is over and there is an error. */
  predicate ShowsRetry(s: AppState) {
    !s.isLoading && s.error.Some?
  }

  /** Whenever the chat view is rendered, the model it is given is one the server listed. */
  predicate Consistent(s: AppState) {
    ShowsChat(s) ==> s.selectedModel in s.models
  }

  /**
   * After a load, the chat view is shown exactly when the server listed at
   * least one model, and then with the first of them; otherwise the retry
   * view is shown. The two views never show together.
   */
  lemma LoadDecidesView(s: AppState, names: seq<string>)
    ensures LoadModels(s, Resolved(names)).error == None <==> |names| > 0
    ensures ShowsChat(LoadModels(s, Resolved(names))) <==> |names| > 0
    ensures ShowsRetry(LoadModels(s, Resolved(names))) <==> |names| == 0
    ensures |names| > 0 ==> LoadModels(s, Resolved(names)).selectedModel == names[0]
    ensures !(ShowsChat(LoadModels(s, Resolved(names))) && ShowsRetry(LoadModels(s, Resolved(names))))
  {
  }

  /**
   * `listModels` never rejects, so the connection error is never shown: an
   * unreachable server and a server without models both end in the
   * "no models" error.
   */
  lemma ConnectErrorUnreachable(s: AppState, response: Ollama.HttpOutcome<Ollama.TagsBody>)
    ensures LoadModels(s, Resolved(Ollama.ListModels(response))).error != Some(ConnectError)
    ensures response.Failed? ==> LoadModels(s, Resolved(Ollama.ListModels(response))).error == Some(NoModelsError)
  {
  }

  /** Retrying with the same answer from the server changes nothing more. */
  lemma RetryIdempotent(s: AppState, outcome: ListOutcome)
    ensures LoadModels(LoadModels(s, outcome), outcome) == LoadModels(s, outcome)
  {
  }

  /** Every transition keeps the chat view's model among the listed ones. */
  lemma TransitionsKeepConsistent(s: AppState, outcome: ListOutcome, name: string)
    requires Consistent(s)
    ensures Consistent(Initial)
    ensures Consistent(StartLoad(s))
    ensures Consistent(FinishLoad(s, outcome))
    ensures name in s.models ==> Consistent(SelectModel(s, name))
  {
  }

  /** The component's state cells and `loadModels`, split at its `await`. */
  class AppView {
    var models: seq<string>
    var selectedModel: string
    var isLoading: bool
    var error: Option<string>

    function State(): AppState
      reads this
    {
      AppState(models, selectedModel, isLoading, error)
    }

    constructor ()
      ensures State() == Initial
    {
      models := [];
      selectedModel := DefaultModel;
      isLoading := true;
      error := None;
    }

    method BeginLoad()
      modifies this
      ensures State() == StartLoad(old(State()))
    {
      isLoading := true;
      error := None;
    }

    method CompleteLoad(outcome: ListOutcome)
      modifies this
      ensures State() == FinishLoad(old(State()), outcome)
    {
      match outcome {
        case Resolved(availableModels) =>
          if |availableModels| > 0 {
            models := availableModels;
            selectedModel := availableModels[0];
          } else {
            error := Some(NoModelsError);
          }
        case Rejected =>
          error := Some(ConnectError);
      }
      isLoading := false;
    }

    /** The model picker's `onChange`. */
    method Select(name: string)
      modifies this
      ensures State() == SelectModel(old(State()), name)
    {
      selectedModel := name;
    }
  }
}
