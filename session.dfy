/** The SearchBar component's state and its transitions, apart from React:
    each handler's `setState` calls are merged into one record update that
    names the keys it sets and leaves the others as they were.
    (src/components/SearchBar/index.js) */
module Session {
  import opened Wrappers
  import opened Wells
  import Query

  /** Failures `fetch(...)` or `response.json()` can raise. */
  datatype TransportFailure = Timeout | NetworkError | MalformedJson

  /** The error object `getWells` stores in `state.error`. */
  datatype Failure =
    | Transport(cause: TransportFailure)
    /** `throw new Error(json.message)` for an envelope with a falsy `ok`. */
    | Rejected(message: Option<string>)
    /** The `TypeError` of reading `json.payload.wells` with no `payload`. */
    | MissingPayload

  /** What the suggest request produced: a transport failure, or the JSON
      envelope `{ ok, message, payload: { wells } }`. */
  datatype Response =
    | Failed(cause: TransportFailure)
    | Envelope(ok: bool, message: Option<string>, payload: Option<seq<Well>>)

  /** `this.state`. `inputValue` is `None` for JavaScript `null`. */
  datatype State = State(
    inputValue: Option<string>,
    suggestedWells: seq<Well>,
    well: Well,
    showDetails: bool,
    error: Option<Failure>,
    confirmationModal: bool,
    confirmationMessage: string)

  /** `DEFAULT_STATE.confirmationMessage`. */
  const FileCreatedMessage: string := "File created."

  /** The state the constructor builds: `DEFAULT_STATE` plus an empty input
      and no suggestions. */
  function Initial(): (s: State)
    ensures !Truthy(s.well.uuid) && s.showDetails && s.error == None
    ensures !s.confirmationModal && s.confirmationMessage == FileCreatedMessage
    ensures s.inputValue == Some("") && s.suggestedWells == []
  {
    State(Some(""), [], NoWell, true, None, false, FileCreatedMessage)
  }

  /** `reset`: `setState(DEFAULT_STATE)`. Only the keys of `DEFAULT_STATE`
      are set, so the input value and the suggestions survive. */
  function Reset(s: State): (r: State)
    ensures r.well == Initial().well && r.showDetails == Initial().showDetails
    ensures r.error == Initial().error && r.confirmationModal == Initial().confirmationModal
    ensures r.confirmationMessage == Initial().confirmationMessage
    ensures r.inputValue == s.inputValue && r.suggestedWells == s.suggestedWells
  {
    s.(well := NoWell, showDetails := true, error := None,
       confirmationModal := false, confirmationMessage := FileCreatedMessage)
  }

  /** `onChange(chosenWell)`: the chosen well replaces the selection. */
  function Select(s: State, chosen: Well): (r: State)
    ensures r.well == chosen
    ensures r.(well := s.well) == s
  {
    s.(well := chosen)
  }

  /** `handleConfirmationOk`, and the step of both export paths that runs
      when the writer reports a created file: the modal flag is negated. */
  function ToggleConfirmation(s: State): (r: State)
    ensures r.confirmationModal != s.confirmationModal
    ensures r.(confirmationModal := s.confirmationModal) == s
  {
    s.(confirmationModal := !s.confirmationModal)
  }

  /** The state after an export whose writer returned `fileCreated`. */
  function AfterExport(s: State, fileCreated: bool): (r: State)
    ensures r.confirmationModal == (s.confirmationModal != fileCreated)
    ensures r.(confirmationModal := s.confirmationModal) == s
  {
    if fileCreated then ToggleConfirmation(s) else s
  }

  /** How `getWells` reads a response: the wells of an envelope whose `ok`
      is truthy, otherwise the error it throws and catches. */
  function Interpret(response: Response): (r: Result<seq<Well>, Failure>)
    ensures r.Ok? <==> response.Envelope? && response.ok && response.payload.Some?
    ensures r.Ok? ==> r.value == response.payload.value
    ensures response.Failed? ==> r == Err(Transport(response.cause))
    ensures response.Envelope? && !response.ok ==> r == Err(Rejected(response.message))
  {
    match response
    case Failed(cause) => Err(Transport(cause))
    case Envelope(ok, message, payload) =>
      if !ok then Err(Rejected(message))
      else if payload.None? then Err(MissingPayload)
      else Ok(payload.value)
  }

  /** `getWells`, given the response its request receives: the URL it
      requests (`None`: no request), the new state and the value its
      promise resolves to (`None`: `undefined`). */
  function GetWells(s: State, response: Response): (r: (Option<string>, State, Option<seq<Well>>))
    ensures r.0 == Query.RequestUrl(s.inputValue)
    ensures r.0.None? ==> r.1 == s && r.2 == None
    ensures r.0.Some? && Interpret(response).Ok? ==>
      r.1 == s.(suggestedWells := Interpret(response).value) && r.2 == Some(Interpret(response).value)
    ensures r.0.Some? && Interpret(response).Err? ==>
      r.1 == s.(error := Some(Interpret(response).error)) && r.2 == Some([])
  {
    var url := Query.RequestUrl(s.inputValue);
    if url.None? then (url, s, None)
    else match Interpret(response)
      case Ok(wells) => (url, s.(suggestedWells := wells), Some(wells))
      case Err(e) => (url, s.(error := Some(e)), Some([]))
  }

  /** `handleInputChange` with the new value, followed by the `getWells`
      its callback starts, given that call's response. */
  /** After an edit, the suggestions are exactly those of that edit's own
      response (none if it failed or nothing was requested), the only error
      shown is that response's, and the selection and modal are untouched. */
  function InputChanged(s: State, value: string, response: Response): (r: (Option<string>, State, Option<seq<Well>>))
    ensures r.0 == Query.RequestUrl(Some(value))
    ensures r.1.inputValue == Some(value)
    ensures r.1.suggestedWells ==
      (if r.0.Some? && Interpret(response).Ok? then Interpret(response).value else [])
    ensures r.1.error ==
      (if r.0.Some? && Interpret(response).Err? then Some(Interpret(response).error) else None)
    ensures r.1.well == s.well && r.1.showDetails == s.showDetails
    ensures r.1.confirmationModal == s.confirmationModal
    ensures r.1.confirmationMessage == s.confirmationMessage
    ensures r.2 == (if r.0.Some? then Some(if Interpret(response).Ok? then Interpret(response).value else []) else None)
  {
    GetWells(s.(inputValue := Some(value), error := None, suggestedWells := []), response)
  }

  /** What `render` shows. */
  datatype View =
    /** `ChosenWell.Details` with the confirmation modal. */
    | Details(modal: bool)
    /** `ChosenWell`, the summary, which has no modal. */
    | Summary
    /** The search box, the suggestion table with its Export button, the
        modal and the error banner. */
    | SearchForm(table: bool, modal: bool, errorBanner: bool)

  /** `render`'s choice of view. */
  function Render(s: State): (v: View)
    ensures v.SearchForm? <==> !Truthy(s.well.uuid)
    ensures v.Details? <==> Truthy(s.well.uuid) && s.showDetails
    ensures v.Details? ==> v.modal == s.confirmationModal
    ensures v.SearchForm? ==> v.table == (|s.suggestedWells| > 0)
    ensures v.SearchForm? ==> v.modal == s.confirmationModal && v.errorBanner == s.error.Some?
  {
    if Truthy(s.well.uuid) then
      if s.showDetails then Details(s.confirmationModal) else Summary
    else SearchForm(|s.suggestedWells| > 0, s.confirmationModal, s.error.Some?)
  }

  /** The events a user session feeds the component. */
  datatype Event =
    | ResetClicked
    | WellChosen(chosen: Well)
    | ConfirmationOk
    | InputEdited(value: string, response: Response)
    | ExportFinished(fileCreated: bool)

  /** The state after one event. */
  function Step(s: State, e: Event): State {
    match e
    case ResetClicked => Reset(s)
    case WellChosen(w) => Select(s, w)
    case ConfirmationOk => ToggleConfirmation(s)
    case InputEdited(v, resp) => InputChanged(s, v, resp).1
    case ExportFinished(created) => AfterExport(s, created)
  }

  /** The state after a sequence of events, each handled to completion. */
  function Run(s: State, events: seq<Event>): State
    decreases |events|
  {
    if events == [] then s else Run(Step(s, events[0]), events[1..])
  }

  /** What holds of every state a session reaches: nothing ever clears
      `showDetails` (the closure `handleClickDetails` returns, which would
      flip it, is never called) and the confirmation text never changes. */
  ghost predicate Reachable(s: State) {
    s.showDetails && s.confirmationMessage == FileCreatedMessage
  }

  /** Every event keeps `Reachable`. */
  lemma StepKeepsReachable(s: State, e: Event)
    requires Reachable(s)
    ensures Reachable(Step(s, e))
  {
  }

  /** `Reachable` holds after any run from the initial state, so a chosen
      well is always shown with its details, never as the summary. */
  lemma {:induction false} RunKeepsReachable(s: State, events: seq<Event>)
    requires Reachable(s)
    ensures Reachable(Run(s, events))
    ensures Truthy(Run(s, events).well.uuid) ==> Render(Run(s, events)).Details?
    decreases |events|
  {
    if events != [] {
      StepKeepsReachable(s, events[0]);
      RunKeepsReachable(Step(s, events[0]), events[1..]);
    }
  }

  /** Confirming twice leaves the state as it was. */
  lemma ToggleTwice(s: State)
    ensures ToggleConfirmation(ToggleConfirmation(s)) == s
  {
  }

  /** A selection is forgotten by `reset`: resetting after choosing a well
      is the same as resetting before. */
  lemma ResetForgetsSelection(s: State, chosen: Well)
    ensures Reset(Select(s, chosen)) == Reset(s)
    ensures Render(Reset(Select(s, chosen))).SearchForm?
  {
  }

  /** Choosing a well with a truthy `uuid` in a reached state shows its details. */
  lemma SelectShowsDetails(s: State, chosen: Well)
    requires Reachable(s) && Truthy(chosen.uuid)
    ensures Render(Select(s, chosen)) == Details(s.confirmationModal)
  {
  }

  /** `reset` keeps what was typed and found: after typing a value, a
      successful search and a selection, `reset` goes back to the search
      form showing that value and those suggestions, not to `Initial()`. */
  lemma ResetKeepsSearch(value: string, wells: seq<Well>, chosen: Well)
    requires value != "" && wells != []
    ensures var typed := InputChanged(Initial(), value, Envelope(true, None, Some(wells))).1;
      && Reset(Select(typed, chosen)) == Initial().(inputValue := Some(value), suggestedWells := wells)
      && Reset(Select(typed, chosen)) != Initial()
      && Render(Reset(Select(typed, chosen))) == SearchForm(true, false, false)
  {
  }
}
