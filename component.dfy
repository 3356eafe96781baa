/** The `SearchBar` component as an object whose handlers update
    `this.state` in place, one `setState` merge at a time
    (src/components/SearchBar/index.js). Each handler is proved to end in
    the state the matching `Session` transition describes. */
module Component {
  import opened Wrappers
  import opened Wells
  import opened Session
  import Query
  import Export

  class SearchBar {
    var state: State

    /** `DEFAULT_STATE`, then `inputValue = ''` and `suggestedWells = []`. */
    constructor ()
      ensures state == Initial()
    {
      var defaults := State(None, [], NoWell, true, None, false, FileCreatedMessage);
      state := defaults.(inputValue := Some(""), suggestedWells := []);
    }

    method HandleConfirmationOk()
      modifies this
      ensures state == ToggleConfirmation(old(state))
    {
      state := state.(confirmationModal := !state.confirmationModal);
    }

    method Reset()
      modifies this
      ensures state == Session.Reset(old(state))
    {
      state := state.(well := NoWell, showDetails := true, error := None,
                      confirmationModal := false, confirmationMessage := FileCreatedMessage);
    }

    /** `onChange(chosenWell)`; the header, footer and `onWellSelect`
        callbacks are not part of this model. */
    method OnChange(chosenWell: Well)
      modifies this
      ensures state == Select(old(state), chosenWell)
    {
      state := state.(well := chosenWell);
    }

    /** `getWells`, with the response its request receives as a parameter.
        `url` is the request issued (`None`: none); `wells` is what the
        returned promise resolves to (`None`: `undefined`). */
    method GetWells(response: Response) returns (url: Option<string>, wells: Option<seq<Well>>)
      modifies this
      ensures (url, state, wells) == Session.GetWells(old(state), response)
    {
      url, wells := None, None;
      if state.inputValue != Some("") && state.inputValue != None {
        var query := "?query=" + Query.Sanitize(state.inputValue.value);
        url := Some(Query.UrlRoot + "suggest" + query);
        match response {
          case Failed(cause) =>
            state := state.(error := Some(Transport(cause)));
            wells := Some([]);
          case Envelope(ok, message, payload) =>
            if !ok {
              state := state.(error := Some(Rejected(message)));
              wells := Some([]);
            } else if payload.None? {
              state := state.(error := Some(MissingPayload));
              wells := Some([]);
            } else {
              state := state.(suggestedWells := payload.value);
              wells := Some(payload.value);
            }
        }
      }
    }

    /** `handleInputChange`: React applies the two queued updates (the new
        value, and clearing an error that was present), then runs the
        callback that clears the suggestions and calls `getWells`, whose
        response is a parameter. */
    method HandleInputChange(value: string, response: Response) returns (url: Option<string>, wells: Option<seq<Well>>)
      modifies this
      ensures (url, state, wells) == InputChanged(old(state), value, response)
    {
      var hadError := state.error.Some?;
      state := state.(inputValue := Some(value));
      if hadError {
        state := state.(error := None);
      }
      state := state.(suggestedWells := []);
      url, wells := GetWells(response);
    }

    /** `exportExcel`: the current suggestions are grouped by region (the
        `groupBy` helper is a parameter), each group is parsed, and the
        payload is handed to the writer; a created file flips the modal.
        A suggested well without `wellData` makes the key function throw,
        which ends the export before anything is parsed or written. */
    method ExportExcel<P>(groupBy: seq<Well> -> seq<(RegionKey, seq<Well>)>,
                          parse: Batch -> Option<P>,
                          write: seq<Entry<P>> -> bool)
      returns (payload: Option<seq<Entry<P>>>, fileCreated: bool)
      modifies this
      ensures payload.Some? <==>
        Export.AllHaveWellData(old(state).suggestedWells)
        && Export.AllParse(groupBy(old(state).suggestedWells), parse)
      ensures payload.Some? ==> |payload.value| == |groupBy(old(state).suggestedWells)|
      ensures payload.Some? ==> forall j :: 0 <= j < |groupBy(old(state).suggestedWells)| ==>
        payload.value[j] == Entry(groupBy(old(state).suggestedWells)[j].0,
                                  parse(Group(groupBy(old(state).suggestedWells)[j].1)).value)
      ensures fileCreated == (payload.Some? && write(payload.value))
      ensures state == AfterExport(old(state), fileCreated)
    {
      if !Export.AllHaveWellData(state.suggestedWells) {
        return None, false;
      }
      var groupedObject := groupBy(state.suggestedWells);
      payload := Export.ParseGroups(groupedObject, parse);
      fileCreated := payload.Some? && write(payload.value);
      if fileCreated {
        state := state.(confirmationModal := !state.confirmationModal);
      }
    }

    /** `handleClickDetails(chosenWell)` up to the closure it returns, which
        nothing calls: the single-entry payload is written and a created
        file flips the modal. */
    method HandleClickDetails<P>(chosenWell: Well, parse: Batch -> Option<P>, write: seq<Entry<P>> -> bool)
      returns (payload: Option<seq<Entry<P>>>, fileCreated: bool)
      modifies this
      ensures payload == Export.DetailPayload(chosenWell, parse)
      ensures fileCreated == (payload.Some? && write(payload.value))
      ensures state == AfterExport(old(state), fileCreated)
    {
      payload := Export.DetailPayload(chosenWell, parse);
      fileCreated := payload.Some? && write(payload.value);
      if fileCreated {
        state := state.(confirmationModal := !state.confirmationModal);
      }
    }
  }
}
