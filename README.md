# SearchBar: a verified model of query sanitisation and session state

`SearchBar` is a React component. The user types a well name, and the component asks the Query Park
suggest endpoint for matching wells. The user can then pick a well, see its details,
and export either that well or all current suggestions, grouped by region, to a
spreadsheet. This project models the component's logic apart from React and the network:

- `Query` (`query.dfy`): how `getWells` strips the input down to `[A-Za-z0-9]`.
  It also composes the request URL `https://api.querypark.com/v1/suggest?query=…`
  and decides whether a request is issued at all.
- `Session` (`session.dfy`): the component state as a record with seven keys.
  `inputValue`, `suggestedWells`, `well`, `showDetails`, `error`,
  `confirmationModal` and `confirmationMessage`. Each handler is a pure
  transition. A `setState` call is a record update that sets the keys it names
  and keeps the others. The module also holds `render`'s choice of view, and an
  invariant over every sequence of user events.
- `Export` (`export.dfy`): the payloads the two export paths give the
  spreadsheet writer. `ParseGroups` is the parse-and-push loop of `exportExcel`.
  `DetailPayload` is the single entry of `handleClickDetails`.
- `Component` (`component.dfy`): the class `SearchBar` with its `state` field.
  Its handlers update the field one merge at a time, in the source's order.
  Each handler is proved to end in the state the `Session` transition gives.
- `Wells` and `Wrappers`: the opaque well record (only `uuid` and
  `wellData.Region` are read), parser batches, payload entries, `Option` and `Result`.

The endpoint's response is a parameter, so the network is not modelled. So are the record
parser (`None` means its promise rejected), the `groupBy` helper and the spreadsheet
writer's boolean. JavaScript `null` for `inputValue` is `None`.

The model follows the code where the component's intent might read otherwise:
- `getWells` tests the raw input, not the sanitised one. So an input such as `"-"` still
  issues a request, and its query value is empty (`Query.SymbolsOnlyStillRequests`).
- Sanitising `"Wel l-42!"` gives `Well42`: both `l`s are kept (`Query.ExampleSanitize`).
- `reset` merges `DEFAULT_STATE`. So the typed value and the current suggestions
  survive it, and the search form comes back showing them (`Session.ResetKeepsSearch`).
- The single-well export gives the parser the well itself, not a one-well group.
  So the two export paths are separate code paths.
- Nothing ever sets `showDetails` to false, so a chosen well is always shown with
  its details (`Session.RunKeepsReachable`).

## Model

| member | source | states |
|---|---|---|
| `Query.Sanitize` | src/components/SearchBar/index.js:97 | the sanitised query holds only `[A-Za-z0-9]` characters and is no longer than the input |
| `Query.SanitizeConcat` | src/components/SearchBar/index.js:97 | sanitising a concatenation gives the concatenation of the sanitised parts |
| `Query.SanitizeFixesAlnum` | src/components/SearchBar/index.js:97 | a string of letters and digits is left unchanged |
| `Query.SanitizeIdempotent` | src/components/SearchBar/index.js:97 | sanitising twice equals sanitising once |
| `Query.SanitizeCounts` | src/components/SearchBar/index.js:97 | every letter and digit of the input is kept as many times as it occurs; every other character is dropped |
| `Query.SanitizeIsSubsequence` | src/components/SearchBar/index.js:97 | the kept characters keep their original order (the result is a subsequence of the input) |
| `Query.SanitizeUnique` | src/components/SearchBar/index.js:97 | any ordered, alphanumeric subsequence that keeps every letter and digit equals the sanitised query, so the properties above pin it down |
| `Query.SuggestUrl` | src/components/SearchBar/index.js:97-98 | the URL starts with root + `suggest` + `?query=`, and everything after that is a letter or digit |
| `Query.SuggestUrlQuery` | src/components/SearchBar/index.js:97-98 | the query value read back from the URL is exactly the sanitised input |
| `Query.SuggestUrlInjective` | src/components/SearchBar/index.js:97-98 | two inputs give the same URL if and only if they sanitise to the same query |
| `Query.RequestUrl` | src/components/SearchBar/index.js:96-98 | no request is issued if and only if the input is `''` or `null`; otherwise the URL's query is the sanitised input |
| `Query.SymbolsOnlyStillRequests` | src/components/SearchBar/index.js:96-97 | a non-empty input with no letter or digit still issues a request, with an empty query value |
| `Query.ExampleSanitize` | src/components/SearchBar/index.js:97 | `"Wel l-42!"` sanitises to `Well42` |
| `Query.ExampleRequest` | src/components/SearchBar/index.js:96-98 | `"Wel l-42!"` is requested as `…suggest?query=Well42` |
| `Session.Initial` | src/components/SearchBar/index.js:39-41 | the initial state is `DEFAULT_STATE`, with an empty input and no suggestions |
| `Session.Reset` | src/components/SearchBar/index.js:56-57 | `reset` sets the five `DEFAULT_STATE` keys to their default values and leaves `inputValue` and `suggestedWells` as they were |
| `Session.Select` | src/components/SearchBar/index.js:73 | choosing a well sets `well` and changes no other key |
| `Session.ToggleConfirmation` | src/components/SearchBar/index.js:52-54 | the modal flag is negated and no other key changes |
| `Session.AfterExport` | src/components/SearchBar/index.js:164-167 | after an export the modal flips exactly when the writer reports a created file; nothing else changes |
| `Session.Interpret` | src/components/SearchBar/index.js:106-112 | a response yields wells if and only if it is an envelope with `ok` set and a payload, and then those wells; a falsy `ok` yields an error carrying the server's message; a transport failure yields that failure |
| `Session.GetWells` | src/components/SearchBar/index.js:95-121 | with an empty or `null` input, no request is issued, the state is unchanged and the result is `undefined`. On success, `suggestedWells` is replaced by the wells and the same list is returned. On failure, `error` is set, `suggestedWells` is not touched and `[]` is returned |
| `Session.InputChanged` | src/components/SearchBar/index.js:123-133 | after an edit (and the `getWells` its callback starts), `inputValue` is the new value. The suggestions are exactly those of this edit's own response (or `[]`). The only error is this response's. The selection, the detail flag and the modal are untouched. The returned value is `undefined` when no request is issued, otherwise the fetched wells or `[]` |
| `Session.Render` | src/components/SearchBar/index.js:170-204 | the chosen-well views are shown exactly when `well.uuid` is truthy, and `showDetails` picks details over summary. The search form shows the table exactly when there are suggestions, and the error banner exactly when there is an error |
| `Session.StepKeepsReachable` | src/components/SearchBar/index.js:52-167 | no handler clears `showDetails` or changes the confirmation text |
| `Session.RunKeepsReachable` | src/components/SearchBar/index.js:88-92 | after any sequence of events `showDetails` is still true, so a chosen well is always rendered with its details (the closure that would toggle it is never called) |
| `Session.ToggleTwice` | src/components/SearchBar/index.js:52-54 | confirming twice restores the state |
| `Session.ResetForgetsSelection` | src/components/SearchBar/index.js:56-57 | resetting after a selection equals resetting without it, and shows the search form |
| `Session.SelectShowsDetails` | src/components/SearchBar/index.js:173-175 | choosing a well with a truthy `uuid` shows its details, with the current modal flag |
| `Session.ResetKeepsSearch` | src/components/SearchBar/index.js:27-41 | after typing, a successful search, a selection and a reset, the state is the initial one plus the typed value and the found wells, and it is not the initial state |
| `Export.ParseGroups` | src/components/SearchBar/index.js:157-162 | the payload exists if and only if every group parses. It has one entry per group, in group order, keyed by the group's region and holding that group's parse |
| `Export.DetailPayload` | src/components/SearchBar/index.js:82-83 | the single-well payload has exactly one entry, keyed by `wellData.Region` (`undefined` when that attribute is absent) and holding the parse of the well; it is absent when the parser rejects or there is no `wellData` |
| `Component.SearchBar.constructor` | src/components/SearchBar/index.js:36-41 | the component starts in `Session.Initial()` |
| `Component.SearchBar.HandleConfirmationOk` | src/components/SearchBar/index.js:52-54 | the new state is `ToggleConfirmation` of the old one |
| `Component.SearchBar.Reset` | src/components/SearchBar/index.js:56-60 | the new state is `Session.Reset` of the old one |
| `Component.SearchBar.OnChange` | src/components/SearchBar/index.js:69-78 | the new state is `Select` of the old one with the chosen well |
| `Component.SearchBar.GetWells` | src/components/SearchBar/index.js:95-121 | the URL requested, the new state and the returned value are those of `Session.GetWells` |
| `Component.SearchBar.HandleInputChange` | src/components/SearchBar/index.js:123-133 | the step-by-step updates (value; error cleared if present; suggestions cleared; `getWells`) end in `InputChanged` of the old state |
| `Component.SearchBar.ExportExcel` | src/components/SearchBar/index.js:150-168 | the payload exists if and only if every suggested well has `wellData` (otherwise the grouping key throws) and every region group parses. It then has one entry per group, in group order, keyed by the group's region and holding that group's parse. The file is created exactly when the writer accepts that payload, and the modal flips exactly then |
| `Component.SearchBar.HandleClickDetails` | src/components/SearchBar/index.js:80-87 | the single-entry payload is written, and the modal flips exactly when the writer reports a created file |

## Left out

- `FetchWithTimeout`, `window.fetch`, `Headers` with the API key, the timeout and `response.json()`: network I/O. Their result is the `Response` parameter: a transport failure, or an envelope with `ok`, `message` and `payload`.
- An envelope whose `payload` is present but has no `wells`: the source would store `undefined` as the suggestions. The model's payload either carries a well list or is absent.
- `json.ok` is modelled as a boolean. Only `uuid` gets JavaScript truthiness: present and not `''`.
- `parse`, `dataToExcel` and `groupBy` live in files that are not part of this model. They are parameters, so the model claims nothing about how groups are built or what the parser produces. A rejected parse is `None`. A writer that rejects is treated like one that returns false, since neither changes the state.
- The rendering itself: JSX, `ReactTable`, `Modal`, `ErrorDisplay`, the table rows built in `showsuggestedwellstable`, and the `updateHeader`, `updateFooter` and `onWellSelect` callbacks. `Session.Render` records only which view and which parts are shown.
- Asynchronous interleaving. Each handler runs to completion with the response it receives, so a slow response arriving after a later edit, and React's batching beyond the one `handleInputChange` relies on, are not modelled.
- The in-place `Object.assign(well, { search })` tagging of wells before rendering and parsing: it mutates shared records, and the parser that reads the tag is not part of this model.
- The closure returned by `handleClickDetails`: nothing calls it, so nothing in the model toggles `showDetails`.
- `e.preventDefault()` and `e.stopPropagation()`: browser event plumbing.
