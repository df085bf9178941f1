# Movie watch-list store, modelled in Dafny

The app is a single React Native screen, `App` in `App.js`. It keeps a movie watch-list in two
pieces of component state:

- `filmes` is the ordered list of entries `{id, nome, assistido}`.
- `filme` is the text in the input field.

Four handlers change the list:

- `adicionarFilme` trims the input and appends an unwatched entry.
- `marcarComoAssistido` flips the watched flag of every entry with a given id.
- `removerFilme` drops every entry with a given id.
- `limparTudo` empties the list.

Each handler hands the new list to `salvarFilmes`, which writes it under one storage key.
`carregarFilmes` reads that key once at start-up. The screen shows how many entries are watched.

The model has three modules:

- `JsString` (`js_string.dfy`) models JavaScript's `String.prototype.trim`. The white-space
  set is the one in sections 12.2 and 12.3 of ECMA-262. `Trim` is characterised by its
  contract and `TrimIsSlice`, and `TrimOfPadded` proves the converse.
- `WatchList` (`watch_list.dfy`) holds the `Entry` datatype and the pure list computations:
  `Toggled` (the `map`), `Without` (the `filter`) and `WatchedCount` (the count), with lemmas
  relating them. It also holds the class `Store`. Its fields are `filmes`, `filme` and a ghost
  `saved`, the last snapshot handed to `salvarFilmes`. Each handler is one method.
- `Scenarios` (`scenarios.dfy`) holds client methods that walk through the store. They use
  only the handlers' contracts: a blank input, a padded input, distinct ids, and two entries
  sharing one id.

Where the app's specification and its code differ, the model follows the code:

- Ids need not be unique. The id is `Date.now().toString()` (App.js:47), and two adds in the
  same millisecond get the same id. So the id is a method parameter, and marking and removing
  act on every entry with that id. `WithoutLength` proves that removal drops the list by the
  number of matches. That is one only when the id is unique.
- On start-up, a missing, empty or unparsable stored value leaves the list as it is. It does
  not reset the list to empty. Since the list starts empty, the result is the same at launch.
- Loaded entries are taken as they are. Only entries created by `adicionarFilme` are known to
  have trimmed, non-empty names. The handlers preserve `NamesTrimmed` but do not establish it.

## Model

| member | source | states |
|---|---|---|
| `JsString.Trim` | App.js:44-48 | The trimmed input is no longer than the input and neither starts nor ends with white space. It is empty exactly when the input is all white space, which is the case `!filme.trim()` refuses. |
| `JsString.TrimIsSlice` | App.js:44-48 | The trimmed input is a slice of the input, and everything before and after that slice is white space. |
| `JsString.TrimOfPadded` | App.js:44-48 | Converse of Trim's contract: white space, then a core that neither starts nor ends with white space, then white space, trims to that core. Together the two determine `trim`. |
| `JsString.TrimIdempotent` | App.js:44-48 | Trimming an already trimmed string changes nothing, so the stored `nome` is a fixed point of `trim`. |
| `WatchList.TrimmedNameIff` | App.js:44-48 | A name is non-empty and neither starts nor ends with white space exactly when it is non-empty and `trim` leaves it unchanged. |
| `WatchList.AppendKeepsNames` | App.js:46-52 | Appending an entry whose name is trimmed and non-empty to a list of such names gives a list of such names. |
| `WatchList.Toggled` | App.js:59-61 | Same length. Every entry whose id differs is unchanged in its place. Every entry whose id matches keeps its id and name and has its watched flag negated. |
| `WatchList.ToggledTwice` | App.js:59-61 | Marking the same id twice gives back the original list. |
| `WatchList.ToggledUnchangedIff` | App.js:59-61 | Marking leaves the list unchanged if and only if no entry has that id. |
| `WatchList.ToggledAppend` | App.js:59-61 | Marking works entry by entry: it distributes over concatenation, so order is preserved. |
| `WatchList.ToggledKeepsNames` | App.js:59-61 | Marking keeps every name, so a list of trimmed non-empty names stays one. |
| `WatchList.Without` | App.js:67 | The result is no longer than the list, and no remaining entry has the removed id. |
| `WatchList.WithoutMultiset` | App.js:67 | Each entry with another id is kept exactly as many times as it occurred. Entries with the removed id are all gone. |
| `WatchList.WithoutMembers` | App.js:67 | An entry remains if and only if it was in the list and its id differs from the removed one. |
| `WatchList.WithoutUnchangedIff` | App.js:67 | Removal leaves the list unchanged if and only if no entry has that id. |
| `WatchList.WithoutLength` | App.js:67 | The length drops by exactly the number of entries with that id. That number is zero exactly when no entry has the id. |
| `WatchList.WithoutAppend` | App.js:67 | Removal distributes over concatenation, so remaining entries keep their relative order. |
| `WatchList.WithoutToggled` | App.js:59-67 | Removing an id after marking it gives the same list as removing it directly. |
| `WatchList.WithoutIdempotent` | App.js:67 | Removing the same id twice is the same as removing it once. |
| `WatchList.WithoutKeepsNames` | App.js:67 | Removal keeps only old entries, so a list of trimmed non-empty names stays one. |
| `WatchList.WatchedCount` | App.js:145 | The watched count is at most the list length. |
| `WatchList.WatchedCountExtremes` | App.js:145 | The count is 0 exactly when no entry is watched, and equals the length exactly when every entry is. |
| `WatchList.WatchedCountAppend` | App.js:145 | Appending an entry raises the count by one exactly when that entry is watched. |
| `WatchList.WatchedCountSplit` | App.js:145 | The count is the count of entries kept by removal plus the count of entries removed. |
| `WatchList.WatchedCountToggled` | App.js:145 | After marking, the count is the count of non-matching entries plus the number of matching entries that were unwatched. |
| `WatchList.Store.constructor` | App.js:17-18 | Both state slots start empty, and nothing has been saved yet. |
| `WatchList.Store.SetFilme` | App.js:126-127 | Typing sets the input text. The list and the saved snapshot are not touched. |
| `WatchList.Store.SalvarFilmes` | App.js:35-41 | The snapshot handed to storage is the whole given list. Nothing else changes. |
| `WatchList.Store.CarregarFilmes` | App.js:24-33 | The list is replaced by the decoded value only when a non-empty stored value was read and it decodes. Otherwise the list is unchanged. |
| `WatchList.Store.AdicionarFilme` | App.js:43-56 | Input that is blank once trimmed leaves the list, the input and the snapshot unchanged. Otherwise one entry is appended at the end, with the given id, the trimmed input as name, and not watched. Earlier entries are unchanged and in order, the snapshot equals the new list, and the input is cleared. The watched count is unchanged, and trimmed names stay trimmed. |
| `WatchList.Store.MarcarComoAssistido` | App.js:58-64 | The new list is `Toggled` of the old one, the snapshot equals it, and the input is not touched. |
| `WatchList.Store.RemoverFilme` | App.js:66-70 | The new list is `Without` of the old one, the snapshot equals it, and the input is not touched. |
| `WatchList.Store.LimparTudo` | App.js:72-75 | The list is empty whatever it held before, the snapshot is the empty list, and the input is not touched. |

## Left out

- Rendering, JSX, `renderItem`, the banner and the style sheet (App.js:77-373) are presentation only.
- Storage I/O is not modelled. `AsyncStorage.getItem`/`setItem`, their `await`, and the
  `try`/`catch` with `console.log` are foreign calls. A write is modelled only as the ghost
  snapshot `saved`. Whether a write succeeds, and in what order overlapping writes land, is not
  modelled. A read is modelled as an `Option<string>` parameter, where `None` means the key was
  absent or the read failed.
- Asynchrony is not modelled. `carregarFilmes` may finish after a handler has already run and
  then overwrite its result. The model runs every operation to completion, one after another.
- React state batching is not modelled. Each handler reads the `filmes` of the last render. The
  model assumes every handler sees the result of the previous one.
- `JSON.parse` and `JSON.stringify` are library calls, so their round trip is not proved.
  - `WatchList.Store.CarregarFilmes` takes the parse as a parameter that returns a list or fails.
  - A stored value that parses to something other than a list of entries is not modelled.
- `Date.now()` is a clock read, so the id is a parameter. The model does not assume it is
  fresh.
- `JsString.Trim` works on Dafny characters. JavaScript strings are UTF-16 code units, and every
  white-space character listed is a single code unit, so the two agree for `trim`.
