# InkSync document store and writing assistant, modelled in Dafny

InkSync is a single-page note editor: a sidebar lists documents, an editor
pane edits the selected one, and a writing assistant appends a suggestion
from a generative-text service to the document. This project models the
state logic of `index.tsx`:

- the App component's state, an ordered list of documents (`id`, `title`,
  `content`, `lastEdited`) and an optional `activeDocId`, with its start-up
  seeding and selection, and its create, update-content, update-title,
  delete and select handlers, plus the `activeDoc` lookup;
- the Editor component's writing-assistant flow: the blank-instruction guard,
  the trailing 800-character context window, the joining of the suggestion
  to the content, and the `aiPrompt` / `isAiLoading` fields;
- the rule by which the suggestion call turns its outcome into text.

Modules, leaf first:

- `Wrappers` (`wrappers.dfy`): `Option`.
- `Documents` (`documents.dfy`): the `Document` datatype and the pure list
  transforms behind the handlers (`find`, `map`, `filter`, the seeded list,
  `docs[0]?.id || null`), with their lemmas.
- `Workspace` (`workspace.dfy`): the App state as a value (`AppState`) and
  one transition function per handler, with the selection lemmas.
- `AppShell` (`app_shell.dfy`): class `App`, whose fields are `documents`
  and `activeDocId` and whose handler methods assign those transitions.
- `SuggestionClient` (`suggestion_client.dfy`): outcome-to-text rule.
- `EditorPane` (`editor_pane.dfy`): JavaScript `trim`, `slice(-800)`, the join
  rule, and class `Editor` with `aiPrompt` and `isAiLoading`. The awaited
  `handleAiAction` is split into `HandleAiAction` (before the `await`) and
  `CompleteAiAction` (after it). The `Request` passed between them carries
  the content and target id captured when the request began.
- `Sessions` (`sessions.dfy`): runs of handler calls and the invariants that
  hold along them.

Inputs of the model: the clock (`Date.now()`) is a `now` or `seededAt`
parameter. The new document's id (`Date.now().toString()`) is an `id`
parameter. The stored value is an `Option<string>`, and `JSON.parse` is a
`decode` function that may fail. The service call's result is an `Outcome`.
The id an update targets is explicit. In the source it is the `activeDocId`
captured by the handler's closure.

Some behaviours of the code are easy to miss; the model follows the code:

- Selecting an id sets the selection without checking that a document has
  that id. No editor is then shown (`SelectMissingShowsNothing`).
- Only an absent or empty stored string is seeded. A stored `"[]"` gives an
  empty workspace with nothing selected (`StoredEmptyListStaysEmpty`).
- Stored text that does not parse, or that parses to something other than
  a list of documents, is not recovered: `Load` returns `ParseError`.
- `x?.id || null` turns an empty-string id into no selection (`FirstId`).
  So "selection is none exactly when the list is empty" needs non-empty
  ids. The source's own ids ("1" and decimal clock readings) are non-empty.
- Only the disabled Sync AI button stops a second request while one is
  loading. Ctrl/Cmd+Enter does not (`Editor.KeyDown`).
- A suggestion is joined to the content captured when the request began. An
  edit of that document's content made in the meantime is overwritten and
  leaves no trace (`InterimEditIsOverwritten`).

## Model

| member | source | states |
|---|---|---|
| `Documents.InitialDocs` | index.tsx:203-210 | the seeded list: the single welcome document with id "1", stamped at load time |
| `Documents.Load` | index.tsx:203-221 | absent or empty stored text gives the seeded list; other text gives what it decodes to, or an error that is not recovered |
| `Documents.FirstId` | index.tsx:222 | the first document's id; none exactly when the list is empty or that id is the empty string |
| `Documents.FindDoc` | index.tsx:234 | a found document is in the list and has the active id; none exactly when no document has the active id (or nothing is selected) |
| `Documents.FindDocFirst` | index.tsx:234 | the document found is the first one with the active id |
| `Documents.FirstIndex` | index.tsx:234 | the document found sits at a position with no earlier document carrying the active id |
| `Documents.FindDocUnique` | index.tsx:234 | with distinct ids, the active id finds exactly its document |
| `Documents.Revise` | index.tsx:238 | the edited field takes the new value, the stamp becomes `now`, id and the other field are kept |
| `Documents.UpdateWhere` | index.tsx:236-246 | same length; each document with the target id is revised, every other one is unchanged in its place |
| `Documents.UpdatePreservesIds` | index.tsx:236-246 | an edit keeps every position's id, the id set, and distinctness |
| `Documents.UpdateUnknownTarget` | index.tsx:236-239 | a target no document has leaves the list unchanged |
| `Documents.UpdateLastWriteWins` | index.tsx:236-239 | two content edits of one target equal the second one alone (its value and its stamp) |
| `Documents.SameContentOnlyRestamps` | index.tsx:236-239 | writing back the current content changes only the target's `lastEdited` |
| `Documents.Remove` | index.tsx:256 | the filtered list is no longer than the original |
| `Documents.RemoveMembers` | index.tsx:256 | a document survives a delete exactly when it was in the list with another id |
| `Documents.RemoveAbsent` | index.tsx:256 | deleting an id no document has leaves the list unchanged |
| `Documents.RemoveConcat` | index.tsx:256 | deleting distributes over concatenation, so survivors keep their relative order |
| `Documents.RemoveOnlyAt` | index.tsx:256 | when only position k has an id, deleting it gives the list without position k |
| `Documents.RemoveUniqueAt` | index.tsx:256 | with distinct ids, deleting the id at k removes exactly that document |
| `Documents.RemoveKeepsUnique` | index.tsx:256 | deleting keeps ids distinct |
| `Documents.RemoveIds` | index.tsx:256 | the ids after a delete are the old ids less the deleted one |
| `Documents.PrependUnique` | index.tsx:250 | prepending a document with an unused id keeps ids distinct |
| `Workspace.ActiveDoc` | index.tsx:234 | `activeDoc`: the document lookup applied to the state's list and selection |
| `Workspace.NewDocument` | index.tsx:249 | the blank document a create adds: the given id, empty title and content, stamped now |
| `Workspace.UpdateContent` | index.tsx:236-240 | `handleUpdateContent` as a transition: the list edited at the target, the selection kept |
| `Workspace.UpdateTitle` | index.tsx:242-246 | `handleUpdateTitle` as a transition: the list edited at the target, the selection kept |
| `Workspace.DeleteDoc` | index.tsx:254-260 | `handleDeleteDoc` as a transition: the filtered list, and the first remaining id when the selection was deleted |
| `Workspace.SelectDoc` | index.tsx:279 | `setActiveDocId` as a transition: the selection set, unchecked |
| `Workspace.Initial` | index.tsx:218-222 | the loaded list with a valid selection; none only for an empty list (given non-empty ids); a first document with a non-empty id is shown |
| `Workspace.CreateNew` | index.tsx:248-252 | one blank document with the given id and stamp goes in front of the unchanged old list, and it is selected and shown |
| `Workspace.StartupSeeds` | index.tsx:203-222 | with nothing stored, the list is the welcome document with id "1", which is selected and shown |
| `Workspace.StoredEmptyListStaysEmpty` | index.tsx:219-222 | a stored empty list is not reseeded, and nothing is selected or shown |
| `Workspace.UpdateKeepsInvariants` | index.tsx:236-246 | edits keep the selection, the id set, distinct ids and a valid selection |
| `Workspace.UpdateActiveIsShown` | index.tsx:234-239 | in any state, duplicate ids included, after editing the shown document the editor shows it with the new content and stamp |
| `Workspace.DeleteActiveFallsBack` | index.tsx:254-260 | deleting the selected id removes it; the selection becomes the new first id or none, so it is valid; with non-empty ids it is none exactly when the list is empty |
| `Workspace.DeleteOtherKeepsSelection` | index.tsx:254-260 | deleting another id leaves the selection unchanged, and still valid if it was |
| `Workspace.DeleteKeepsIds` | index.tsx:254-258 | after a delete, ids are the old ones less the deleted one; distinctness and non-emptiness are kept |
| `Workspace.CreateKeepsUnique` | index.tsx:248-252 | creating with an unused id keeps ids distinct |
| `Workspace.SelectMissingShowsNothing` | index.tsx:279 | selecting an id no document has still sets it, and then no document is shown |
| `Workspace.ActiveDocIffSelected` | index.tsx:234 | a document is shown exactly when the selection is set and some document has that id |
| `AppShell.App.constructor` | index.tsx:218-222 | mounting keeps the loaded list and selects its first id, a valid selection |
| `AppShell.App.ActiveDoc` | index.tsx:234 | the shown document is in the list with the selected id; none exactly when nothing is selected or no document has the id |
| `AppShell.App.HandleCreateNew` | index.tsx:248-252 | the new state is `CreateNew` of the old one: blank document in front, selected and shown; distinct ids are kept when the id is unused |
| `AppShell.App.HandleUpdateContent` | index.tsx:236-240 | documents with the target id get the new content and stamp; all other documents, the ids, the length and the selection are unchanged |
| `AppShell.App.HandleUpdateTitle` | index.tsx:242-246 | documents with the target id get the new title and stamp; all other documents, the ids, the length and the selection are unchanged |
| `AppShell.App.HandleDeleteDoc` | index.tsx:254-260 | the list is filtered and the id is gone; a deleted selection falls back to a valid one, any other selection is unchanged |
| `AppShell.App.SelectDoc` | index.tsx:279 | the selection becomes the id, unchecked; the list is unchanged |
| `SuggestionClient.SuggestionText` | index.tsx:18-21 | never empty: the response text when there is some, the no-idea placeholder for a missing or empty text, the nap fallback on failure |
| `EditorPane.IsWhiteSpace` | index.tsx:119 | the characters `trim` removes: ECMAScript white space and line terminators |
| `EditorPane.TrimStart` | index.tsx:119 | a suffix of the input; everything removed is white space; the result does not start with white space |
| `EditorPane.TrimEnd` | index.tsx:119 | a prefix of the input; everything removed is white space; the result does not end with white space |
| `EditorPane.Trim` | index.tsx:119 | empty exactly when the instruction is all white space; otherwise it starts and ends with a visible character |
| `EditorPane.SliceFrom` | index.tsx:128 | a suffix of the input; for a negative start its length is the smaller of minus the start and the input's length |
| `EditorPane.ContextWindow` | index.tsx:128 | the suffix of the content of length min(800, length); a content of at most 800 characters is sent whole |
| `EditorPane.AppendSuggestion` | index.tsx:130 | the old content is a prefix and the suggestion a suffix; a blank line separates them exactly when the old content is non-empty |
| `EditorPane.AppendedContentGrows` | index.tsx:128-130 | whatever the outcome, the old content is a proper prefix of the new content |
| `EditorPane.InterimEditIsOverwritten` | index.tsx:128-131 | a content edit of the target made while a request is out is overwritten: writing the joined suggestion afterwards gives the same state as if it had never been made |
| `EditorPane.IsSubmitShortcut` | index.tsx:145 | the submit shortcut: Enter with Ctrl or Cmd held |
| `EditorPane.Editor.constructor` | index.tsx:114-115 | the instruction starts empty and nothing is loading |
| `EditorPane.Editor.SyncEnabled` | index.tsx:189 | the Sync AI button is enabled exactly when nothing is loading and the instruction is non-empty |
| `EditorPane.Editor.SetPrompt` | index.tsx:181 | the instruction becomes the typed text; loading is unchanged |
| `EditorPane.Editor.HandleAiAction` | index.tsx:118-128 | a blank instruction changes nothing and sends nothing; otherwise loading starts and the request carries the 800-character context, the instruction, the shown content and its id |
| `EditorPane.Editor.CompleteAiAction` | index.tsx:128-133 | the app's new state is the content update of the captured id to the joined text; the captured content is a proper prefix of it; the instruction is cleared and loading ends |
| `EditorPane.Editor.ClickSync` | index.tsx:187-189 | while loading, or with an empty or blank instruction, a click sends nothing and changes nothing; when idle with a visible instruction, loading starts and the request carries the 800-character context, the instruction, the shown content and its id |
| `EditorPane.Editor.KeyDown` | index.tsx:144-147 | keys other than Ctrl/Cmd+Enter, and the shortcut with a blank instruction, send nothing and change nothing; the shortcut with a visible instruction starts a request with the context, instruction, content and id, even while loading |
| `Sessions.Apply` | index.tsx:236-279 | one handler call (create, edit content, edit title, delete, select) as its Workspace transition |
| `Sessions.ReplayKeepsIdsUnique` | index.tsx:236-260 | along any run whose creates use unused ids, ids stay distinct |
| `Sessions.StepKeepsCoherent` | index.tsx:222-279 | each handler call the UI can make keeps ids distinct and non-empty and the selection valid, and none only for an empty list |
| `Sessions.ReplayKeepsCoherent` | index.tsx:222-279 | the same holds along every run of such calls |
| `Sessions.CoherentShowsEditor` | index.tsx:286 | in a coherent state an editor is shown exactly when there is a document |
| `Sessions.InitialCoherent` | index.tsx:218-222 | start-up from distinct non-empty ids is coherent |
| `Sessions.CreateInEmptyWorkspace` | index.tsx:248-252 | creating in an empty workspace gives one blank document, selected |
| `Sessions.DeleteSelectedOfTwo` | index.tsx:254-260 | documents "1" and "2" with "1" selected: deleting "1" leaves "2", selected |

## Left out

- Persistence: `localStorage` reads and writes and serialisation with `JSON.parse`/`JSON.stringify` (index.tsx:219-220, 225-227) are browser storage and library code. Parsing is the `decode` parameter. The write-after-every-change effect and a store/reload round trip are not modelled.
- The generative-text request (index.tsx:7-17), its prompt template and model name, and the `console.error` logging (index.tsx:20) are a network call to a foreign library. Only the outcome-to-text rule is modelled.
- `services/geminiService.js` is not part of this model. It is a second, unused wrapper around the same service; `index.tsx` does not import it.
- `components/Sidebar.tsx` is not part of this model. It only re-exports another module.
- The welcome splash timer (index.tsx:229-232), the `gsap` animations, all JSX markup and styling, and the static collaborators list (index.tsx:212-215) are presentation.
- The delete confirmation dialog (index.tsx:85): `HandleDeleteDoc` is the call made after the user confirms.
- Asynchrony and React's scheduling: batched state updates, updater functions that React may run twice, and handlers that see the state of the last render. The model applies each handler to the current state, one at a time. Between `HandleAiAction` and `CompleteAiAction` any other calls may interleave. A state update on an unmounted editor is not modelled.
- Strings are sequences of Unicode scalar values. JavaScript's `length` and `slice` count UTF-16 code units, so for text beyond the Basic Multilingual Plane the 800-character window differs.
- Id generation: `Date.now().toString()` becomes the `id` parameter. Two documents created within the same millisecond would get the same id. The code does not prevent this, so the uniqueness lemmas assume fresh ids, and the create handler does not require them.
- `lastEdited` is whatever the `now` parameter is. Nothing is claimed about the clock increasing between edits.
