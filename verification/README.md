# Offline inspection forms: drafts, sync and form state, in Dafny

This project models the core of an inspection app, `meu-app-fiscalizacao`. Inspectors fill in
structured forms on a phone. Each filled form is saved on the device as a *draft* record under
the storage key `form_responses`. A sync screen later sends every draft to the remote
`form_responses` table and marks the accepted ones as `synced` in the stored list.

The model has six modules:

- `Common` (`common.dfy`): `Option`, `Result`, and JavaScript's `Array.prototype.filter` as
  `Filter`, with its properties proved once. It keeps exactly the elements that pass the test,
  in the same order, and filtering distributes over concatenation.
- `Records` (`records.dfy`): the response record, the payload sent remotely, and the
  key-value store. The store is a class whose value is `None` while the key is absent; it
  counts whole-list writes.
- `Forms` (`forms.dfy`): sections of form items, the flattened item list, the required items,
  and the single-key answer update that both screens use.
- `Sync` (`sync.dfy`): the sync screen. `LoadPendingReports` filters the drafts.
  `SincronizarRelatorios` is the batch, imperative as in the source. It returns early when
  nothing is pending. Otherwise it submits each report in order to a `Remote` whose insert
  outcomes are an oracle sequence. Each accepted report is marked synced in an array copy of
  the stored list, found with `findIndex` and updated in place. Successes are counted, and the
  list is written back once. The batch is proved against the specification function
  `Reconcile`, and lemmas about `Reconcile` state what a batch does to the stored list.
- `Formulario` (`formulario.dfy`): the form screen. It maps the fetched schema to form items,
  sets answers, adds an uploaded photo and its `_photos` answer, and saves. Saving rejects
  the first unanswered required question or appends a new draft.
- `Inspection` (`inspection.dfy`): the standalone app's photo updates (add and remove a photo)
  and its three header counters. Its answer update is `Forms.AtualizarResposta`.

Two points of the sync code shape the model:

- `findIndex` marks only the first stored record carrying an accepted id
  (SyncScreen.js:48-50), and `Sync.MarkSynced` does the same. `Sync.ReconcileMarksAccepted`
  proves that, when stored ids are unique, this is the same as marking every accepted id.
- Only an absent key reads as the empty list (SyncScreen.js:15, SyncScreen.js:37), which
  `Records.LoadAll` models.

## Model

| member | source | states |
|---|---|---|
| Common.Filter | SyncScreen.js:16 | every kept element passes the test, and the result is no longer than the input |
| Common.FilterMultiset | SyncScreen.js:16 | each passing element is kept as often as it occurs in the input; failing elements never appear |
| Common.FilterIsSubsequence | SyncScreen.js:16 | the kept elements appear in their original relative order |
| Common.FilterKeepsAll | meu-app-fiscalizacao/App.js:163 | filtering with a test every element passes returns the input unchanged |
| Common.FilterConcat | meu-app-fiscalizacao/FormularioScreen.js:81 | filtering `a + b` is filtering `a`, then `b`, and concatenating |
| Common.FilterIdempotent | SyncScreen.js:16 | filtering twice with the same test equals filtering once |
| Common.EndsWith | meu-app-fiscalizacao/App.js:366 | `key.endsWith(suffix)` holds exactly when the key is some prefix followed by the suffix |
| Records.ToPayload | SyncScreen.js:41-42 | the row sent keeps the form id, answers, photos, creation time and title, and has status synced |
| Records.PayloadIgnoresIdAndStatus | SyncScreen.js:41-42 | the row sent does not depend on the record's local id or its status |
| Records.LoadAll | SyncScreen.js:15 | an absent key reads as the empty list; a stored list reads as itself |
| Records.Storage.GetItem | SyncScreen.js:14 | reading the key returns the stored value (None when absent) |
| Records.Storage.SetItem | SyncScreen.js:59 | the key now holds the whole given list, and the write count goes up by one |
| Sync.FilterPending | SyncScreen.js:14-16 | the pending list holds only drafts, each draft as often as it is stored, in stored order |
| Sync.FilterPendingIdempotent | SyncScreen.js:16 | filtering the pending list again changes nothing |
| Sync.SyncScreen.LoadPendingReports | SyncScreen.js:12-19 | `pendingReports` becomes the drafts of the stored list; an absent key gives the empty list |
| Sync.FindIndex | SyncScreen.js:48 | the result is the first position carrying the id, or -1 when no record carries it |
| Sync.MarkSynced | SyncScreen.js:48-51 | the local update after one accepted submit keeps the list's length (its full contract is `MarkSyncedSpec`) |
| Sync.MarkSyncedSpec | SyncScreen.js:46-51 | after an accepted submit, only the first record with that id can change, and it becomes synced; with no match the list is unchanged; no other field changes |
| Sync.MarkSyncedInPlace | SyncScreen.js:48-51 | the in-place update of the array equals `MarkSynced` on its old contents |
| Sync.Reconcile | SyncScreen.js:39-56 | the stored list after the first `n` submits keeps its length; what those submits change is stated by `ReconcileRefines`, `ReconcileWithoutSuccess` and `ReconcileMarksAccepted` |
| Sync.ReconcileRefines | SyncScreen.js:36-59 | the saved list has the length and order of the list read; each record is unchanged or has only its status set to synced, so no record goes back to draft |
| Sync.CountTrue | SyncScreen.js:52 | the success count never exceeds the number of submits made |
| Sync.CountTrueExtremes | SyncScreen.js:62-65 | the count is 0 exactly when every submit failed, and equals the number attempted exactly when all succeeded |
| Sync.Payloads | SyncScreen.js:39-44 | one payload per submitted report, in order: the report without its id and with status synced |
| Sync.Accepted | SyncScreen.js:44-52 | the remote gains as many rows as there were successes |
| Sync.ReconcileWithoutSuccess | SyncScreen.js:53-55 | failed submits leave the stored list exactly as read |
| Sync.ReconcileMarksAccepted | SyncScreen.js:46-51 | with unique ids, the saved list is the read list with exactly the accepted ids set to synced, whatever their order |
| Sync.DraftIsPending | SyncScreen.js:16 | every stored draft appears in the pending list |
| Sync.AllAcceptedLeavesNothingPending | SyncScreen.js:39-68 | with unique stored ids, and when the pending list is the drafts of the list the batch reads, when every pending report is accepted, nothing is pending after the reload |
| Sync.PendingAfterSync | SyncScreen.js:39-68 | with unique stored ids, and when the pending list is the drafts of the list the batch reads, after a batch, the reports still pending are exactly those whose submit did not succeed |
| Sync.Remote.Insert | SyncScreen.js:44 | an insert consumes one oracle outcome and records the attempt; a row is added only when it succeeds |
| Sync.SyncScreen.SubmitOne | SyncScreen.js:41-52 | one loop iteration: a single insert of the report's payload, and an in-place mark only when it succeeds |
| Sync.SyncScreen.SubmitAll | SyncScreen.js:33-56 | every report is submitted once, in order, and the loop does not stop on failures; the copy ends as `Reconcile` of the outcomes, and the count is the number of successes |
| Sync.SyncScreen.SincronizarRelatorios | SyncScreen.js:27-69 | an empty pending list returns at once, with no submit and no write; otherwise the stored list is reconciled and written exactly once, the summary gives successes and attempts, and the pending list is reloaded from the new contents |
| Forms.AllItems | meu-app-fiscalizacao/FormularioScreen.js:62 | the flattened item list of a single section is that section's items |
| Forms.AllItemsConcat | meu-app-fiscalizacao/FormularioScreen.js:62 | flattening two section lists put together is flattening each and concatenating |
| Forms.RequiredItems | meu-app-fiscalizacao/FormularioScreen.js:62 | the required items of all sections, in section-then-item order, each as often as it occurs |
| Forms.AtualizarResposta | meu-app-fiscalizacao/App.js:117-122 | the key now maps to the new value, and every other key keeps its value |
| Formulario.NatToString | meu-app-fiscalizacao/FormularioScreen.js:36-39 | the decimal rendering of an id is non-empty and made of digits |
| Formulario.NatToStringInjective | meu-app-fiscalizacao/FormularioScreen.js:36-39 | distinct natural numbers render differently |
| Formulario.IntToString | meu-app-fiscalizacao/FormularioScreen.js:36-39 | the rendering of an id is non-empty and starts with `-` exactly for negative ids |
| Formulario.IntToStringInjective | meu-app-fiscalizacao/FormularioScreen.js:36-39 | distinct integer ids become distinct string ids |
| Formulario.FormatSections | meu-app-fiscalizacao/FormularioScreen.js:35-48 | one section per fetched section and one item per question, in order; every item accepts attachments; a null option list becomes `[]`; other fields are copied |
| Formulario.FormatQuestion | meu-app-fiscalizacao/FormularioScreen.js:38-47 | an item accepts attachments, its id is the rendered question id, its required flag is copied, and a null option list becomes `[]` |
| Formulario.FormatSection | meu-app-fiscalizacao/FormularioScreen.js:35-48 | a section keeps its rendered id and title, and its items are its questions mapped one for one, in order |
| Formulario.FormattedIdsDistinct | meu-app-fiscalizacao/FormularioScreen.js:39 | items of questions with different ids get different ids |
| Formulario.Filled | meu-app-fiscalizacao/FormularioScreen.js:64 | an answer is truthy only when present; a text answer is truthy exactly when it is not the empty string; a photo-path list is truthy even when empty |
| Formulario.FirstMissing | meu-app-fiscalizacao/FormularioScreen.js:63-69 | None exactly when every required item has a truthy answer; otherwise the first required item without one |
| Formulario.AnsweringFills | meu-app-fiscalizacao/FormularioScreen.js:93-95 | setting a non-empty answer settles that question and leaves the others as they were |
| Formulario.NewDraft | meu-app-fiscalizacao/FormularioScreen.js:70-78 | the new record is a draft with id `offline_` plus the timestamp, and carries this form id, answers, photos, creation time and title |
| Formulario.SavedDraftIsPending | meu-app-fiscalizacao/FormularioScreen.js:70-82 | a saved draft appears at the end of the pending list, after the drafts already stored |
| Formulario.PhotosKeyInjective | meu-app-fiscalizacao/FormularioScreen.js:126 | different questions have different `_photos` answer keys |
| Formulario.AdicionarFoto | meu-app-fiscalizacao/FormularioScreen.js:124-127 | the photo goes at the end of its question's list (created if absent), and other lists are unchanged; the `_photos` answer lists that question's paths in order, and other answers are unchanged |
| Formulario.AdicionarFotoKeepsMirrors | meu-app-fiscalizacao/FormularioScreen.js:124-127 | adding a photo keeps every question's `_photos` answer in step with its photo list |
| Formulario.FormularioScreen.BuscarFormulario | meu-app-fiscalizacao/FormularioScreen.js:28-57 | with a form id and a successful fetch, the form becomes the mapped schema; otherwise it stays as it was |
| Formulario.FormularioScreen.AtualizarRespostaState | meu-app-fiscalizacao/FormularioScreen.js:93-95 | the answers map gets the single-key update; photos and questions are unchanged |
| Formulario.FormularioScreen.AdicionarFotoState | meu-app-fiscalizacao/FormularioScreen.js:97-135 | an aborted or failed upload changes nothing; a successful one applies `AdicionarFoto` |
| Formulario.FormularioScreen.SalvarDados | meu-app-fiscalizacao/FormularioScreen.js:59-91 | rejected exactly when a required answer is missing, naming the first one and leaving storage untouched; otherwise a draft with this form id, answers and photos is appended after the stored records |
| Inspection.AdicionarFoto | meu-app-fiscalizacao/App.js:140-143 | the photo goes at the end of the question's list (created if absent), the list grows by one, and other lists are unchanged |
| Inspection.RemoverFoto | meu-app-fiscalizacao/App.js:161-164 | every photo with that id leaves the list and the others keep their order and multiplicity; the list never grows, an absent id changes nothing, an absent list becomes `[]`, and other lists are unchanged |
| Inspection.DropAppended | meu-app-fiscalizacao/App.js:163 | removing the id of a photo appended to a list without that id gives the list back |
| Inspection.RemoverAfterAdicionar | meu-app-fiscalizacao/App.js:140-164 | removing a photo just added, when its id is fresh for that question, restores the photo map when the question already had a list; when it had none, it leaves an empty list under that question |
| Inspection.SumItemCounts | meu-app-fiscalizacao/App.js:364 | the `reduce` adds up to its start value plus the length of the flattened item list |
| Inspection.TotalQuestoes | meu-app-fiscalizacao/App.js:364 | `totalQuestoes` is the number of items over all sections |
| Inspection.IsWhitespace | meu-app-fiscalizacao/App.js:366 | the characters `trim` removes include space, tab, line feed and carriage return, and exclude every visible ASCII character |
| Inspection.TrimStart | meu-app-fiscalizacao/App.js:366 | only leading white space is removed; what remains is a suffix that does not start with white space |
| Inspection.TrimEnd | meu-app-fiscalizacao/App.js:366 | only trailing white space is removed; what remains is a prefix that does not end with white space |
| Inspection.Trim | meu-app-fiscalizacao/App.js:366 | the trimmed value is no longer than the value, and neither starts nor ends with white space |
| Inspection.TrimStartBlank | meu-app-fiscalizacao/App.js:366 | trimming the start empties a string exactly when it is all white space; otherwise it stops at a non-white character |
| Inspection.TrimEndBlank | meu-app-fiscalizacao/App.js:366 | trimming the end empties a string exactly when it is all white space |
| Inspection.TrimBlank | meu-app-fiscalizacao/App.js:366 | a value trims to empty exactly when it is made only of white space and line terminators |
| Inspection.Counted | meu-app-fiscalizacao/App.js:365-366 | a key is counted exactly when its value is not made only of white space and the key does not end in `_obs` |
| Inspection.CountedKeys | meu-app-fiscalizacao/App.js:365-367 | the keys `totalRespostas` counts are among the answer keys |
| Inspection.TotalRespostas | meu-app-fiscalizacao/App.js:365-367 | the count of answered keys never exceeds the number of keys |
| Inspection.CountedKeysAfterAtualizar | meu-app-fiscalizacao/App.js:365-367 | after setting one answer, the counted keys are the old ones with that key counted again by its new value only |
| Inspection.TotalRespostasAfterAtualizar | meu-app-fiscalizacao/App.js:365-367 | setting an answer changes `totalRespostas` by that key's contribution only; `_obs` keys and blank values never add to it |
| Inspection.TotalFotos | meu-app-fiscalizacao/App.js:368 | `totalFotos` is at least the length of every question's photo list |
| Inspection.TotalFotosTakeOut | meu-app-fiscalizacao/App.js:368 | the total is any one list's length plus the total of the remaining lists |
| Inspection.TotalFotosReplace | meu-app-fiscalizacao/App.js:368 | replacing one question's list changes the total by the difference in length |
| Inspection.TotalFotosAfterAdicionar | meu-app-fiscalizacao/App.js:368 | adding a photo adds exactly one to `totalFotos` |
| Inspection.TotalFotosAfterRemover | meu-app-fiscalizacao/App.js:368 | removing lowers `totalFotos` by exactly the number of photos removed, and never raises it |

## Left out

- Storage serialization: `AsyncStorage` and `JSON.parse`/`JSON.stringify` are left out. The store holds the list itself, or None while the key is absent. A malformed stored value, a failing write and the `try`/`catch` alert of `salvarDados` are not modelled.
- Remote calls: the Supabase client is left out (form fetch, insert, photo upload, auth). The insert outcomes are the oracle `Remote.replies`, a fetch is a `Result` parameter, and an upload is an `Option<Photo>` parameter.
- Sync.SyncScreen.SincronizarRelatorios: requires that the oracle holds an outcome for every pending report. The error text passed to `console.error` is not modelled.
- Clocks: the ISO timestamps (the `offline_` id, `created_at`) are parameters of `SalvarDados`. The photo file name and the photo id (`Date.now()`) are part of the given photo.
- Asynchrony: loading flags, alerts and navigation are left out, and the reloads triggered by screen focus are not modelled. The sync batch reads the store once; the model does not assume that `pendingReports` still matches the stored list at that point. `Sync.AllAcceptedLeavesNothingPending` and `Sync.PendingAfterSync` do assume it: their pending list is the drafts of the list the batch reads. When the screen's list is stale, a stored draft it does not hold is never submitted and stays pending.
- Device I/O: camera permission, image picking, EXIF coordinates and `fetch`/blob are left out; they only decide whether `AdicionarFotoState` receives a photo. The storage import path at meu-app-fiscalizacao/FormularioScreen.js:14 is taken to be the same store the sync screen reads.
- Sync.ReconcileMarksAccepted: requires unique ids. The code marks only the first record carrying an accepted id; `MarkSyncedSpec` states that case without the requirement.
- Sync.AllAcceptedLeavesNothingPending: holds only for stored lists with unique ids. With two drafts sharing an id, the code marks only the first, and the second stays pending even though its id was accepted. It also assumes the pending list is the drafts of the list the batch reads (see Asynchrony).
- Sync.PendingAfterSync: holds only for stored lists with unique ids, for the same reason; with a shared id, a later draft carrying an accepted id stays pending. It also assumes the pending list is the drafts of the list the batch reads (see Asynchrony).
- Formulario.FormularioScreen.BuscarFormulario: the form id is a string, and `if (formId)` is read as "not the empty string". A numeric id, such as `0`, and a missing route parameter are not represented.
- Formulario.SchemaQuestion: `required` is a boolean, so a null flag is read as false.
- Formulario.SchemaQuestion: `show_additional_observations` is also a boolean, and ids are integers rendered in decimal.
- Records.Record: `status` has exactly the two values the app writes, draft and synced.
- Inspection.TotalRespostas: answer values are strings. `toString` on other value types is not modelled.
- Inspection.TotalFotos: a ghost function, because it sums over the values of a map. `totalFotos` is therefore stated through lemmas, not computed.
- Out of scope: `gerarRelatorio` uses floating-point numbering, locale dates and a timer. Also left out are the standalone app's simulated load and save, its hard-coded form (the counters take the sections as input), rendering, styles, the root navigator, the login and form-list screens, and the photo-upload HTTP function.
