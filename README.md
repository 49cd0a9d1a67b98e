# Random comment generator: the frontend core, modelled in Dafny

The app hands out comments from admin-curated lists. Each device may draw
one comment per list. This project models the browser side of that
arrangement:

- **The device history mirror.** `localStorage` holds, per device id, a map
  from list id to a "has generated" flag. It supports load, save,
  update-one-entry and clear, and it swallows every storage failure.
- **The device id.** It is read from storage, or generated and stored. When
  `crypto.randomUUID` is missing, the id is the zero-padded hex of sixteen
  random bytes.
- **The device-scoped hooks.**
  - The history query rebuilds the mirror from the backend's answer; before
    the first fetch, the mirror seeds the page.
  - The single draw marks the list in the mirror and classifies its error
    message.
- **The midnight clear.** Once a day, during hour 0, all lists are cleared
  and the date of the clear is recorded.
- **The page handlers.**
  - `AdminPanel`: bulk-comment line parsing and its preview, list creation,
    bulk and single comment addition, lock toggle, deletion, the
    used/available split and the bulk totals.
  - `AdminPinDialog`: the four-digit PIN dialog.
  - `UserView` and `UploadSection`: the user and upload pages.
  - `AdminUserImageTable`: the sequential bulk image upload.

Every backend call is an input. A handler returns the request it would send
and takes the answer, or whether the call succeeds, as a parameter. The same
holds for the clock (`Date.now()`, the day and the hour), for randomness and
for `parseInt`. React state is a class per component, with one field per
`useState`. `localStorage` is the class `BrowserStorage.LocalStorage`.

The modules follow the source files. Each is listed with the file it models:

| module | source |
|---|---|
| `Backend` | the shared types of `backend.d.ts`, plus `Option` and `Reply` |
| `JsText` | the JavaScript string operations used: `trim`, `split`, `includes`, `replace(/\D/g, '')`, `padStart`, `toString(radix)` |
| `Entries` | `new Map(pairs)`, a `forEach` that fills an object, `Object.entries` |
| `BrowserStorage` | `localStorage` |
| `DeviceHistoryStorage` | `utils/deviceHistoryStorage.ts` |
| `DeviceId` | `utils/deviceId.ts` |
| `UserCommentHistory` | `hooks/useDeviceScopedUserCommentHistory.ts` |
| `GenerateComment` | `hooks/useDeviceScopedGenerateComment.ts` |
| `MidnightClear` | `hooks/useMidnightCommentListClear.ts` |
| `AdminPanel` | `pages/AdminPanel.tsx` |
| `AdminPinDialog` | `components/AdminPinDialog.tsx` |
| `UserView` | `pages/UserView.tsx` |
| `UploadSection` | `pages/UploadSection.tsx` |
| `AdminUserImageTable` | `components/AdminUserImageTable.tsx` |

Each storage operation is specified twice:

- a function gives its effect on the stored entries (`LoadFrom`, `SaveInto`,
  `UpdateInto`, `RemoveFrom`);
- a method performs it on a `LocalStorage` and ensures that effect.

The lemmas state the mirror's properties over those functions. The hooks and
pages call the methods. Their contracts are stated in terms of the same
functions.

JavaScript truthiness on a selected list (`!selectedList`) is written out as
`Backend.IsSelected`: `null` and the empty string both count as no
selection.

## Model

| member | source | states |
|---|---|---|
| DeviceHistoryStorage.HistoryKey | src/frontend/src/utils/deviceHistoryStorage.ts:8-17 | the key is the fixed prefix followed by the device id, which can be read back from it |
| DeviceHistoryStorage.HistoryKeyInjective | src/frontend/src/utils/deviceHistoryStorage.ts:8-17 | distinct device ids never share a storage key |
| DeviceHistoryStorage.LoadDeviceHistory | src/frontend/src/utils/deviceHistoryStorage.ts:22-34 | returns the history stored for the device; empty when storage fails |
| DeviceHistoryStorage.SaveDeviceHistory | src/frontend/src/utils/deviceHistoryStorage.ts:39-46 | stores the history under the device's key only; a storage failure changes nothing |
| DeviceHistoryStorage.UpdateDeviceHistoryEntry | src/frontend/src/utils/deviceHistoryStorage.ts:51-55 | the stored entries become those of load, set one entry, save |
| DeviceHistoryStorage.ClearDeviceHistory | src/frontend/src/utils/deviceHistoryStorage.ts:60-67 | removes the device's key only; a storage failure changes nothing |
| DeviceHistoryStorage.LoadWithoutHistory | src/frontend/src/utils/deviceHistoryStorage.ts:24-33 | a device with nothing stored, or with text that does not parse, loads as the empty history |
| DeviceHistoryStorage.SaveThenLoad | src/frontend/src/utils/deviceHistoryStorage.ts:22-46 | saving a history and loading it back gives that history |
| DeviceHistoryStorage.OtherDevicesUntouched | src/frontend/src/utils/deviceHistoryStorage.ts:15-17 | save, update and clear for one device leave every other device's history unchanged |
| DeviceHistoryStorage.UpdateSetsOneEntry | src/frontend/src/utils/deviceHistoryStorage.ts:51-55 | after an update the named entry holds the new flag; the device's other entries are unchanged and no other entry appears |
| DeviceHistoryStorage.UpdateIdempotent | src/frontend/src/utils/deviceHistoryStorage.ts:51-55 | the same update applied twice stores what it stores once |
| DeviceHistoryStorage.ClearThenLoad | src/frontend/src/utils/deviceHistoryStorage.ts:60-67 | after a clear the device loads as the empty history |
| DeviceHistoryStorage.FailuresAreSilent | src/frontend/src/utils/deviceHistoryStorage.ts:30-33 | when storage throws, load yields the empty history and save, update and clear leave the entries as they were |
| DeviceId.ByteToHex | src/frontend/src/utils/deviceId.ts:21 | a byte becomes exactly two lower-case hex digits, high nibble first |
| DeviceId.ByteDigits | src/frontend/src/utils/deviceId.ts:21 | `toString(16)` gives one digit below 16 and two from 16 on, which is why the padding is needed |
| DeviceId.HexEncode | src/frontend/src/utils/deviceId.ts:21 | the joined encoding has two hex digits per byte |
| DeviceId.HexRoundTrip | src/frontend/src/utils/deviceId.ts:21 | splitting the encoding into digit pairs recovers the bytes |
| DeviceId.DecodeFirstPair | src/frontend/src/utils/deviceId.ts:21 | the first two digits of an encoding decode to the first byte |
| DeviceId.GenerateDeviceId | src/frontend/src/utils/deviceId.ts:12-22 | the random UUID when the browser has one, otherwise a 32-character id |
| DeviceId.FallbackIdIsHexOfBytes | src/frontend/src/utils/deviceId.ts:19-21 | the fallback id is 32 lower-case hex digits that decode to the sixteen random bytes |
| DeviceId.GetDeviceId | src/frontend/src/utils/deviceId.ts:28-45 | a stored non-empty id is returned and nothing is written; otherwise a fresh id is stored and returned; without storage a fresh id is returned and nothing is persisted; with storage the returned id is the stored one |
| DeviceId.GetDeviceIdTwice | src/frontend/src/utils/deviceId.ts:28-45 | on working storage two calls return the same id |
| DeviceId.ClearDeviceId | src/frontend/src/utils/deviceId.ts:50-56 | removes the stored id; a storage failure changes nothing |
| DeviceId.ClearThenGet | src/frontend/src/utils/deviceId.ts:28-56 | after a clear, the next call generates, stores and returns a fresh id |
| DeviceId.TextKeysAreNotHistoryKeys | src/frontend/src/utils/deviceId.ts:7 | the device-id key and the last-clear-date key are never a device history key |
| Entries.FromEntries | src/frontend/src/hooks/useDeviceScopedUserCommentHistory.ts:24-27 | the object filled pair by pair has exactly the listed keys |
| Entries.LastWins | src/frontend/src/hooks/useDeviceScopedUserCommentHistory.ts:24-27 | a key ends up with the value of its last occurrence |
| Entries.ObjectEntries | src/frontend/src/hooks/useDeviceScopedUserCommentHistory.ts:39 | every key of the map appears once, with its value, and the pairs rebuild the map |
| UserCommentHistory.BuildHistoryMap | src/frontend/src/hooks/useDeviceScopedUserCommentHistory.ts:24-27 | the loop leaves the map built from the backend pairs, later pairs overriding earlier ones |
| UserCommentHistory.QueryFn | src/frontend/src/hooks/useDeviceScopedUserCommentHistory.ts:17-33 | without an actor: the empty list and no write; otherwise the backend's answer unchanged, and on success the mirror overwritten with the map built from it; a rejected call writes nothing |
| UserCommentHistory.InitialData | src/frontend/src/hooks/useDeviceScopedUserCommentHistory.ts:37-40 | the entries are exactly those of the device's mirror, each list once |
| UserCommentHistory.MirrorFollowsBackend | src/frontend/src/hooks/useDeviceScopedUserCommentHistory.ts:23-30 | after a fetch the mirror's list ids are exactly the backend's (local-only entries are dropped), each with the flag of its last occurrence |
| UserCommentHistory.FetchWritesOnlyThisDevice | src/frontend/src/hooks/useDeviceScopedUserCommentHistory.ts:13-30 | a fetch leaves every other device's mirror unchanged |
| GenerateComment.ErrorToast | src/frontend/src/hooks/useDeviceScopedGenerateComment.ts:34-42 | the message is shown unchanged exactly when it contains the one-comment-per-list text, and otherwise after the generic prefix |
| GenerateComment.Generate | src/frontend/src/hooks/useDeviceScopedGenerateComment.ts:18-42 | without an actor the draw fails with "Actor not available" and nothing is written; a drawn comment sets the list's flag to true in this device's mirror; a null result or an error writes nothing; an error shows `ErrorToast` |
| GenerateComment.ActorUnavailableIsGeneric | src/frontend/src/hooks/useDeviceScopedGenerateComment.ts:19-20 | a missing actor is reported with the generic prefix |
| GenerateComment.NeverWritesFalse | src/frontend/src/hooks/useDeviceScopedGenerateComment.ts:25 | after a successful draw, every false entry in any device's mirror was false before |
| MidnightClear.CheckAndClearAtMidnight | src/frontend/src/hooks/useMidnightCommentListClear.ts:12-45 | a clear is requested exactly when the hook is enabled, storage works, the recorded date is not today and the hour is 0; only a successful clear records today; otherwise storage is unchanged |
| MidnightClear.CheckTwiceSameDay | src/frontend/src/hooks/useMidnightCommentListClear.ts:14-45 | after a successful clear a second check that day requests nothing; after a failed one a second check in hour 0 requests again |
| AdminPanel.TrimmedLines | src/frontend/src/pages/AdminPanel.tsx:68 | each line is replaced by its trim, nothing else changes |
| AdminPanel.NonEmptyLines | src/frontend/src/pages/AdminPanel.tsx:69 | keeps only non-empty lines, all taken from the input |
| AdminPanel.ValidLines | src/frontend/src/pages/AdminPanel.tsx:65-70 | no valid line is empty |
| AdminPanel.ValidLinesKeepNonBlankInOrder | src/frontend/src/pages/AdminPanel.tsx:65-70 | the valid lines are the trims of the non-blank input lines, in input order |
| AdminPanel.ValidLinesAreTrimmed | src/frontend/src/pages/AdminPanel.tsx:65-70 | every valid line is non-empty and its own trim |
| AdminPanel.BlankTextHasNoLines | src/frontend/src/pages/AdminPanel.tsx:65-73 | the text yields no valid line exactly when it is blank |
| AdminPanel.UploadPreview | src/frontend/src/pages/AdminPanel.tsx:72-73 | the preview shows the first min(3, n) lines, and "and k more" appears exactly when n > 3, with k = n - 3 |
| AdminPanel.PreviewAccountsForAll | src/frontend/src/pages/AdminPanel.tsx:442-449 | the lines shown plus the lines counted as more are all the valid lines |
| AdminPanel.BulkCommentId | src/frontend/src/pages/AdminPanel.tsx:93 | the id splits at its dash into exactly two decimal numerals, which read back as the clock reading and the index |
| AdminPanel.BulkCommentIdInjective | src/frontend/src/pages/AdminPanel.tsx:93 | a bulk id determines the clock reading and the index |
| AdminPanel.BulkIdsDistinct | src/frontend/src/pages/AdminPanel.tsx:92-93 | two lines of one bulk add never share an id, whatever the clock reads |
| AdminPanel.BulkRequests | src/frontend/src/pages/AdminPanel.tsx:92-95 | one request per line, to the selected list, with the line as content |
| AdminPanel.BulkRequestIdsDistinct | src/frontend/src/pages/AdminPanel.tsx:92-95 | the requests of one bulk add carry pairwise distinct ids |
| AdminPanel.ToggleLockRequest | src/frontend/src/pages/AdminPanel.tsx:150-165 | unlock exactly when the list is locked, lock otherwise, always for the given list |
| AdminPanel.UsedComments | src/frontend/src/pages/AdminPanel.tsx:167 | only used comments of the list |
| AdminPanel.AvailableComments | src/frontend/src/pages/AdminPanel.tsx:168 | only unused comments of the list |
| AdminPanel.UsedAvailablePartition | src/frontend/src/pages/AdminPanel.tsx:167-168 | used and available are disjoint, their multisets add up to the list, and their counts sum to its length |
| AdminPanel.DisplayedTotal | src/frontend/src/pages/AdminPanel.tsx:305 | a list missing from the totals shows 0 |
| AdminPanel.LastTotalShown | src/frontend/src/pages/AdminPanel.tsx:169 | a list with totals shows the total of its last pair |
| AdminPanel.Panel.HandleCreateList | src/frontend/src/pages/AdminPanel.tsx:75-84 | blank input sends nothing; otherwise the trimmed, non-empty name is sent, and a success clears the input and selects the new list |
| AdminPanel.Panel.HandleAddBulkComments | src/frontend/src/pages/AdminPanel.tsx:86-110 | as evidently intended (see Findings): nothing is sent without a selected list or valid lines; otherwise one request per valid line with its bulk id; the text is cleared and the success message shown exactly when every call succeeds |
| AdminPanel.Panel.SendEachLine | src/frontend/src/pages/AdminPanel.tsx:89-109 | as evidently intended, every call's callbacks running: the loop sends the bulk requests in order, and its `successCount`/`hasError` bookkeeping clears the text exactly when all calls succeed |
| AdminPanel.Panel.SendEachLineAsWritten | src/frontend/src/pages/AdminPanel.tsx:89-109 | as the program runs: the same requests are sent, but only the last call's callbacks run, so the text is cleared exactly when `LastCallbackClears` holds (one line, and it succeeds) |
| AdminPanel.LastCallbackClearsOnlyOnSuccess | src/frontend/src/pages/AdminPanel.tsx:98-101 | the program as written never clears when some call failed, and for a single line it clears exactly when the intended behaviour does |
| AdminPanel.SeveralLinesNeverClear | src/frontend/src/pages/AdminPanel.tsx:98-101 | with two or more lines the program as written never clears the text or shows the success message |
| AdminPanel.TwoSucceedingLinesStay | src/frontend/src/pages/AdminPanel.tsx:92-107 | two lines whose calls both succeed: every call succeeded, yet as written the text is not cleared |
| AdminPanel.Panel.HandleAddSingleComment | src/frontend/src/pages/AdminPanel.tsx:112-124 | nothing is sent without a selection or with blank text; otherwise the trimmed text under the clock's digits; a success clears the text |
| AdminPanel.Panel.HandleDeleteList | src/frontend/src/pages/AdminPanel.tsx:136-144 | a successful deletion of the selected list clears the selection; nothing else changes |
| AdminPinDialog.SanitizePin | src/frontend/src/components/AdminPinDialog.tsx:36 | the PIN is the first min(4, d) digits of the input, where d is the number of digits |
| AdminPinDialog.SanitizeIdempotent | src/frontend/src/components/AdminPinDialog.tsx:36 | sanitising a sanitised PIN changes nothing |
| AdminPinDialog.FullPinIgnoresMore | src/frontend/src/components/AdminPinDialog.tsx:36 | once four digits are in, typing more changes nothing |
| AdminPinDialog.Decide | src/frontend/src/components/AdminPinDialog.tsx:45-64 | too short exactly when the length is not 4; accepted exactly when the four-digit PIN equals the code; rejected otherwise |
| AdminPinDialog.AcceptedCodeIsFourDigits | src/frontend/src/components/AdminPinDialog.tsx:36-54 | only an access code of exactly four digits can ever be accepted |
| AdminPinDialog.CodeDigitsAreAccepted | src/frontend/src/components/AdminPinDialog.tsx:36-54 | typing text whose digits are the four-digit code is accepted |
| AdminPinDialog.PinDialog.HandlePinChange | src/frontend/src/components/AdminPinDialog.tsx:33-39 | the PIN becomes the sanitised input, the error is cleared, and the PIN is at most four digits |
| AdminPinDialog.PinDialog.HandleSubmit | src/frontend/src/components/AdminPinDialog.tsx:41-66 | a short PIN sets the length error and calls nothing; a match clears PIN and error and calls `onSuccess` once; a mismatch keeps the PIN and sets the wrong-code error; validation ends false after either comparison |
| AdminPinDialog.PinDialog.HandleCancel | src/frontend/src/components/AdminPinDialog.tsx:68-73 | PIN, error and validation are reset and `onCancel` is called |
| AdminPinDialog.PinDialog.HandleOpenChange | src/frontend/src/components/AdminPinDialog.tsx:75-80 | closing cancels and then reports the change; opening only reports it |
| UserView.BulkGenerateError | src/frontend/src/pages/UserView.tsx:66-85 | no error exactly when a list is selected and 1 <= count <= remaining; otherwise the message of the first failing check |
| UserView.BulkErrorNamesFailedCheck | src/frontend/src/pages/UserView.tsx:68-79 | each of the three messages is shown exactly when its own check is the first to fail, so the message tells which check failed |
| UserView.HasGenerated | src/frontend/src/pages/UserView.tsx:266 | a list absent from the history is not marked as generated |
| UserView.HasGeneratedReadsLastFlag | src/frontend/src/pages/UserView.tsx:36 | a list in the history reads the flag of its last pair |
| UserView.HasGeneratedFromMirror | src/frontend/src/pages/UserView.tsx:30 | seeded from the mirror, a list is marked exactly when the mirror marks it |
| UserView.Page.HandleListChange | src/frontend/src/pages/UserView.tsx:38-44 | the list is selected and the generated comment, bulk results and copied flag are cleared |
| UserView.Page.HandleGenerate | src/frontend/src/pages/UserView.tsx:46-64 | nothing happens without a selection; a drawn comment replaces the shown one, clears the bulk results and marks the mirror; a null result or an error leaves the page and mirror as they were |
| UserView.Page.HandleBulkGenerateClick | src/frontend/src/pages/UserView.tsx:66-85 | shows `BulkGenerateError`; the access-key dialog opens exactly when there is none |
| UserView.Page.HandleAccessKeySubmit | src/frontend/src/pages/UserView.tsx:87-108 | nothing is sent without a selection or when the count is NaN, whose `BigInt` conversion throws inside the mutation; otherwise the parsed count is sent with the key; any success closes the dialog; a non-empty result replaces the bulk results and clears the single comment; an error changes nothing |
| UploadSection.BulkCountError | src/frontend/src/pages/UploadSection.tsx:55-69 | no error exactly when a list is selected and the count is a number of at least 1 |
| UploadSection.LooserThanUserPage | src/frontend/src/pages/UploadSection.tsx:55-69 | every count the user page accepts is accepted here, and so is a count above the remaining one, which the user page refuses |
| UploadSection.Page.HandleAddComment | src/frontend/src/pages/UploadSection.tsx:32-53 | without a selection, or with blank text, an error and nothing sent; otherwise the trimmed text under the clock's digits; a success clears the text and the selection |
| UploadSection.Page.HandleBulkGenerateClick | src/frontend/src/pages/UploadSection.tsx:55-69 | shows `BulkCountError`; the access-key dialog opens exactly when there is none |
| UploadSection.Page.HandleAccessKeySubmit | src/frontend/src/pages/UploadSection.tsx:71-91 | nothing is sent without a selection or when the count is NaN, whose `BigInt` conversion throws inside the mutation; otherwise the parsed count is sent with the key; any success closes the dialog; a non-empty result replaces the results; an error changes nothing |
| AdminUserImageTable.NewFileStates | src/frontend/src/components/AdminUserImageTable.tsx:44-49 | one entry per picked file, idle, at 0%, with no error |
| AdminUserImageTable.Settle | src/frontend/src/components/AdminUserImageTable.tsx:88-99 | a success reaches status success at 100%; a failure becomes error with its message; the file is kept |
| AdminUserImageTable.Settled | src/frontend/src/components/AdminUserImageTable.tsx:68-102 | the queue after the loop is each entry settled by its own upload |
| AdminUserImageTable.FailureCount | src/frontend/src/components/AdminUserImageTable.tsx:93-101 | the count is zero exactly when every upload succeeded |
| AdminUserImageTable.SettledEntriesAreFinal | src/frontend/src/components/AdminUserImageTable.tsx:68-102 | after the loop every entry is success or error, success exactly for the uploads that succeeded |
| AdminUserImageTable.WithoutIndexIsSplice | src/frontend/src/components/AdminUserImageTable.tsx:117-119 | removing an index deletes exactly that entry and keeps the others in order; an index past the end removes nothing |
| AdminUserImageTable.ImageTable.HandleFileSelect | src/frontend/src/components/AdminUserImageTable.tsx:43-51 | the new entries join the end of the queue and the existing ones are unchanged |
| AdminUserImageTable.ImageTable.HandleBulkUpload | src/frontend/src/components/AdminUserImageTable.tsx:53-115 | a blank name or an empty queue uploads nothing; otherwise each file is uploaded under the trimmed name, the counts sum to the number of files, and queue and name are cleared exactly when no upload failed, else kept with each entry settled |
| AdminUserImageTable.ImageTable.UploadAll | src/frontend/src/components/AdminUserImageTable.tsx:64-114 | after the guards: every file uploaded under the given name, uploading flag false at the end, summary message, and queue and name cleared exactly when no upload failed |
| AdminUserImageTable.ImageTable.UploadEach | src/frontend/src/components/AdminUserImageTable.tsx:68-102 | the loop uploads the files in order, settles each entry by its outcome and counts the failures |
| AdminUserImageTable.ImageTable.HandleRemoveFile | src/frontend/src/components/AdminUserImageTable.tsx:117-119 | the queue loses the entry at the index, as `WithoutIndexIsSplice` describes |

## Left out

- The backend canister: list storage, the once-per-device allocation, locking, bulk generation and keys. It is not part of this model. Every call to it is an input (`Reply` or a success flag), and its rules are not invented.
- `hooks/useQueries.ts` is not part of this model: cache invalidation, polling intervals and its toasts. The `mutate` calls on the pages stand for a request plus its answer.
- `AdminPanel.tsx`'s `handleRemoveComment`, `handleResetList` and `handleClearAllLists`: each forwards one call to the backend, whose effect is not modelled.
- The success toasts of the lock toggle ("List … locked/unlocked") and the `queryClient.invalidateQueries` calls: display and cache refresh only.
- JSON: the mirror stores decoded histories. Text that `JSON.parse` rejects, and the empty string that `getItem` reads as falsy, are both `Unparsable`. Valid JSON of the wrong shape is not modelled.
- `Entries.FromEntries`: a list named `__proto__` is not modelled as the source stores it. Assigning `obj['__proto__'] = flag` on a plain object built from `{}` calls the prototype setter, which ignores a boolean, so the source silently drops that entry. The map keeps it.
- `Entries.LastWins`: for the key `__proto__` the source keeps no entry at all, so "the last occurrence wins" holds in the source only for other keys (see the line above).
- `UserCommentHistory.BuildHistoryMap`: the `forEach` into `{}` drops a `__proto__` list id, as above; the model keeps it.
- `UserCommentHistory.MirrorFollowsBackend`: the mirror's keys are exactly the backend's only when no list is named `__proto__`; the source's mirror lacks that one.
- `DeviceHistoryStorage.UpdateDeviceHistoryEntry`: for a list named `__proto__`, `history[listId] = hasGenerated` writes nothing unless the stored JSON already held `__proto__` as an own key. The model always sets the entry.
- `DeviceHistoryStorage.UpdateSetsOneEntry`: promises that the `__proto__` entry is set, which the source does not do on a history loaded as `{}` (see the line above).
- `Object.entries` order: `Entries.ObjectEntries` may yield the keys in any order, because a map does not keep insertion order.
- `parseInt` is an input (`None` for NaN). Its prefix-parsing quirks are not modelled.
- `UserView.Page.HandleAccessKeySubmit` and `UploadSection.Page.HandleAccessKeySubmit` send a count below 1 (possible once the field changes while the dialog is open) as it is; how the generated actor encodes it is not part of this model.
- `Number(remainingCount)` and `Number(total)` convert bigints to doubles, which loses precision above 2^53. The model uses unbounded naturals.
- Timers:
  - The 300 ms `setTimeout` in the PIN dialog is taken as elapsed, so the moment when `isValidating` is true is not observable.
  - The midnight check's `setInterval` is one call per tick, and the clock is the inputs `today` and `hour`.
- Concurrency: the bulk `addComment` calls in `AdminPanel.tsx` are all made before any settles. `AdminPanel.Panel.SendEachLine` runs every call's callbacks in index order, as evidently intended; its outcome would not depend on that order, because the text is cleared only when every call succeeds. As the program is written only the last call's callbacks run (see Findings), which `AdminPanel.Panel.SendEachLineAsWritten` models.
- The per-call toasts of `useAddComment` ("Comment added successfully", "Failed to add comment: …") run for every call, so a failed bulk line is still reported to the admin; `hooks/useQueries.ts` is not part of this model.
- React re-renders and stale closures: each handler sees the state as of its own start.
- `AdminUserImageTable.ImageTable.HandleBulkUpload`: files picked while an upload runs are not modelled.
- File bytes, `ExternalBlob` and the upload progress callbacks are not modelled. A file is known by its name; progress is 0 when queued and 100 on success, and the percentages in between are not modelled.
- `AdminUserImageTable.Settle` keeps an earlier failure message on an entry that succeeds on retry, as the source does. The message is shown only for entries in error.
- A retry after a partial failure uploads every queued file again, including those that already succeeded, as the source does.
- `BrowserStorage.LocalStorage`: one `available` flag stands for the whole of `localStorage`, so storage whose reads work while writes throw (a full quota, for one) is not modelled. There, `DeviceHistoryStorage.SaveDeviceHistory` and `DeviceHistoryStorage.UpdateDeviceHistoryEntry` fail silently while loads keep returning the older stored history.
- `DeviceId.GetDeviceId`: when the read works but `setItem` throws, the source's `catch` generates a second fresh id and returns it unstored; the model has no such state (see the line above).
- `DeviceId.GenerateDeviceId` and `DeviceId.GetDeviceId`: when `crypto` itself is undefined, `getRandomValues` throws, the `catch` in `getDeviceId` calls `generateDeviceId` again, and `getDeviceId` throws. The model takes randomness as always available.
- The randomness behind `crypto.randomUUID` and `crypto.getRandomValues` is an input. `DeviceId.GetDeviceId` requires a supplied UUID to be non-empty, as `randomUUID` always returns 36 characters.
- `ADMIN_ACCESS_CODE` lives in `utils/adminPinSession`, which is not part of this model. It is the parameter `adminCode`.
- Clipboard copy, image upload and preview in `UserView.tsx` and `UploadSection.tsx`, toasts (kept only as returned strings), console logging, and the presentation-only components.

## Findings

| source | as written | input that shows it | evidently intended | confidence | as-written member | corrected member |
|---|---|---|---|---|---|---|
| src/frontend/src/pages/AdminPanel.tsx:92-107 | `handleAddBulkComments` calls the same `addComment` mutation once per line, passing the clearing `onSuccess` and the `onError` to each `mutate` call; TanStack Query runs the callbacks passed to `mutate` only for the last of several calls made before any settles, so `successCount` reaches at most 1 | two valid lines, both calls succeed: the text stays and "Added 2 comments successfully" is never shown | clear the text and show the success message exactly when every call succeeds | not executed; rests on the query library's documented rule for consecutive mutations | AdminPanel.Panel.SendEachLineAsWritten | AdminPanel.Panel.SendEachLine |
