# To-do list store and sync server, modelled in Dafny

A to-do app keeps its whole state in one store: a list of to-do lists, a list of
to-do items, and `lastUpdate`, a millisecond timestamp used as the version.
Every edit stamps `lastUpdate`. After every change the store is pushed to a
one-file sync server. A periodic `synchronizeData` asks the server for anything
newer and overwrites the whole store with it (last writer wins). The server
keeps one file per pushed version in `./tmp` and serves the file with the newest
modification time.

The model has these modules:

- `TodoStore` (`todo_store.dfy`): the snapshot datatypes, the seven edits as one
  specification function `Step`, the sync rule `Reconcile`, the start-up
  `RestoreDecision`, and the class `TodoListProvider`. The class holds the live
  store and a record of what was pushed. Its methods are proved against `Step`,
  `Reconcile` and `RestoreDecision`. Its invariant `Valid()` says that no
  snapshot with `lastUpdate` 0 is ever pushed.
- `TodoView` (`todo_view.dfy`): the filter that picks the items a list screen shows.
- `SyncServer` (`sync_server.dfy`): `./tmp` as an optional map from file name
  to entry, the most-recent-file selection (a stable sort by mtime), GET as a
  function of the directory, and the class `SyncServer` whose `Post` method
  writes to the directory.
- `JsNumber` (`js_number.dfy`): the JavaScript number conversions the server
  depends on. These are `${n}` for a file name, `parseInt` on a file name, and
  the string-to-number step inside `>`.
- `SyncProtocol` (`sync_protocol.dfy`): a pushed snapshot reaches exactly the
  clients whose version is older.
- `Sequences` and `Wrappers`: a subsequence predicate and `Option`.

Inputs the code gets from outside become parameters:

- new ids (`uuidv4`) and timestamps (`getTimeStamp`) are passed in as arguments;
- `JSON.parse` is a `Parser` function whose failures are `None`;
- `retrieveSyncData` is a function from the version asked for to a `Fetch`;
- the file system's `readdirSync` order is a `listing`;
- a file's mtime is the `now` argument of `Post`.

Behaviour of the code worth noting:

- Nothing forces `lastUpdate` to increase. It becomes whatever timestamp is supplied.
- The client does not compare versions itself. It relies entirely on the server's `isNewer`.
- GET on a directory that exists but holds no regular file throws. It does not answer "nothing stored".
- At start-up, the `synchronizeData` called by the mount effect is the one captured on the first render. So it asks with version 0, not with the restored cache's version (`TodoListProvider.Startup`).

## Model

| member | source | states |
|---|---|---|
| `TodoStore.FirstIndex` | src/store/TodoListProvider.tsx:226 | the result is the index of the first item with the id (every earlier item has another id), or None exactly when no item has the id |
| `TodoStore.Step` | src/store/TodoListProvider.tsx:187-298 | an item-targeted edit fails exactly when no item has its id; every successful edit stamps `lastUpdate` with the supplied time; only `createNewList` touches the lists, and it leaves the items alone |
| `TodoStore.EditsArePushed` | src/store/TodoListProvider.tsx:180-184 | the push guard holds back the initial store, and lets through every store an edit produces with a non-zero timestamp |
| `TodoStore.AddItemAppendsOne` | src/store/TodoListProvider.tsx:187-197 | adding appends exactly one `new Todo` (lines 100-105): the given id, list id and description, not done, no deadline, with no check that the list exists; earlier items and the lists are unchanged |
| `TodoStore.CreateListAppendsOne` | src/store/TodoListProvider.tsx:236-246 | creating a list appends exactly one list and leaves the items untouched |
| `TodoStore.RewriteChangesOnlyFirstMatch` | src/store/TodoListProvider.tsx:212-222 | toggle, edit, move and set-deadline rewrite one field of the first matching item only; the other items, all ids, the order and the lists are unchanged, and the same item is still the first match |
| `TodoStore.ToggleTwiceRestores` | src/store/TodoListProvider.tsx:199-210 | toggling the same id twice gives back the original items and lists |
| `TodoStore.RemoveDeletesFirstMatch` | src/store/TodoListProvider.tsx:224-234 | removing deletes exactly the element at the first matching index: length drops by one, the rest keep their order (a subsequence), and the multiset loses only that item |
| `TodoStore.RemoveTwice` | src/store/TodoListProvider.tsx:224-234 | a second removal with the same id is a not-found exactly when no other item carried that id |
| `TodoStore.UnknownIdIsNotFound` | src/store/TodoListProvider.tsx:207-209 | toggle, edit, remove, move and set-deadline on an unknown id give not-found and no new store |
| `TodoStore.Reconcile` | src/store/TodoListProvider.tsx:260-286 | the store is replaced only when the data is non-empty, `isNewer` is exactly true, and the parsed payload has all three fields; the replacement is that payload exactly; a failed fetch is a failure; for non-empty data marked newer, a parse failure is a failure, a complete payload replaces the store and a payload missing a field is reported as corrupt, and only then |
| `TodoStore.ReconcileAdoptsNewer` | src/store/TodoListProvider.tsx:266-274 | a non-empty, newer, complete payload always replaces the store with exactly its snapshot, with no local version comparison |
| `TodoStore.ReconcileIgnoresNotNewer` | src/store/TodoListProvider.tsx:262-266 | a null result, a missing or false `isNewer`, or empty data changes nothing |
| `TodoStore.RestoreDecision` | src/store/TodoListProvider.tsx:153-165 | a cached blob is restored only when it exists, parses, and has all three fields with a non-zero `lastUpdate`, and is always restored then; no blob means nothing saved, a blob is unreadable (warned) exactly when it does not parse, and a blob that parses but is incomplete or has version 0 is rejected silently |
| `TodoStore.RestoreStricterThanReconcile` | src/store/TodoListProvider.tsx:157-161 | whatever the restore check accepts the sync check accepts with the same snapshot; a complete snapshot with `lastUpdate` 0 passes the sync check and fails the restore check |
| `TodoStore.TodoListProvider.constructor` | src/store/TodoListProvider.tsx:113-117 | the provider starts on `initialStore`: exactly one list, named 'My Todo List', no items, version 0; nothing has been pushed |
| `TodoStore.TodoListProvider.SetStore` | src/store/TodoListProvider.tsx:172-185 | the store becomes the given snapshot, and it is appended to the pushes exactly when its `lastUpdate` is not 0 |
| `TodoStore.TodoListProvider.AddItemToList` | src/store/TodoListProvider.tsx:187-197 | the new store is `Step` of the old one, and it is pushed when its version is not 0 |
| `TodoStore.TodoListProvider.CreateNewList` | src/store/TodoListProvider.tsx:236-246 | the new store is `Step` of the old one, and it is pushed when its version is not 0 |
| `TodoStore.TodoListProvider.ToggleItemFinished` | src/store/TodoListProvider.tsx:199-210 | returns Ok exactly when an item has the id; the store becomes `Step` of the old one, and on NotFound store and pushes are unchanged |
| `TodoStore.TodoListProvider.EditItemDescription` | src/store/TodoListProvider.tsx:212-222 | as for toggle, with the description rewritten |
| `TodoStore.TodoListProvider.RemoveItem` | src/store/TodoListProvider.tsx:224-234 | as for toggle, with the first matching item spliced out |
| `TodoStore.TodoListProvider.MoveItemToList` | src/store/TodoListProvider.tsx:248-258 | as for toggle, with `listId` rewritten to any value, existing list or not |
| `TodoStore.TodoListProvider.SetItemDeadline` | src/store/TodoListProvider.tsx:288-298 | as for toggle, with the deadline set |
| `TodoStore.TodoListProvider.ApplySync` | src/store/TodoListProvider.tsx:266-278 | the store is overwritten by the fetched snapshot when `Reconcile` says so and is unchanged otherwise; the invariant on pushes is kept |
| `TodoStore.TodoListProvider.SynchronizeData` | src/store/TodoListProvider.tsx:260-286 | the fetch asks with the current `lastUpdate`; the outcome is `Reconcile` of the answer, and the store is overwritten only on `Replaced` |
| `TodoStore.TodoListProvider.Startup` | src/store/TodoListProvider.tsx:149-170 | the cached blob is restored by `RestoreDecision`, then a sync asking with version 0 may overwrite it; the restored snapshot is pushed, and so is a synced one whose version is not 0, in that order |
| `TodoView.VisibleItems` | src/components/TodoList.tsx:13-15 | an item is displayed exactly when it is in `todoItems` with `listId` equal to the selected list; the displayed items are a subsequence of `todoItems` (same relative order), so there are at most as many; each displayed item occurs as often as in `todoItems`, and a hidden one not at all |
| `TodoView.DanglingItemIsHidden` | src/components/TodoList.tsx:13-15 | an item whose `listId` names no list is never displayed for a selected list that exists |
| `TodoView.MoveToMissingListHides` | src/store/TodoListProvider.tsx:248-258 | moving an item to a nonexistent list succeeds, and the moved item is then hidden from every existing list |
| `JsNumber.Decimal` | server/index.js:59 | the file name for a non-negative version is a non-empty string of digits whose decimal value is the version, with no leading zero except for 0 itself |
| `JsNumber.Show` | server/index.js:59 | `${n}` is the digits of `n` for `n >= 0` and a minus sign followed by the digits of `-n` otherwise, never with a leading zero |
| `JsNumber.ParseInt` | server/index.js:35 | `parseInt` is NaN exactly when no digit follows the optional sign; otherwise it reads the maximal digit run after the sign and ignores the rest (`12.json` reads as 12), negated after a minus; an all-digit string reads as its decimal value |
| `JsNumber.DigitRunUnique` | server/index.js:35 | a digit prefix that ends at a non-digit or at the end of the string is the digit run `parseInt` reads, so that run is well defined |
| `JsNumber.ToNumber` | server/index.js:36 | the operand conversion of `>` reads the empty string as 0; a non-empty string is a number exactly when it is an optional sign followed by digits only (`12abc` is NaN, unlike `parseInt`), an all-digit string reads as its decimal value, and wherever it accepts a non-empty string `parseInt` reads the same number |
| `JsNumber.VersionOrder` | server/index.js:35-36 | `parseInt(file) > updatedAt`, on a file named by version `m` and a query carrying version `n`, holds exactly when `m > n` |
| `JsNumber.DigitRun` | server/index.js:35 | the digit run `parseInt` reads is a prefix of digits that stops at the first non-digit, and is the whole string when the string is all digits |
| `JsNumber.ShowRoundTrip` | server/index.js:35 | a version written as a file name reads back as the same integer, by `parseInt` and by string-to-number conversion |
| `JsNumber.ShowInjective` | server/index.js:59 | distinct versions get distinct file names, so a POST overwrites only a file of the same version |
| `SyncServer.RegularFiles` | server/index.js:16-17 | the listing is reduced to exactly the regular files of the directory, each with its mtime |
| `SyncServer.InsertByRecency` | server/index.js:18 | inserting into a newest-first sequence keeps it newest first and adds exactly that element |
| `SyncServer.SortByRecency` | server/index.js:18 | the result is newest first and a permutation of the input |
| `SyncServer.OrderRecentFiles` | server/index.js:13-19 | the result is newest first and holds exactly the regular files with their mtimes; other entries are ignored |
| `SyncServer.MostRecentFile` | server/index.js:8-11 | the result is a regular file whose mtime no other regular file exceeds, or None (`undefined`) exactly when there is no regular file |
| `SyncServer.Respond` | server/index.js:27-48 | with no directory the reply is empty and not newer; it throws exactly when the directory holds no regular file; otherwise the newest file is picked, and the reply is that file's data marked newer when `parseInt(file) > updatedAt` and empty data marked not newer otherwise (both directions) |
| `SyncServer.Get` | server/index.js:23-50 | throws `BadUpdatedAt` exactly when `updatedAt` is missing, because `parseInt(updatedAt) == NaN` is never true; any present `updatedAt`, numeric or not, is answered exactly as `Respond` answers it |
| `SyncServer.GetChecked` | server/index.js:25-26 | with the intended guard, a missing or non-numeric `updatedAt` is refused and every reply comes from a numeric one |
| `SyncServer.NaNGuardAdmitsNonNumeric` | server/index.js:25-26 | `updatedAt=abc` gets a reply from the guard as written and is refused by the intended one |
| `SyncServer.GetCheckedAgrees` | server/index.js:25-26 | on a numeric `updatedAt` the written and intended guards give the same reply |
| `SyncServer.PostThenGet` | server/index.js:32-47 | after POST of (data, v) with the newest mtime, GET with `updatedAt < v` returns `{data, isNewer: true}` and with `updatedAt >= v` returns `{data: '', isNewer: false}` |
| `SyncServer.GetWithoutData` | server/index.js:27-35 | GET before any POST answers `{data: '', isNewer: false}`; GET on an empty directory throws |
| `SyncServer.SyncServer.Post` | server/index.js:52-72 | a body without data or `updatedAt` throws and writes nothing; otherwise the directory is created if absent and `data` is written to the file named `${updatedAt}` with the current time, replacing an older file of that name |
| `SyncProtocol.PushReachesOlderStores` | src/store/TodoListProvider.tsx:262-274 | once a snapshot's blob is the newest file on the server, a store with an older `lastUpdate` adopts exactly that snapshot and a store with the same or a newer one is told nothing is newer; this holds for the GET guard as written and for the corrected one |

## Left out

- React machinery (`useState`, `useEffect` scheduling, context, the loading flag) is not modelled. `setStore` is assignment, and the push effect runs right after it.
- Local persistence (`storeData`, `getStoredData`) is not modelled. The cached blob at start-up is an input.
- `pushSyncData` and `retrieveSyncData` are not part of this model. Pushes are recorded in `pushed`, and fetch results are inputs. `SyncProtocol.Query` and `SyncProtocol.ToFetch` state the assumed wire mapping.
- `uuidv4` and `getTimeStamp` are not part of this model. Ids and times are arguments, and neither uniqueness nor monotonicity is assumed, since the code enforces neither.
- The model does not check the shape of decoded JSON values. A decoded item is a well-typed `Todo`, and `lastUpdate` is an integer. The code checks only that the three fields are present or truthy.
- `Alert.alert` and `console.warn` are reduced to the returned `NotFound`, `Corrupt`, `Failed` or `Unreadable` tags.
- The `Synchronizer` interval poller is not modelled, because its point is timing and possible overlap of asynchronous calls.
- Express routing, headers, `app.listen` and `readFile` errors are not modelled. A write onto a name held by a subdirectory is the one write error modelled.
- UI components are not modelled. Their non-empty-text checks are input validation, not store behaviour.
- SyncServer.SortByRecency: it is implemented as a stable sort, like `Array.prototype.sort`, but only "newest first" and "permutation" are proved, not stability.
- JsNumber.ParseInt: leading whitespace and the `0x` prefix are not modelled.
- JsNumber.ToNumber: whitespace, fractions, exponents, hexadecimal and `Infinity` are not modelled. These read as NaN.
- JsNumber.Show: exponent notation for magnitudes of 10^21 and above is not modelled, and neither is double-precision rounding. Versions are exact integers.
- SyncServer.SyncServer.Post: symbolic links are not modelled. `lstatSync` does not count a link as a regular file, but `writeFile` writes through it and answers `SUCCESS`.
- SyncServer.SyncServer.Post: on a write error the callback calls `next(err)` without returning, then sends `SUCCESS` after the error response has gone out, which throws inside the callback. The model reports only the error.
- SyncServer.SyncServer.Post: `updatedAt` is modelled as an integer only. A string `updatedAt` in the body would name the file by that string.

## Findings

| source | as written | input that shows it | evidently intended | confidence | as-written member | corrected member |
|---|---|---|---|---|---|---|
| server/index.js:25 | `parseInt(req.query.updatedAt) == NaN`, which is never true because NaN equals nothing | `GET /sync?updatedAt=abc` is answered `{data: '', isNewer: false}` instead of being refused | `isNaN(parseInt(req.query.updatedAt))`, rejecting a non-numeric `updatedAt` | not executed; high | `SyncServer.NaNGuardAdmitsNonNumeric` | `SyncServer.GetChecked` |
