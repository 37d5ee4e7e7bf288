# useCollection: a parameter-driven collection cache

This project models `useCollection(params, fetcher)` from karrot-frontend's
`src/activities/data/useCollection.old.js`, a small cache coordinator. It keeps:

- `entries`: the fetched items, keyed by id;
- `status`: `{ pending, startedAt, finishedAt, error }`;
- one `valid` flag per run of its parameter watcher.

When the parameters change, the previous run's invalidate handler clears that
run's flag and resets the store. The new run then calls the fetcher with a
plain snapshot of the parameters and a guard `{ isValid }` over its own flag.
When the component is shown again, `refreshIfStale` may start a background
fetch, but only if loading finished, nothing is pending and the data is more
than 10 000 ms old. Its guard compares a fresh snapshot of the parameters with
the captured one. A background success moves `finishedAt` and nothing else.
The fetcher writes results itself, by calling `update`. `update` merges a
batch into the store, and the batch wins.

Modules:

- `Params` (params.dfy): `toPlainObject` and the `checkValid` snapshot guard.
- `Store` (store.dfy): items, `indexById`, the merge done by `update`, and the `collection` view.
- `FetchStatus` (fetch_status.dfy): the status record, the staleness rule and the background-success update.
- `Generations` (generations.dfy): the per-run `valid` flags.
- `UseCollection` (use_collection.dfy): the class `Collection`. It holds the composable's state, and each asynchronous step is an event method.
- `Wrappers` (wrappers.dfy): `Option`.

Three behaviours of the code are worth stating, and the model keeps each of them:

- The code never consults a guard before merging. The fetcher is handed the
  guard and calls `update` itself, so `Update` merges unconditionally.
- No flag stops overlapping background refreshes. `RefreshIfStale` changes no
  state, so two calls in a row both start a fetch.
- A background success does not check its guard. It sets `finishedAt` even
  when the parameters changed while it ran, which can make a reset status look
  finished.

## Model

| member | source | states |
|---|---|---|
| Params.ToPlainObject | src/activities/data/useCollection.old.js:103-109 | the loop builds exactly the plain object that has one key per parameter key, each holding `unref` of that parameter |
| Params.SnapshotsEqualIff | src/activities/data/useCollection.old.js:51 | two snapshots are deep-equal if and only if the parameter sets have the same keys and each key resolves to the same value |
| Params.StillValid | src/activities/data/useCollection.old.js:51 | the captured snapshot and the fresh one are deep-equal exactly when they have the same keys and equal values under every key |
| Params.CheckValid | src/activities/data/useCollection.old.js:49-54 | the guard is valid right after capture, and later exactly when the fresh snapshot equals the captured one |
| Params.SnapshotGuardIff | src/activities/data/useCollection.old.js:51 | a background guard is valid against the current parameters exactly when they resolve key by key to the captured values; it is re-evaluated, so it can become valid again |
| Store.IndexById | src/activities/data/useCollection.old.js:80 | the index has one key per id in the batch, and each key holds an item of the batch that carries that id |
| Store.Merge | src/activities/data/useCollection.old.js:79-81 | the merged keys are the old keys plus the batch ids; stored ids missing from the batch keep their old entry; batch ids hold a batch item with that id |
| Store.MergeStoresBatch | src/activities/data/useCollection.old.js:80 | when the batch's ids are distinct, every item is what the store holds under its id afterwards |
| Store.MergeEmpty | src/activities/data/useCollection.old.js:80 | `update([])` leaves the entries unchanged |
| Store.MergeWellIndexed | src/activities/data/useCollection.old.js:79-81 | merging keeps every entry under its own id |
| Store.MergeIdempotent | src/activities/data/useCollection.old.js:79-81 | applying the same batch twice gives the same store as applying it once |
| Store.PresentAfterMerge | src/activities/data/useCollection.old.js:27-29 | after `update(items)`, `getById(id)` holds if and only if the id was stored before or some item carries it |
| Store.CollectionExact | src/activities/data/useCollection.old.js:23 | the listed values hold exactly one element per stored key, namely the entry stored under it |
| FetchStatus.ShouldRefresh | src/activities/data/useCollection.old.js:61-64 | when a refresh is due, nothing is pending and `finishedAt` is set to a non-zero time more than 10 000 ms before `now` |
| FetchStatus.AfterBackgroundSuccess | src/activities/data/useCollection.old.js:67-69 | a background success sets `finishedAt` to the completion time and leaves `pending`, `startedAt` and `error` unchanged |
| FetchStatus.NoRefreshWhilePending | src/activities/data/useCollection.old.js:61 | no background fetch starts while a fetch is pending |
| FetchStatus.NoRefreshAfterReset | src/activities/data/useCollection.old.js:61 | the reset status never triggers a background fetch |
| FetchStatus.NoRefreshAtZeroTimestamp | src/activities/data/useCollection.old.js:61 | a `finishedAt` of 0 is falsy, so such data is never refreshed |
| FetchStatus.StaleStaysStale | src/activities/data/useCollection.old.js:62-64 | once data is stale, it stays stale as time goes on while the status is unchanged |
| FetchStatus.ShouldRefreshIff | src/activities/data/useCollection.old.js:59-64 | with a non-zero `finishedAt` `t` and nothing pending, a refresh is due if and only if `now > t + 10000` |
| FetchStatus.FreshAfterBackgroundSuccess | src/activities/data/useCollection.old.js:64-68 | after a background success at `t`, no refresh is due until more than 10 000 ms have passed |
| Generations.IsValid | src/activities/data/useCollection.old.js:38 | a run's `isValid()` holds exactly for the newest run while only that run is valid, and for no run once every flag is false |
| Generations.Stop | src/activities/data/useCollection.old.js:39-41 | the newest run's invalidate handler turns its flag false and leaves every older flag alone |
| Generations.StopInvalidatesAll | src/activities/data/useCollection.old.js:39-41 | once the watcher stops, no guard is valid and no flag that was false has become true |
| Generations.Supersede | src/activities/data/useCollection.old.js:37-41 | a parameter change sets the previous run's flag to false, leaves older flags alone and adds a true flag for the new run |
| Generations.SupersedeKeepsOnlyLatestValid | src/activities/data/useCollection.old.js:36-43 | if only the newest run's flag was true before a parameter change, the same holds after it |
| Generations.AtMostOneValid | src/activities/data/useCollection.old.js:37-40 | at any moment at most one run's guard is valid |
| Generations.SupersededStaysInvalid | src/activities/data/useCollection.old.js:39-41 | after one or more parameter changes, every guard that existed before them is invalid, and no false flag has become true |
| UseCollection.Collection.constructor | src/activities/data/useCollection.old.js:15-19 | a new collection has an empty store, the initial status and one valid watcher run, from the immediate first watch |
| UseCollection.Collection.CurrentGuard | src/activities/data/useCollection.old.js:38 | while the watcher runs, the newest run's guard is valid and no other guard is |
| UseCollection.Collection.IsValid | src/activities/data/useCollection.old.js:38 | a primary guard's `isValid()` holds exactly when the watcher still runs and the guard belongs to the newest run |
| UseCollection.Collection.GetById | src/activities/data/useCollection.old.js:27-29 | `getById(id)` is true if and only if `id` is stored, and a stored entry carries that id |
| UseCollection.Collection.Values | src/activities/data/useCollection.old.js:23 | `collection` has one element per stored key, no id twice, and each element is the entry stored under its id |
| UseCollection.Collection.Update | src/activities/data/useCollection.old.js:79-81 | the entries become the merge of the old entries with the batch; status, flags and parameters are unchanged |
| UseCollection.Collection.Reset | src/activities/data/useCollection.old.js:83-86 | the entries are empty and the status is the initial one, whatever the state before (so reset is idempotent); flags and parameters are unchanged |
| UseCollection.Collection.OnParamsChange | src/activities/data/useCollection.old.js:36-43 | all earlier guards become invalid, the store and status are reset, no false flag turns true, and the fetcher gets the new snapshot and the new valid guard |
| UseCollection.Collection.OnStop | src/activities/data/useCollection.old.js:39-42 | when the watcher stops, the newest run's flag turns false so no guard is valid, the store is empty and the status is initial |
| UseCollection.Collection.OnPrimaryStatus | src/activities/data/useCollection.old.js:38 | what `withStatus` writes changes the status only |
| UseCollection.Collection.RefreshIfStale | src/activities/data/useCollection.old.js:60-75 | a background fetch starts if and only if the staleness rule holds; it gets the current snapshot and a guard that is valid now; no state changes |
| UseCollection.Collection.SnapshotIsValid | src/activities/data/useCollection.old.js:51 | the background guard holds exactly when the live parameters have the captured keys and each resolves to the captured value |
| UseCollection.Collection.OnBackgroundSuccess | src/activities/data/useCollection.old.js:67-69 | only `status.finishedAt` moves, to the completion time; entries, flags, parameters and the rest of the status stay the same |
| UseCollection.Collection.OnBackgroundFailure | src/activities/data/useCollection.old.js:69-72 | a background failure changes no status field, no entry and no flag |

## Left out

- The watcher stopping is the event `OnStop`. What the component does after unmounting is outside the model: only `Update`, `RefreshIfStale` and the completion events remain callable, and `OnParamsChange` requires a running watcher.
- Vue reactivity (`ref`, `reactive`, `computed`, `toRefs`, `watch`) is replaced by explicit event methods. `OnParamsChange` assumes Vue's order: the old run's invalidate handler runs before the new run. The watcher fires on any change of its reactive dependencies, so the environment may call `OnParamsChange` even with equal values.
- `onCacheMounted` (lines 45-47) is an external lifecycle hook. It only calls `refreshIfStale`, which the environment calls here as `RefreshIfStale`.
- Promises are not modelled. A fetcher call is the arguments an event method returns. Completions are separate events: `OnBackgroundSuccess` and `OnBackgroundFailure` for background fetches, `OnPrimaryStatus` for the primary fetch. There is no concurrency.
- `createStatus` and `withStatus` (`@/activities/data/actionStatus`) are not part of this model. The initial status is taken to be the never-fetched record: not pending, no timestamps, no error. `OnPrimaryStatus` allows any record that `withStatus` may write.
- Parameter values are `null`, booleans, integers and strings. JavaScript floats, `undefined`, and the nested objects that `toPlainObject` leaves unresolved below the first level (lines 101-102) cannot be represented.
- `deepEqual` is Dafny's structural equality. The loose comparisons of the `deep-equal` package's default mode (for example `1` against `"1"`) are not modelled.
- Store.IndexById: does not say which item is kept when one batch carries an id twice, because `indexById` (`@/utils/datastore/helpers`) is not part of this model.
- Ids are integers. Coercing an id to a property name is taken to be one-to-one, and an item's own data is an opaque field map.
- The `collection` getter takes the key order as an argument, because `Object.keys` order is not modelled.
- `markRaw` and `console.log` have no behaviour to verify. `unref` is a function parameter of `toPlainObject`; the class uses `Params.Unref`, which reads a ref's current value.
- `new Date().getTime()` is the integer argument `now`. `NaN` timestamps are not modelled.
