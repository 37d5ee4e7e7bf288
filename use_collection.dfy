/**
 * `useCollection(params, fetcher)`: the state the composable keeps (the
 * parameters it watches, `entries`, `status` and the `valid` flag of each
 * watcher run) and the events that change it. Vue's scheduling is replaced
 * by explicit calls, time by an integer `now`, and a fetcher call by the
 * arguments the coordinator hands to it.
 */
module UseCollection {

  import opened Wrappers
  import Params
  import opened Store
  import opened FetchStatus
  import Generations

  class Collection {
    /** The live parameters, as `toPlainObject(params)` would read them now. */
    var params: map<string, Params.Param>
    /** `entries.value`: id to item. */
    var entries: Entries
    /** The reactive `status` record. */
    var status: Status
    /** The `valid` flag each run of the watch callback closed over, oldest first. */
    var flags: Generations.Flags
    /** Whether the parameter watcher is still running (it stops when the component unmounts). */
    ghost var watching: bool

    /**
     * Entries sit under their own ids; while the watcher runs only the newest
     * run is valid, and once it has stopped no run is.
     */
    ghost predicate Valid()
      reads this
    {
      && WellIndexed(entries)
      && |flags| > 0
      && (watching ==> Generations.OnlyLatestValid(flags))
      && (!watching ==> Generations.NoneValid(flags))
    }

    /** `toPlainObject(params)` taken now. */
    function Snapshot(): Params.Snapshot
      reads this
    {
      Params.PlainObject(params, Params.Unref)
    }

    /**
     * `useCollection(params, fetcher)`: an empty store, the initial status,
     * and the immediate first run of the watcher with its flag set. The first
     * fetcher call receives `Snapshot()` and `CurrentGuard()`.
     */
    constructor (params: map<string, Params.Param>)
      ensures Valid() && watching
      ensures this.params == params && entries == map[] && status == InitialStatus && flags == [true]
    {
      this.params := params;
      entries := map[];
      status := InitialStatus;
      flags := [true];
      watching := true;
    }

    /** The guard of the newest watcher run, which is the valid one while the watcher runs. */
    function CurrentGuard(): (g: Generations.Guard)
      reads this
      requires Valid() && watching
      ensures g.generation < |flags| && IsValid(g)
      ensures forall h: Generations.Guard :: h.generation < |flags| && IsValid(h) ==> h == g
    {
      Generations.Guard(|flags| - 1)
    }

    /** `isValid()` of the guard the fetcher of run `g.generation` received. */
    function IsValid(g: Generations.Guard): (ok: bool)
      reads this
      requires g.generation < |flags|
      ensures Valid() ==> (ok <==> watching && g.generation == |flags| - 1)
    {
      Generations.IsValid(flags, g)
    }

    /** `getById(id)`: stored entries are objects and so truthy; the answer is whether `id` is stored. */
    function GetById(id: Id): (present: bool)
      reads this
      requires Valid()
      ensures present <==> id in entries
      ensures present ==> entries[id].id == id
    {
      id in entries
    }

    /** The `collection` getter, listing the entries in the order `keys` gives (`Object.keys`). */
    function Values(keys: seq<Id>): (items: seq<Item>)
      reads this
      requires Valid() && IsKeyOrder(entries, keys)
      ensures |items| == |entries| && DistinctIds(items) && Ids(items) == entries.Keys
      ensures forall i :: 0 <= i < |items| ==> items[i].id in entries && entries[items[i].id] == items[i]
    {
      CollectionExact(entries, keys);
      ValuesInOrder(entries, keys)
    }

    /** `update(items)`: merge the batch into the store, the batch winning; nothing else changes. */
    method Update(items: seq<Item>)
      requires Valid()
      modifies this
      ensures Valid()
      ensures entries == Merge(old(entries), items)
      ensures params == old(params) && status == old(status) && flags == old(flags) && watching == old(watching)
    {
      MergeWellIndexed(entries, items);
      entries := Merge(entries, items);
    }

    /**
     * `reset()`, called by a run's invalidate handler: an empty store and the
     * initial status, whatever the state before, so resetting twice is
     * resetting once. The flags are left as they are.
     */
    method Reset()
      modifies this
      ensures entries == map[] && WellIndexed(entries) && status == InitialStatus
      ensures params == old(params) && flags == old(flags) && watching == old(watching)
    {
      entries := map[];
      status := InitialStatus;
    }

    /**
     * The watcher firing for new parameter values: the previous run's
     * invalidate handler sets its flag to false and resets the store, then
     * the new run starts with a fresh flag and calls the fetcher with the new
     * snapshot and its guard (returned here). Status writes by `withStatus`
     * come through `OnPrimaryStatus`.
     */
    method OnParamsChange(newParams: map<string, Params.Param>) returns (value: Params.Snapshot, guard: Generations.Guard)
      requires Valid() && watching
      modifies this
      ensures Valid() && watching
      ensures params == newParams && value == Snapshot()
      ensures entries == map[] && status == InitialStatus
      ensures flags == Generations.Supersede(old(flags))
      ensures guard.generation == old(|flags|) && guard == CurrentGuard()
      ensures forall g: Generations.Guard :: g.generation < old(|flags|) ==> !IsValid(g)
      ensures Generations.NeverRevalidates(old(flags), flags)
    {
      // the previous run's onInvalidate handler
      flags := Generations.Stop(flags);
      Reset();
      // the new run of the watch callback
      params := newParams;
      value := Params.ToPlainObject(params, Params.Unref);
      flags := flags + [true];
      guard := Generations.Guard(|flags| - 1);
    }

    /**
     * The watcher stopping (the component unmounts): Vue runs the newest
     * run's invalidate handler once more, so its flag turns false and the
     * store is reset. No guard is valid afterwards.
     */
    method OnStop()
      requires Valid() && watching
      modifies this
      ensures Valid() && !watching
      ensures flags == Generations.Stop(old(flags)) && Generations.NoneValid(flags)
      ensures Generations.NeverRevalidates(old(flags), flags)
      ensures entries == map[] && status == InitialStatus && params == old(params)
    {
      Generations.StopInvalidatesAll(flags);
      flags := Generations.Stop(flags);
      Reset();
      watching := false;
    }

    /**
     * What `withStatus` writes into `status` while it runs the primary
     * fetch; its rules are not part of this model, so any record may be
     * written. Entries and flags are untouched.
     */
    method OnPrimaryStatus(s: Status)
      requires Valid()
      modifies this
      ensures Valid()
      ensures status == s
      ensures params == old(params) && entries == old(entries) && flags == old(flags) && watching == old(watching)
    {
      status := s;
    }

    /**
     * `refreshIfStale()` at time `now`: when loading has finished, nothing is
     * pending and the data is over `STALE_MS` old, it builds a snapshot guard
     * over the current parameters and calls the fetcher with the captured
     * snapshot and that guard (returned here); otherwise it does nothing. It
     * changes no state either way.
     */
    method RefreshIfStale(now: int) returns (fetch: Option<Params.SnapshotGuard>)
      ensures fetch.Some? <==> ShouldRefresh(status, now)
      ensures fetch.Some? ==> fetch.value.value == Snapshot() && SnapshotIsValid(fetch.value)
    {
      fetch := None;
      if Truthy(status.finishedAt) && !status.pending {
        var age := now - status.finishedAt.value;
        if age > StaleMs {
          var initialValue := Params.ToPlainObject(params, Params.Unref);
          fetch := Some(Params.CheckValid(initialValue));
        }
      }
    }

    /**
     * Calling the background guard: it holds exactly when the live parameters
     * have the captured keys and each resolves to the captured value.
     */
    function SnapshotIsValid(g: Params.SnapshotGuard): (ok: bool)
      reads this
      ensures ok <==> g.value.Keys == params.Keys && forall k :: k in params ==> g.value[k] == Params.Unref(params[k])
    {
      assert Snapshot().Keys == params.Keys;
      Params.StillValid(g, Snapshot())
    }

    /** A background fetch resolved at `now`: only `status.finishedAt` moves. */
    method OnBackgroundSuccess(now: int)
      requires Valid()
      modifies this
      ensures Valid()
      ensures status == AfterBackgroundSuccess(old(status), now)
      ensures params == old(params) && entries == old(entries) && flags == old(flags) && watching == old(watching)
    {
      status := AfterBackgroundSuccess(status, now);
    }

    /** A background fetch failed: the error is only logged, so no field changes. */
    method OnBackgroundFailure(error: Error)
      requires Valid()
      modifies this
      ensures Valid()
      ensures status == old(status) && params == old(params) && entries == old(entries) && flags == old(flags) && watching == old(watching)
    {
    }
  }

}
