/**
 * The status record of the collection and the staleness rule of
 * `refreshIfStale`: a background fetch is due only when loading has finished,
 * nothing is pending and the data is more than `STALE_MS` old.
 */
module FetchStatus {

  import opened Wrappers

  /** The error a failed fetch leaves behind. */
  type Error = string

  /** `{ pending, startedAt, finishedAt, error }`; timestamps are milliseconds. */
  datatype Status = Status(pending: bool, startedAt: Option<int>, finishedAt: Option<int>, error: Option<Error>)

  /** The never-fetched status that `reset` restores. */
  const InitialStatus: Status := Status(false, None, None, None)

  /** `STALE_MS`: ten seconds. */
  const StaleMs: int := 10 * 1000

  /** JavaScript truthiness of a timestamp: absent and `0` are both false. */
  predicate Truthy(t: Option<int>)
  {
    t.Some? && t.value != 0
  }

  /** The guards of `refreshIfStale`: finished (truthy), not pending, and older than `STALE_MS`. */
  predicate ShouldRefresh(s: Status, now: int): (due: bool)
    ensures due ==> !s.pending && s.finishedAt.Some? && s.finishedAt.value != 0
    ensures due ==> s.finishedAt.value < now - StaleMs
  {
    && Truthy(s.finishedAt)
    && !s.pending
    && now - s.finishedAt.value > StaleMs
  }

  /** The status after a background fetch succeeds at `now`: only `finishedAt` moves. */
  function AfterBackgroundSuccess(s: Status, now: int): (r: Status)
    ensures r.finishedAt == Some(now)
    ensures r.pending == s.pending && r.startedAt == s.startedAt && r.error == s.error
  {
    s.(finishedAt := Some(now))
  }

  /** A pending fetch blocks any background refresh. */
  lemma NoRefreshWhilePending(s: Status, now: int)
    requires s.pending
    ensures !ShouldRefresh(s, now)
  {
  }

  /** A reset status never triggers a background refresh, whatever the time. */
  lemma NoRefreshAfterReset(now: int)
    ensures !ShouldRefresh(InitialStatus, now)
  {
  }

  /** A `finishedAt` of `0` is falsy, so such data is never refreshed. */
  lemma NoRefreshAtZeroTimestamp(s: Status, now: int)
    requires s.finishedAt == Some(0)
    ensures !ShouldRefresh(s, now)
  {
  }

  /** Once stale, data stays stale as time goes on, unless the status changes. */
  lemma StaleStaysStale(s: Status, now: int, later: int)
    requires ShouldRefresh(s, now) && now <= later
    ensures ShouldRefresh(s, later)
  {
  }

  /** The staleness rule both ways: with a non-zero finish time and nothing pending, refresh is due exactly past `STALE_MS`. */
  lemma ShouldRefreshIff(s: Status, t: int, now: int)
    requires s.finishedAt == Some(t) && t != 0 && !s.pending
    ensures ShouldRefresh(s, now) <==> now > t + 10000
  {
  }

  /** After a background success at `t`, no further background refresh is due until `STALE_MS` have passed. */
  lemma FreshAfterBackgroundSuccess(s: Status, t: int, now: int)
    requires now <= t + StaleMs
    ensures !ShouldRefresh(AfterBackgroundSuccess(s, t), now)
  {
  }

}
