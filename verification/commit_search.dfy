/**
 * The commit-search fallback counter `totalCommitsFetcher`
 * (src/fetchers/stats-fetcher.js:96-126) and the lookback window of the
 * private anonymous commits query (src/fetchers/stats-fetcher.js:57).
 */
module CommitSearch {
  import opened Wrappers
  import opened GitHubData

  /** One day in milliseconds. */
  const MsPerDay: nat := 24 * 60 * 60 * 1000

  /** The lookback window: twelve 30-day months, in milliseconds. */
  const LookbackMs: nat := 12 * 30 * 24 * 60 * 60 * 1000

  /** The `since` instant of the private anonymous commits query, given the clock reading `now` (ms). */
  function SinceTimestamp(now: int): (since: int)
    ensures now - since == 31_104_000_000
    ensures now - since == 360 * MsPerDay
  {
    now - LookbackMs
  }

  /**
   * The value `totalCommitsFetcher(username)` resolves to: `Some(n)` for the
   * number `n`, `None` for `undefined`. `validUsername` is the username
   * regular expression; `search` is what the retried commit search produced
   * (consulted only when the username is valid).
   */
  function TotalCommitsFetcher(username: string, validUsername: string -> bool, search: SearchOutcome)
    : (count: Option<nat>)
    // an invalid username short-circuits to 0
    ensures !validUsername(username) ==> count == Some(0)
    // a failed search is swallowed as 0
    ensures validUsername(username) && search.SearchFailed? ==> count == Some(0)
    // a truthy total_count is returned as it is
    ensures (validUsername(username) && search.SearchReturned? && search.totalCount.Some? &&
             search.totalCount.value != 0) ==> count == search.totalCount
    // undefined exactly when the search succeeded with a zero or missing total_count
    ensures count.None? <==>
      (validUsername(username) && search.SearchReturned? && search.totalCount in {None, Some(0)})
    // a 0 never comes from a successful search
    ensures count == Some(0) ==> !validUsername(username) || search.SearchFailed?
  {
    if !validUsername(username) then Some(0)
    else match search
      case SearchFailed => Some(0)
      case SearchReturned(total) => if total.Some? && total.value != 0 then total else None
  }
}
