# github-readme-stats: the statistics fetcher

A Dafny model of `fetchStats` in `src/fetchers/stats-fetcher.js`, the function
that builds a GitHub user's aggregate statistics card record. It checks the
username, reads two GraphQL responses (the profile query and the private
anonymous commits query), optionally replaces the commit count with the
commit-search fallback `totalCommitsFetcher`, reconciles the commit total under
the `count_private` and `include_all_commits` flags, adds the commits of
underscore-prefixed ("anonymised") repositories, sums the stargazers and
passes the metrics to `calculateRank`.

Layout:

- `wrappers.dfy` (`Wrappers`): `Option`, `Result`.
- `github_data.dfy` (`GitHubData`): the snapshots of the responses, the search
  outcome, the outbound calls, the rank, the thrown errors, and `JsNumber`, the
  JavaScript number `totalCommits` can become (`Num`, `undefined`, `NaN`).
- `reductions.dfy` (`Reductions`): the `filter`/`reduce` of the anonymous
  commit adjustment and of the star total, as left folds, with their algebra
  (append, filtering, permutation).
- `commit_search.dfy` (`CommitSearch`): `totalCommitsFetcher` as a decision
  function, and the 360-day lookback window.
- `stats_fetcher.dfy` (`StatsFetcher`): the `Stats` record as a class, the
  response check, `FetchStats` as a method that allocates the record and
  updates it field by field, the closed form `CommitTotal` of the commit total
  and the lemmas about it.

The network, the clock and the foreign code are parameters of `FetchStats`:
`upstream` holds the two GraphQL responses and the commit search outcome,
`now` is the clock reading, `validUsername` stands for the
`github-username-regex` test, `calculateRank` is the rank function and
`ownerAffiliations` is the list `parseOwnerAffiliations` produced. The
out-parameter `calls` lists the requests the run issues, in order, with their
variables, so "before any request" and "the second query is not issued" are
stated in the contract.

Points where the code behaves in ways a reader may not expect:

- The restricted contributions are added whenever `count_private` is set,
  also when `include_all_commits` has replaced the base count: the two `if`s
  at lines 177 and 182 are independent. `CountPrivateMattersUnderIncludeAllCommits`
  and `IncludeAllCommitsExample` state it.
- A search that succeeds with a `total_count` of 0 (or none) makes
  `totalCommitsFetcher` fall through to `undefined`, not 0; `undefined + n` is
  `NaN`, and since line 191 always adds the anonymous adjustment, the total is
  then `NaN` (`ZeroSearchCountGivesNaN`).
- A repository whose name starts with "_" and whose `defaultBranchRef` is null
  makes the `reduce` at line 189 throw a TypeError, so the whole call fails.
  A null branch on any other repository is harmless (`NonAnonymousRepoIgnored`).
- `if (res.data.errors)` is true for an empty `errors` array, and
  `errors[0].message` then throws a TypeError (`ResponseFailure`).

## Model

| member | source | states |
|---|---|---|
| `GitHubData.Plus` | src/fetchers/stats-fetcher.js:183-184 | `+=` on `totalCommits`: the sum when it is a number, `NaN` otherwise |
| `GitHubData.FromOption` | src/fetchers/stats-fetcher.js:178 | assigning the fallback result: a count stays that number, `undefined` stays `undefined` |
| `Reductions.IsAnonymous` | src/fetchers/stats-fetcher.js:187 | `repo.name.startsWith("_")`: the name has "_" as a prefix |
| `Reductions.AnonymousRepos` | src/fetchers/stats-fetcher.js:187 | the filtered list is no longer than the input and holds exactly the input's repositories whose name starts with "_" |
| `Reductions.FoldHistories` | src/fetchers/stats-fetcher.js:188-190 | the reduce throws exactly when some repository has a null default branch; otherwise it is at least its start value |
| `Reductions.AnonymousCommits` | src/fetchers/stats-fetcher.js:187-190 | the adjustment throws exactly when an underscore-prefixed repository has a null default branch |
| `Reductions.FoldStars` | src/fetchers/stats-fetcher.js:196-198 | the reduce never decreases its start value, adds at least each node's count, and returns the start value for no nodes |
| `Reductions.TotalStars` | src/fetchers/stats-fetcher.js:196-198 | 0 for no nodes; every node's stargazer count is at most the total |
| `Reductions.TotalStarsCons` | src/fetchers/stats-fetcher.js:196-198 | the total is the sum of the stargazer counts: the first count plus the total of the rest |
| `Reductions.FoldHistoriesShift` | src/fetchers/stats-fetcher.js:188-190 | starting the reduce at `prev` adds exactly `prev` (or throws just the same) |
| `Reductions.FoldHistoriesAppend` | src/fetchers/stats-fetcher.js:188-190 | the history sum of a concatenation is the sum of the parts, and throws iff a part throws |
| `Reductions.AnonymousReposAppend` | src/fetchers/stats-fetcher.js:187 | the filter distributes over concatenation (order is kept) |
| `Reductions.AnonymousCommitsAppend` | src/fetchers/stats-fetcher.js:187-190 | the adjustment is additive over the repository list |
| `Reductions.NonAnonymousRepoIgnored` | src/fetchers/stats-fetcher.js:187-190 | inserting a repository not named "_…" changes neither the sum nor whether it throws |
| `Reductions.AnonymousRepoCounted` | src/fetchers/stats-fetcher.js:187-190 | inserting an underscore-prefixed repository adds exactly its history count |
| `Reductions.NoAnonymousReposAddNothing` | src/fetchers/stats-fetcher.js:187-191 | with no underscore-prefixed repository (an empty list included) the adjustment is 0 and nothing throws |
| `Reductions.AnonymousCommitsOfFiltered` | src/fetchers/stats-fetcher.js:187-190 | the adjustment of the list equals the adjustment of its underscore-prefixed part |
| `Reductions.AnonymousReposIdempotent` | src/fetchers/stats-fetcher.js:187 | filtering twice equals filtering once |
| `Reductions.FoldStarsShift` | src/fetchers/stats-fetcher.js:196-198 | starting the star reduce at `prev` adds exactly `prev` |
| `Reductions.TotalStarsAppend` | src/fetchers/stats-fetcher.js:196-198 | the star total of a concatenation is the sum of the parts' totals |
| `Reductions.TotalStarsPermutation` | src/fetchers/stats-fetcher.js:196-198 | the star total depends only on the multiset of counts, not on the stargazer ordering of the nodes |
| `Reductions.OnlyUnderscoreRepoCounted` | src/fetchers/stats-fetcher.js:187-190 | `_anon1` with 7 commits and `public1` with 9 give an adjustment of 7 |
| `CommitSearch.SinceTimestamp` | src/fetchers/stats-fetcher.js:57 | the lookback instant is exactly 31,104,000,000 ms (360 days of 86,400,000 ms) before now |
| `CommitSearch.TotalCommitsFetcher` | src/fetchers/stats-fetcher.js:96-126 | invalid username gives 0; a thrown search gives 0; a truthy `total_count` is returned as is; `undefined` iff a valid search returned 0 or no count; a 0 never comes from a successful search |
| `StatsFetcher.Stats.constructor` | src/fetchers/stats-fetcher.js:136-144 | a fresh record has empty name, zero counts and rank `{C, 0}` |
| `StatsFetcher.ResponseFailure` | src/fetchers/stats-fetcher.js:149-165 | a failure iff `errors` is present; USER_NOT_FOUND with the first error's message, or "Could not fetch user" when it is empty, never an empty message; a TypeError for an empty `errors` array |
| `StatsFetcher.DisplayName` | src/fetchers/stats-fetcher.js:169 | the display name when set and non-empty, the login otherwise; empty only if the login is |
| `StatsFetcher.RankMetrics` | src/fetchers/stats-fetcher.js:200-208 | the rank input carries `repositories.totalCount` as `totalRepos` (not the node count) and the record's totals |
| `StatsFetcher.CommitTotal` | src/fetchers/stats-fetcher.js:173-191 | the closed form of the commit total: a number unless the fallback is `undefined` under `include_all_commits`; a numeric total contains the adjustment, the base (public count or fallback count) and, under `count_private`, the restricted count |
| `StatsFetcher.FetchStats` | src/fetchers/stats-fetcher.js:128-213 | empty username throws with no request; profile errors throw after one request; private-query errors throw after two; the search is requested only for `include_all_commits` and a valid username; a null branch on a "_" repository throws; otherwise a freshly allocated record whose every field is given by the inputs: `totalCommits` equals `CommitTotal`, and `rank` is exactly `calculateRank` of the final metrics |
| `StatsFetcher.CommitsByDefault` | src/fetchers/stats-fetcher.js:173-191 | neither flag: public contributions plus the adjustment |
| `StatsFetcher.CommitsWithCountPrivate` | src/fetchers/stats-fetcher.js:173-191 | `count_private` alone: public plus restricted plus the adjustment |
| `StatsFetcher.CommitsWithIncludeAllCommits` | src/fetchers/stats-fetcher.js:173-191 | `include_all_commits` with a numeric fallback: fallback, plus restricted if `count_private`, plus the adjustment |
| `StatsFetcher.CountPrivateMattersUnderIncludeAllCommits` | src/fetchers/stats-fetcher.js:177-185 | with restricted contributions, `count_private` changes the total even when `include_all_commits` is set |
| `StatsFetcher.AnonymousAdjustmentAlwaysAdded` | src/fetchers/stats-fetcher.js:187-191 | under every flag combination the total is the total without the adjustment plus the adjustment |
| `StatsFetcher.ZeroSearchCountGivesNaN` | src/fetchers/stats-fetcher.js:115-119 | a valid search returning 0 or no count makes `totalCommits` NaN under `include_all_commits`, whatever `count_private` is |
| `StatsFetcher.NumericFallbackGivesNumber` | src/fetchers/stats-fetcher.js:97-125 | an invalid username, a failed search or a truthy count always yields a numeric total |
| `StatsFetcher.IncludeAllCommitsExample` | src/fetchers/stats-fetcher.js:173-185 | 120 public, 30 restricted, fallback 500: 120, 150, 500, and 530 with both flags |

`FetchStats` is deterministic in its inputs: its postcondition fixes every
field of the returned record and the call list, so repeated runs over the same
responses give the same record.

## Left out

- The GraphQL query texts and the `request`/axios transport (lines 10-54, 56-92, 103-113): the responses are inputs.
- `retryer`, `logger`, `dotenv`, the token and the request headers: retries are folded into the response or the search outcome; logging has no effect on the result.
- `FetchStats`: a `retryer` that gives up on the profile or private anonymous query rejects and ends `fetchStats`; the model has no outcome for it, since each response is taken as already retrieved.
- `calculateRank` is a parameter: `src/calculateRank.js` is not part of this model, and its scoring is floating point.
- `parseOwnerAffiliations` and the `github-username-regex` test are foreign code: the parsed affiliation list is an input and the regex is the parameter `validUsername`.
- `Date.now` and `toISOString`: the clock is the parameter `now` (milliseconds) and the ISO formatting of `since` is not modelled.
- `async`/`await`: the calls are sequential, which `calls` records.
- `FetchStats`: only the empty string stands for a falsy username; `null`, `undefined` and other falsy values are not modelled.
- `FetchStats`: a response without `errors` whose `user` is null (or a repository node whose target is not a commit) is not modelled; such a response is assumed to carry a user.
- `StatsFetcher.ResponseFailure`: a missing or null error message is modelled as the empty string.
- The cap of 100 repository nodes in both queries is the server's: the model accepts lists of any length.
- JavaScript numbers are modelled as unbounded naturals (all counts are non-negative API totals); floating-point rounding of very large sums is not modelled.
