/**
 * The values the statistics fetcher reads from the hosted platform's APIs and
 * the values it hands back: snapshots of the two GraphQL responses, the outcome
 * of the commit search, the calls it issues, the rank and the errors it throws.
 */
module GitHubData {
  import opened Wrappers

  /** The decoded `user` of the primary (profile) query, src/fetchers/stats-fetcher.js:14-45. */
  datatype ProfileSnapshot = ProfileSnapshot(
    name: Option<string>,               // nullable display name
    login: string,
    totalCommitContributions: nat,      // contributionsCollection, public part
    restrictedContributionsCount: nat,  // contributionsCollection, private part
    contributedTo: nat,                 // repositoriesContributedTo.totalCount
    pullRequests: nat,                  // pullRequests.totalCount
    openIssues: nat,
    closedIssues: nat,
    followers: nat,
    repositoryCount: nat,               // repositories.totalCount (all of them)
    stargazers: seq<nat>)               // stargazers.totalCount of each returned node (at most 100)

  /**
   * One node of the secondary (private anonymous commits) query: the
   * repository's name and the commit count of its default branch since the
   * lookback date; `None` when `defaultBranchRef` is null.
   */
  datatype PrivateRepo = PrivateRepo(name: string, history: Option<nat>)

  /** One entry of a GraphQL `errors` list; "" stands for a missing message. */
  datatype GraphQLError = GraphQLError(message: string)

  /**
   * A GraphQL response body: `errors` is absent (`None`) or a list, which
   * JavaScript treats as present even when it is empty; `user` is the payload.
   */
  datatype Response<T> = Response(errors: Option<seq<GraphQLError>>, user: T)

  /** What the commit search (REST) produced: it threw, or it returned a body whose `total_count` may be absent. */
  datatype SearchOutcome = SearchFailed | SearchReturned(totalCount: Option<nat>)

  /** Everything the upstream services answer during one run. */
  datatype Upstream = Upstream(
    profile: Response<ProfileSnapshot>,
    privateRepos: Response<seq<PrivateRepo>>,
    commitSearch: SearchOutcome)

  /** The outbound calls, with the variables each one is given. */
  datatype Call =
    | ProfileQuery(login: string, ownerAffiliations: seq<string>)
    | PrivateAnonymousQuery(login: string, since: int)
    | CommitSearch(author: string)

  /**
   * A JavaScript number as far as `totalCommits` can be one: a count,
   * `undefined` (what the fallback counter returns on a zero count) or `NaN`
   * (what arithmetic on `undefined` yields).
   */
  datatype JsNumber = Num(value: nat) | Undefined | NaN

  /** JavaScript `a + b` for a count `b`: `undefined` and `NaN` absorb it. */
  function Plus(a: JsNumber, b: nat): (c: JsNumber)
    ensures c.Num? <==> a.Num?
    ensures a.Num? ==> c.value == a.value + b
    ensures !a.Num? ==> c == NaN
  {
    match a
    case Num(n) => Num(n + b)
    case _ => NaN
  }

  /** The number the fallback counter's result becomes once assigned: `undefined` stays `undefined`. */
  function FromOption(count: Option<nat>): (n: JsNumber)
    ensures n.Num? <==> count.Some?
    ensures count.Some? ==> n.value == count.value
    ensures count.None? ==> n == Undefined
  {
    match count
    case Some(c) => Num(c)
    case None => Undefined
  }

  /** The rank collaborator's output: a letter level and a score. */
  datatype Rank = Rank(level: string, score: real)

  /** The placeholder rank a fresh record carries before scoring. */
  const DefaultRank := Rank("C", 0.0)

  /** The metrics handed to the rank collaborator. */
  datatype RankInput = RankInput(
    totalCommits: JsNumber,
    totalRepos: nat,
    followers: nat,
    contributions: nat,
    stargazers: nat,
    prs: nat,
    issues: nat)

  /** Where a JavaScript TypeError (a property read on `undefined`/`null`) is raised. */
  datatype CrashSite =
    | EmptyErrorList        // `errors[0].message` on an empty `errors` array
    | NullDefaultBranchRef  // `curr.defaultBranchRef.target` on a null branch

  /** What `fetchStats` throws. */
  datatype Error =
    | InvalidUsername               // Error("Invalid username")
    | UserNotFound(message: string) // CustomError(message, USER_NOT_FOUND)
    | TypeError(site: CrashSite)
}
