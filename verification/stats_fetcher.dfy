/**
 * `fetchStats` (src/fetchers/stats-fetcher.js:128-213): checks the username,
 * reads the two GraphQL responses, optionally consults the commit-search
 * fallback, reconciles the commit count under the two caller flags, sums the
 * stars and hands the result to the rank collaborator.
 *
 * The upstream responses, the clock, the username regular expression and
 * `calculateRank` are parameters; `calls` records the requests issued, in
 * order, with their variables.
 */
module StatsFetcher {
  import opened Wrappers
  import opened GitHubData
  import opened Reductions
  import opened CommitSearch

  /** The message used when the first GraphQL error has none. */
  const CouldNotFetchUser := "Could not fetch user"

  /** The aggregate record, allocated with zeroed defaults and filled in field by field. */
  class Stats {
    var name: string
    var totalPRs: nat
    var totalCommits: JsNumber
    var totalIssues: nat
    var totalStars: nat
    var contributedTo: nat
    var rank: Rank

    constructor ()
      ensures name == "" && totalPRs == 0 && totalCommits == Num(0) && totalIssues == 0
      ensures totalStars == 0 && contributedTo == 0 && rank == DefaultRank
    {
      name := "";
      totalPRs := 0;
      totalCommits := Num(0);
      totalIssues := 0;
      totalStars := 0;
      contributedTo := 0;
      rank := DefaultRank;
    }
  }

  /**
   * What checking one GraphQL response throws, if anything: a USER_NOT_FOUND
   * error carrying the first error's message (or the generic one), or a
   * TypeError when the `errors` array is present but empty.
   */
  function ResponseFailure<T>(response: Response<T>): (failure: Option<Error>)
    ensures failure.None? <==> response.errors.None?
    ensures response.errors == Some([]) ==> failure == Some(TypeError(EmptyErrorList))
    ensures response.errors.Some? && response.errors.value != [] ==>
      && failure.Some? && failure.value.UserNotFound?
      && failure.value.message != ""
      && (response.errors.value[0].message != "" ==> failure.value.message == response.errors.value[0].message)
      && (response.errors.value[0].message == "" ==> failure.value.message == CouldNotFetchUser)
  {
    match response.errors
    case None => None
    case Some(errors) =>
      if errors == [] then Some(TypeError(EmptyErrorList))
      else if errors[0].message != "" then Some(UserNotFound(errors[0].message))
      else Some(UserNotFound(CouldNotFetchUser))
  }

  /** `user.name || user.login`. */
  function DisplayName(user: ProfileSnapshot): (name: string)
    ensures user.name.Some? && user.name.value != "" ==> name == user.name.value
    ensures user.name.None? || user.name.value == "" ==> name == user.login
    ensures name == "" ==> user.login == ""
  {
    if user.name.Some? && user.name.value != "" then user.name.value else user.login
  }

  /**
   * The closed form of the commit total: the base (the fallback count when
   * `includeAllCommits`, the public contributions otherwise), plus the
   * restricted contributions when `countPrivate`, plus the anonymous
   * adjustment; `NaN` when the fallback count is `undefined`.
   */
  function CommitTotal(user: ProfileSnapshot, fallback: Option<nat>, anonymous: nat,
                       countPrivate: bool, includeAllCommits: bool): (total: JsNumber)
    // the total is a number unless the fallback replaced the base with `undefined`
    ensures total.Num? <==> !(includeAllCommits && fallback.None?)
    // the anonymous adjustment is always part of a numeric total
    ensures total.Num? ==> anonymous <= total.value
    // the base is the public count without the fallback, the fallback count with it
    ensures total.Num? && !includeAllCommits ==> user.totalCommitContributions <= total.value
    ensures total.Num? && includeAllCommits ==> fallback.value <= total.value
    // the restricted count is part of it whenever countPrivate is set
    ensures total.Num? && countPrivate ==> user.restrictedContributionsCount <= total.value
  {
    if includeAllCommits && fallback.None? then NaN
    else Num((if includeAllCommits then fallback.value else user.totalCommitContributions)
             + (if countPrivate then user.restrictedContributionsCount else 0)
             + anonymous)
  }

  /** Both GraphQL responses came back without `errors`, so the reconciliation runs. */
  predicate Fetched(username: string, upstream: Upstream) {
    username != "" && ResponseFailure(upstream.profile).None? && ResponseFailure(upstream.privateRepos).None?
  }

  /** The rank collaborator's input for a profile, a commit total and a star total. */
  function RankMetrics(user: ProfileSnapshot, totalCommits: JsNumber, totalStars: nat): (metrics: RankInput)
    ensures metrics.totalRepos == user.repositoryCount
    ensures metrics.totalCommits == totalCommits && metrics.stargazers == totalStars
    ensures metrics.issues == user.openIssues + user.closedIssues
    ensures metrics.followers == user.followers && metrics.contributions == user.contributedTo
    ensures metrics.prs == user.pullRequests
  {
    RankInput(
      totalCommits := totalCommits,
      totalRepos := user.repositoryCount,
      followers := user.followers,
      contributions := user.contributedTo,
      stargazers := totalStars,
      prs := user.pullRequests,
      issues := user.openIssues + user.closedIssues)
  }

  method FetchStats(
    username: string,
    ownerAffiliations: seq<string>,
    countPrivate: bool,
    includeAllCommits: bool,
    now: int,
    upstream: Upstream,
    validUsername: string -> bool,
    calculateRank: RankInput -> Rank)
    returns (r: Result<Stats, Error>, calls: seq<Call>)
    // an empty username throws before any request
    ensures username == "" ==> r == Failure(InvalidUsername) && calls == []
    // the profile query comes first
    ensures username != "" ==> |calls| >= 1 && calls[0] == ProfileQuery(username, ownerAffiliations)
    // errors in the profile response throw before the second query is issued
    ensures username != "" && ResponseFailure(upstream.profile).Some? ==>
      r == Failure(ResponseFailure(upstream.profile).value) && |calls| == 1
    // otherwise the private anonymous query follows, looking back 360 days from now
    ensures username != "" && ResponseFailure(upstream.profile).None? ==>
      |calls| >= 2 && calls[1] == PrivateAnonymousQuery(username, SinceTimestamp(now))
    // errors in the second response throw next
    ensures username != "" && ResponseFailure(upstream.profile).None? &&
            ResponseFailure(upstream.privateRepos).Some? ==>
      r == Failure(ResponseFailure(upstream.privateRepos).value) && |calls| == 2
    // the commit search is issued only for include_all_commits and a valid username
    ensures Fetched(username, upstream) ==>
      calls[2..] == if includeAllCommits && validUsername(username) then [CommitSearch(username)] else []
    // a null default branch on an anonymised repository throws a TypeError
    ensures Fetched(username, upstream) && AnonymousCommits(upstream.privateRepos.user).None? ==>
      r == Failure(TypeError(NullDefaultBranchRef))
    ensures r.Success? <==> Fetched(username, upstream) && AnonymousCommits(upstream.privateRepos.user).Some?
    // each run allocates its own record
    ensures r.Success? ==> fresh(r.value)
    // the reconciled record
    ensures r.Success? ==>
      var stats, user := r.value, upstream.profile.user;
      && stats.name == DisplayName(user)
      && stats.totalIssues == user.openIssues + user.closedIssues
      && stats.totalCommits == CommitTotal(user, TotalCommitsFetcher(username, validUsername, upstream.commitSearch),
                                           AnonymousCommits(upstream.privateRepos.user).value,
                                           countPrivate, includeAllCommits)
      && stats.totalPRs == user.pullRequests
      && stats.contributedTo == user.contributedTo
      && stats.totalStars == TotalStars(user.stargazers)
      && stats.rank == calculateRank(RankMetrics(user, stats.totalCommits, stats.totalStars))
  {
    calls := [];
    if username == "" {
      return Failure(InvalidUsername), calls;
    }
    var stats := new Stats();

    calls := calls + [ProfileQuery(username, ownerAffiliations)];
    var failure := ResponseFailure(upstream.profile);
    if failure.Some? {
      return Failure(failure.value), calls;
    }

    calls := calls + [PrivateAnonymousQuery(username, SinceTimestamp(now))];
    failure := ResponseFailure(upstream.privateRepos);
    if failure.Some? {
      return Failure(failure.value), calls;
    }

    var user := upstream.profile.user;
    stats.name := DisplayName(user);
    stats.totalIssues := user.openIssues + user.closedIssues;

    stats.totalCommits := Num(user.totalCommitContributions);
    if includeAllCommits {
      if validUsername(username) {
        calls := calls + [CommitSearch(username)];
      }
      stats.totalCommits := FromOption(TotalCommitsFetcher(username, validUsername, upstream.commitSearch));
    }
    if countPrivate {
      stats.totalCommits := Plus(stats.totalCommits, user.restrictedContributionsCount);
    }

    var anonymous := AnonymousCommits(upstream.privateRepos.user);
    if anonymous.None? {
      return Failure(TypeError(NullDefaultBranchRef)), calls;
    }
    stats.totalCommits := Plus(stats.totalCommits, anonymous.value);

    stats.totalPRs := user.pullRequests;
    stats.contributedTo := user.contributedTo;
    stats.totalStars := TotalStars(user.stargazers);

    stats.rank := calculateRank(RankMetrics(user, stats.totalCommits, stats.totalStars));
    return Success(stats), calls;
  }

  /** Neither flag: public contributions plus the anonymous adjustment. */
  lemma CommitsByDefault(user: ProfileSnapshot, fallback: Option<nat>, anonymous: nat)
    ensures CommitTotal(user, fallback, anonymous, false, false) == Num(user.totalCommitContributions + anonymous)
  {
  }

  /** `countPrivate` alone: the restricted contributions are added. */
  lemma CommitsWithCountPrivate(user: ProfileSnapshot, fallback: Option<nat>, anonymous: nat)
    ensures CommitTotal(user, fallback, anonymous, true, false) ==
            Num(user.totalCommitContributions + user.restrictedContributionsCount + anonymous)
  {
  }

  /**
   * `includeAllCommits` with a numeric fallback count: the count replaces the
   * public contributions, and the restricted contributions are still added
   * when `countPrivate` is set too.
   */
  lemma CommitsWithIncludeAllCommits(user: ProfileSnapshot, count: nat, anonymous: nat, countPrivate: bool)
    ensures CommitTotal(user, Some(count), anonymous, countPrivate, true) ==
            Num(count + (if countPrivate then user.restrictedContributionsCount else 0) + anonymous)
  {
  }

  /** Under `includeAllCommits`, `countPrivate` still changes the total whenever there are restricted contributions. */
  lemma CountPrivateMattersUnderIncludeAllCommits(user: ProfileSnapshot, count: nat, anonymous: nat)
    requires user.restrictedContributionsCount > 0
    ensures CommitTotal(user, Some(count), anonymous, true, true) != CommitTotal(user, Some(count), anonymous, false, true)
  {
  }

  /** The anonymous adjustment is added under every flag combination. */
  lemma AnonymousAdjustmentAlwaysAdded(user: ProfileSnapshot, fallback: Option<nat>, anonymous: nat,
                                       countPrivate: bool, includeAllCommits: bool)
    ensures CommitTotal(user, fallback, anonymous, countPrivate, includeAllCommits) ==
            Plus(CommitTotal(user, fallback, 0, countPrivate, includeAllCommits), anonymous)
  {
  }

  /**
   * A valid username whose search succeeds with a zero or missing
   * `total_count` makes the fallback `undefined`, and the total becomes `NaN`
   * whatever the other inputs are.
   */
  lemma ZeroSearchCountGivesNaN(user: ProfileSnapshot, username: string, validUsername: string -> bool,
                                search: SearchOutcome, anonymous: nat, countPrivate: bool)
    requires validUsername(username) && search.SearchReturned? && search.totalCount in {None, Some(0)}
    ensures CommitTotal(user, TotalCommitsFetcher(username, validUsername, search), anonymous, countPrivate, true) == NaN
  {
  }

  /** A numeric fallback (invalid username, failed or truthy search) always gives a numeric total. */
  lemma NumericFallbackGivesNumber(user: ProfileSnapshot, username: string, validUsername: string -> bool,
                                   search: SearchOutcome, anonymous: nat, countPrivate: bool)
    requires !validUsername(username) || search.SearchFailed? ||
             (search.totalCount.Some? && search.totalCount.value != 0)
    ensures CommitTotal(user, TotalCommitsFetcher(username, validUsername, search), anonymous, countPrivate, true).Num?
  {
  }

  /**
   * 120 public and 30 restricted contributions, a fallback count of 500 and no
   * anonymised repository: 500 with `includeAllCommits` alone, 530 with both flags.
   */
  lemma IncludeAllCommitsExample(user: ProfileSnapshot)
    requires user.totalCommitContributions == 120 && user.restrictedContributionsCount == 30
    ensures CommitTotal(user, Some(500), 0, false, true) == Num(500)
    ensures CommitTotal(user, Some(500), 0, true, true) == Num(530)
    ensures CommitTotal(user, Some(500), 0, true, false) == Num(150)
    ensures CommitTotal(user, Some(500), 0, false, false) == Num(120)
  {
  }
}
