/**
 * The two `filter`/`reduce` expressions of `fetchStats`: the private
 * anonymous commit adjustment (src/fetchers/stats-fetcher.js:187-190) and the
 * star total (src/fetchers/stats-fetcher.js:196-198). Each `reduce(f, 0)` is a
 * left fold with an accumulator, as JavaScript evaluates it.
 */
module Reductions {
  import opened Wrappers
  import opened GitHubData

  /** `repo.name.startsWith("_")`: the naming convention for anonymised private repositories. */
  function IsAnonymous(repo: PrivateRepo): (anonymous: bool)
    ensures anonymous <==> "_" <= repo.name
  {
    |repo.name| > 0 && repo.name[0] == '_'
  }

  /** The `filter` at :187: the anonymised repositories, in their original order. */
  function AnonymousRepos(repos: seq<PrivateRepo>): (anon: seq<PrivateRepo>)
    ensures |anon| <= |repos|
    ensures forall repo :: repo in anon <==> repo in repos && IsAnonymous(repo)
  {
    if repos == [] then []
    else if IsAnonymous(repos[0]) then [repos[0]] + AnonymousRepos(repos[1..])
    else AnonymousRepos(repos[1..])
  }

  /**
   * The `reduce` at :188-190 from accumulator `prev`: adds each repository's
   * history count, and fails (`None`, a TypeError) at a null `defaultBranchRef`.
   */
  function FoldHistories(prev: nat, repos: seq<PrivateRepo>): (total: Option<nat>)
    ensures total.None? <==> exists i :: 0 <= i < |repos| && repos[i].history.None?
    ensures total.Some? ==> prev <= total.value
    decreases |repos|
  {
    if repos == [] then Some(prev)
    else match repos[0].history
      case None => None
      case Some(h) =>
        var rest := FoldHistories(prev + h, repos[1..]);
        assert rest.None? ==> exists i :: 1 <= i < |repos| && repos[i].history.None? by {
          if rest.None? {
            var i :| 0 <= i < |repos[1..]| && repos[1..][i].history.None?;
            assert repos[i + 1].history.None?;
          }
        }
        rest
  }

  /** Sum of two partial counts: absent when either is. */
  function AddCounts(a: Option<nat>, b: Option<nat>): (c: Option<nat>)
    ensures c.Some? <==> a.Some? && b.Some?
    ensures c.Some? ==> c.value == a.value + b.value
  {
    if a.Some? && b.Some? then Some(a.value + b.value) else None
  }

  /** The private anonymous commit adjustment, :187-190, or `None` when it throws. */
  function AnonymousCommits(repos: seq<PrivateRepo>): (total: Option<nat>)
    ensures total.None? <==>
      exists i :: 0 <= i < |repos| && IsAnonymous(repos[i]) && repos[i].history.None?
  {
    var anon := AnonymousRepos(repos);
    var total := FoldHistories(0, anon);
    assert total.None? ==>
      exists i :: 0 <= i < |repos| && IsAnonymous(repos[i]) && repos[i].history.None? by {
      if total.None? {
        var j :| 0 <= j < |anon| && anon[j].history.None?;
        assert anon[j] in repos;
        var i :| 0 <= i < |repos| && repos[i] == anon[j];
      }
    }
    assert (exists i :: 0 <= i < |repos| && IsAnonymous(repos[i]) && repos[i].history.None?) ==>
      total.None? by {
      if exists i :: 0 <= i < |repos| && IsAnonymous(repos[i]) && repos[i].history.None? {
        var i :| 0 <= i < |repos| && IsAnonymous(repos[i]) && repos[i].history.None?;
        assert repos[i] in anon;
        var j :| 0 <= j < |anon| && anon[j] == repos[i];
      }
    }
    total
  }

  /** The `reduce` at :196-198 from accumulator `prev`. */
  function FoldStars(prev: nat, stars: seq<nat>): (total: nat)
    ensures prev <= total
    ensures forall i :: 0 <= i < |stars| ==> stars[i] <= total - prev
    ensures stars == [] ==> total == prev
    decreases |stars|
  {
    if stars == [] then prev else FoldStars(prev + stars[0], stars[1..])
  }

  /** `totalStars`: the stargazer counts of the returned repository nodes added up. */
  function TotalStars(stars: seq<nat>): (total: nat)
    ensures forall i :: 0 <= i < |stars| ==> stars[i] <= total
    ensures stars == [] ==> total == 0
  {
    FoldStars(0, stars)
  }

  /** The star total is the sum of the counts: the first count plus the total of the rest. */
  lemma TotalStarsCons(stars: seq<nat>)
    requires stars != []
    ensures TotalStars(stars) == stars[0] + TotalStars(stars[1..])
  {
    FoldStarsShift(stars[0], stars[1..]);
  }

  /** Starting the history fold at `prev` only adds `prev`. */
  lemma {:induction false} FoldHistoriesShift(prev: nat, repos: seq<PrivateRepo>)
    ensures FoldHistories(prev, repos) == AddCounts(Some(prev), FoldHistories(0, repos))
    decreases |repos|
  {
    if repos != [] && repos[0].history.Some? {
      var h := repos[0].history.value;
      FoldHistoriesShift(prev + h, repos[1..]);
      FoldHistoriesShift(h, repos[1..]);
    }
  }

  /** The history sum of a concatenation is the sum of the parts' sums (and fails if either part does). */
  lemma {:induction false} FoldHistoriesAppend(a: seq<PrivateRepo>, b: seq<PrivateRepo>)
    ensures FoldHistories(0, a + b) == AddCounts(FoldHistories(0, a), FoldHistories(0, b))
    decreases |a|
  {
    if a == [] {
      assert a + b == b;
    } else {
      assert (a + b)[0] == a[0];
      assert (a + b)[1..] == a[1..] + b;
      if a[0].history.Some? {
        var h := a[0].history.value;
        FoldHistoriesAppend(a[1..], b);
        FoldHistoriesShift(h, a[1..] + b);
        FoldHistoriesShift(h, a[1..]);
      }
    }
  }

  /** Filtering a concatenation filters each part. */
  lemma {:induction false} AnonymousReposAppend(a: seq<PrivateRepo>, b: seq<PrivateRepo>)
    ensures AnonymousRepos(a + b) == AnonymousRepos(a) + AnonymousRepos(b)
    decreases |a|
  {
    if a == [] {
      assert a + b == b;
    } else {
      assert (a + b)[0] == a[0];
      assert (a + b)[1..] == a[1..] + b;
      AnonymousReposAppend(a[1..], b);
    }
  }

  /** The adjustment is additive over the repository list. */
  lemma AnonymousCommitsAppend(a: seq<PrivateRepo>, b: seq<PrivateRepo>)
    ensures AnonymousCommits(a + b) == AddCounts(AnonymousCommits(a), AnonymousCommits(b))
  {
    AnonymousReposAppend(a, b);
    FoldHistoriesAppend(AnonymousRepos(a), AnonymousRepos(b));
  }

  /** A repository whose name does not start with "_" changes nothing, even with a null default branch. */
  lemma NonAnonymousRepoIgnored(a: seq<PrivateRepo>, repo: PrivateRepo, b: seq<PrivateRepo>)
    requires !IsAnonymous(repo)
    ensures AnonymousCommits(a + [repo] + b) == AnonymousCommits(a + b)
  {
    AnonymousCommitsAppend(a + [repo], b);
    AnonymousCommitsAppend(a, [repo]);
    AnonymousCommitsAppend(a, b);
    assert AnonymousRepos([repo]) == [];
  }

  /** An anonymised repository adds exactly its history count. */
  lemma AnonymousRepoCounted(a: seq<PrivateRepo>, repo: PrivateRepo, b: seq<PrivateRepo>)
    requires IsAnonymous(repo) && repo.history.Some?
    ensures AnonymousCommits(a + [repo] + b) == AddCounts(AnonymousCommits(a + b), repo.history)
  {
    AnonymousCommitsAppend(a + [repo], b);
    AnonymousCommitsAppend(a, [repo]);
    AnonymousCommitsAppend(a, b);
    assert AnonymousRepos([repo]) == [repo];
    assert AnonymousCommits([repo]) == FoldHistories(repo.history.value, []);
  }

  /** No anonymised repository (in particular an empty list): the adjustment is 0 and nothing throws. */
  lemma {:induction false} NoAnonymousReposAddNothing(repos: seq<PrivateRepo>)
    requires forall i :: 0 <= i < |repos| ==> !IsAnonymous(repos[i])
    ensures AnonymousCommits(repos) == Some(0)
    decreases |repos|
  {
    if repos != [] {
      assert !IsAnonymous(repos[0]);
      NoAnonymousReposAddNothing(repos[1..]);
    }
  }

  /** The adjustment counts only the anonymised repositories: it is the adjustment of the filtered list. */
  lemma AnonymousCommitsOfFiltered(repos: seq<PrivateRepo>)
    ensures AnonymousCommits(AnonymousRepos(repos)) == AnonymousCommits(repos)
  {
    AnonymousReposIdempotent(repos);
  }

  /** Filtering twice is filtering once. */
  lemma {:induction false} AnonymousReposIdempotent(repos: seq<PrivateRepo>)
    ensures AnonymousRepos(AnonymousRepos(repos)) == AnonymousRepos(repos)
    decreases |repos|
  {
    if repos != [] {
      AnonymousReposIdempotent(repos[1..]);
      if IsAnonymous(repos[0]) {
        var rest := AnonymousRepos(repos[1..]);
        assert ([repos[0]] + rest)[0] == repos[0];
        assert ([repos[0]] + rest)[1..] == rest;
      }
    }
  }

  /** Starting the star fold at `prev` only adds `prev`. */
  lemma {:induction false} FoldStarsShift(prev: nat, stars: seq<nat>)
    ensures FoldStars(prev, stars) == prev + FoldStars(0, stars)
    decreases |stars|
  {
    if stars != [] {
      FoldStarsShift(prev + stars[0], stars[1..]);
      FoldStarsShift(stars[0], stars[1..]);
    }
  }

  /** The star total of a concatenation is the sum of the parts' totals. */
  lemma {:induction false} TotalStarsAppend(a: seq<nat>, b: seq<nat>)
    ensures TotalStars(a + b) == TotalStars(a) + TotalStars(b)
    decreases |a|
  {
    if a == [] {
      assert a + b == b;
    } else {
      assert (a + b)[0] == a[0];
      assert (a + b)[1..] == a[1..] + b;
      TotalStarsAppend(a[1..], b);
      FoldStarsShift(a[0], a[1..] + b);
      FoldStarsShift(a[0], a[1..]);
    }
  }

  /** The star total does not depend on the order of the nodes (the query sorts them by stars). */
  lemma {:induction false} TotalStarsPermutation(a: seq<nat>, b: seq<nat>)
    requires multiset(a) == multiset(b)
    ensures TotalStars(a) == TotalStars(b)
    decreases |a|
  {
    if a == [] {
      assert |b| == |multiset(b)| == 0;
    } else {
      assert a[0] in multiset(b);
      var i :| 0 <= i < |b| && b[i] == a[0];
      assert b == b[..i] + [b[i]] + b[i+1..];
      var rest := b[..i] + b[i+1..];
      assert a == [a[0]] + a[1..];
      assert multiset(a) == multiset([a[0]]) + multiset(a[1..]);
      assert multiset(b) == multiset(b[..i]) + multiset([b[i]]) + multiset(b[i+1..]);
      assert multiset(rest) == multiset(b[..i]) + multiset(b[i+1..]);
      assert multiset(a[1..]) == multiset(a) - multiset{a[0]};
      assert multiset(rest) == multiset(b) - multiset{b[i]};
      TotalStarsPermutation(a[1..], rest);
      TotalStarsAppend(b[..i], b[i+1..]);
      TotalStarsAppend(b[..i] + [b[i]], b[i+1..]);
      TotalStarsAppend(b[..i], [b[i]]);
      TotalStarsAppend([a[0]], a[1..]);
    }
  }

  /** Of an anonymised repository with 7 recent commits and a public one with 9, only the 7 count. */
  lemma OnlyUnderscoreRepoCounted()
    ensures AnonymousCommits([PrivateRepo("_anon1", Some(7)), PrivateRepo("public1", Some(9))]) == Some(7)
  {
  }
}
