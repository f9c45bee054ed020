/**
 * `GET /api/github/languages`: count the caller's repositories per language in one pass, then
 * rank the languages by count and keep the top seven.
 */
module LanguagesRoute {

  import opened Options
  import opened Strings
  import opened Seqs
  import opened Sorting
  import opened Auth
  import opened GithubTypes

  /** A repository as the upstream lists it: only its language matters here. */
  datatype UpstreamRepo = UpstreamRepo(language: Option<string>)

  datatype Reply = Unauthorized | UpstreamFailed(status: int) | Languages(topLanguages: seq<string>, repoCount: nat)

  /** The truthy `repo.language` values, one per repository that has one, in repository order. */
  function RepoLanguages(repos: seq<UpstreamRepo>): (r: seq<string>)
    ensures |r| <= |repos|
  {
    if repos == [] then []
    else
      var last := repos[|repos| - 1];
      RepoLanguages(repos[..|repos| - 1]) + (if Truthy(last.language) then [last.language.value] else [])
  }

  /** The number of repositories whose language is `l`. */
  function Count(repos: seq<UpstreamRepo>, l: string): nat {
    multiset(RepoLanguages(repos))[l]
  }

  /** The one-pass count: the keys in first-seen order, and the count of each. */
  method CountLanguages(repos: seq<UpstreamRepo>) returns (order: seq<string>, counts: map<string, nat>)
    ensures order == Distinct(RepoLanguages(repos))
    ensures forall l :: l in counts <==> l in order
    ensures forall l :: l in counts ==> counts[l] == Count(repos, l) && counts[l] >= 1
  {
    order, counts := [], map[];
    ghost var seen: seq<string> := [];
    var i := 0;
    while i < |repos|
      invariant 0 <= i <= |repos|
      invariant seen == RepoLanguages(repos[..i])
      invariant Tallied(order, counts, seen)
    {
      CountStep(repos, i);
      var language := repos[i].language;
      if Truthy(language) {
        var l := language.value;
        TallyStep(order, counts, seen, l);
        if l in counts {
          counts := counts[l := counts[l] + 1];
        } else {
          order := order + [l];
          counts := counts[l := 1];
        }
        seen := seen + [l];
      }
      i := i + 1;
    }
    assert repos[..i] == repos;
  }

  /** `order` and `counts` are the keys, in first-seen order, and the tallies of `seen`. */
  ghost predicate Tallied(order: seq<string>, counts: map<string, nat>, seen: seq<string>) {
    && order == Distinct(seen)
    && (forall l :: l in counts <==> l in order)
    && (forall l :: l in counts ==> counts[l] == multiset(seen)[l] && counts[l] >= 1)
  }

  /** Counting one more language keeps the tally: a new key is appended, a known one incremented. */
  lemma TallyStep(order: seq<string>, counts: map<string, nat>, seen: seq<string>, l: string)
    requires Tallied(order, counts, seen)
    ensures l in counts ==> Tallied(order, counts[l := counts[l] + 1], seen + [l])
    ensures l !in counts ==> Tallied(order + [l], counts[l := 1], seen + [l])
  {
    DistinctSnoc(seen, l);
    var ms := multiset(seen + [l]);
    assert ms == multiset(seen) + multiset{l};
    var c := if l in counts then counts[l := counts[l] + 1] else counts[l := 1];
    forall k | k in c ensures c[k] == ms[k] && c[k] >= 1 {
      if k != l {
        assert c[k] == counts[k];
      }
    }
  }

  /** One iteration of the `forEach`: what the next repository adds to the languages and counts. */
  lemma CountStep(repos: seq<UpstreamRepo>, i: nat)
    requires i < |repos|
    ensures var before, lang := RepoLanguages(repos[..i]), repos[i].language;
      && RepoLanguages(repos[..i + 1]) == before + (if Truthy(lang) then [lang.value] else [])
      && (Truthy(lang) ==>
            Distinct(before + [lang.value]) ==
              if lang.value in Distinct(before) then Distinct(before) else Distinct(before) + [lang.value])
  {
    var before, lang := RepoLanguages(repos[..i]), repos[i].language;
    assert repos[..i + 1][..i] == repos[..i];
    if Truthy(lang) {
      DistinctSnoc(before, lang.value);
    }
  }

  /** The comparator `(a, b) => b[1] - a[1]`: `a` may come first when its count is not smaller. */
  function ByCount(repos: seq<UpstreamRepo>): (string, string) -> bool {
    (a: string, b: string) => Count(repos, a) >= Count(repos, b)
  }

  lemma ByCountTotal(repos: seq<UpstreamRepo>)
    ensures TotalPreorder(ByCount(repos))
  {
  }

  /** The languages in first-seen order, stably sorted by count, largest first, cut to seven. */
  function TopLanguages(repos: seq<UpstreamRepo>): seq<string> {
    Take(Sort(Distinct(RepoLanguages(repos)), ByCount(repos)), 7)
  }

  function Get(session: Option<Session>, upstream: Upstream<seq<UpstreamRepo>>): (r: Reply)
    ensures r.Unauthorized? <==> !HasAccessToken(session)
    ensures r.UpstreamFailed? <==> HasAccessToken(session) && upstream.NotOk?
    ensures r.UpstreamFailed? ==> r.status == upstream.status
    ensures r.Languages? ==> r.repoCount == |upstream.body| && r.topLanguages == TopLanguages(upstream.body)
  {
    if !HasAccessToken(session) then Unauthorized
    else if upstream.NotOk? then UpstreamFailed(upstream.status)
    else Languages(TopLanguages(upstream.body), |upstream.body|)
  }

  /** Only truthy languages are counted, each once per repository that has it. */
  lemma {:induction false} CountIgnoresMissing(repos: seq<UpstreamRepo>, r: UpstreamRepo, l: string)
    ensures Count(repos + [r], l) == Count(repos, l) + (if r.language == Some(l) && l != "" then 1 else 0)
    ensures Count(repos, "") == 0
  {
    assert (repos + [r])[..|repos + [r]| - 1] == repos;
    EmptyNeverCounted(repos);
  }

  lemma {:induction false} EmptyNeverCounted(repos: seq<UpstreamRepo>)
    ensures "" !in RepoLanguages(repos)
  {
    if repos != [] {
      EmptyNeverCounted(repos[..|repos| - 1]);
    }
  }

  /** The ranked list is a permutation of the distinct truthy languages. */
  lemma RankedLanguages(repos: seq<UpstreamRepo>)
    ensures var sorted := Sort(Distinct(RepoLanguages(repos)), ByCount(repos));
      && NoDuplicates(sorted)
      && (forall l :: l in sorted <==> l in RepoLanguages(repos))
      && Sorted(sorted, ByCount(repos))
  {
    var langs := Distinct(RepoLanguages(repos));
    var sorted := Sort(langs, ByCount(repos));
    ByCountTotal(repos);
    SortSorted(langs, ByCount(repos));
    PermutationKeepsNoDuplicates(langs, sorted);
    forall l | l in sorted ensures l in RepoLanguages(repos) {
      assert l in multiset(sorted);
    }
    forall l | l in RepoLanguages(repos) ensures l in sorted {
      assert l in multiset(langs);
    }
  }

  /** A cut of a sorted list keeps its order, and nothing cut off precedes what is kept. */
  lemma TakeOfSorted(sorted: seq<string>, repos: seq<UpstreamRepo>)
    requires Sorted(sorted, ByCount(repos))
    ensures var top := Take(sorted, 7);
      && (forall i, j :: 0 <= i < j < |top| ==> Count(repos, top[i]) >= Count(repos, top[j]))
      && (forall l, m :: l in top && m in sorted && m !in top ==> Count(repos, l) >= Count(repos, m))
  {
    var top := Take(sorted, 7);
    forall i, j | 0 <= i < j < |top| ensures Count(repos, top[i]) >= Count(repos, top[j]) {
      assert top[i] == sorted[i] && top[j] == sorted[j];
      assert ByCount(repos)(sorted[i], sorted[j]);
    }
    forall l, m | l in top && m in sorted && m !in top ensures Count(repos, l) >= Count(repos, m) {
      var j :| 0 <= j < |sorted| && sorted[j] == m;
      assert m in sorted[|top|..] by {
        assert sorted[|top|..][j - |top|] == m;
      }
      SortedPrefixDominates(sorted, |top|, ByCount(repos), l, m);
    }
  }

  /**
   * The ranking lists distinct languages, at most seven, each used by some repository, by
   * count non-increasing; no language left out has a larger count than one listed.
   */
  lemma TopLanguagesRanked(repos: seq<UpstreamRepo>)
    ensures |TopLanguages(repos)| <= 7
    ensures NoDuplicates(TopLanguages(repos))
    ensures forall l :: l in TopLanguages(repos) ==> Count(repos, l) >= 1
    ensures forall i, j :: 0 <= i < j < |TopLanguages(repos)| ==>
      Count(repos, TopLanguages(repos)[i]) >= Count(repos, TopLanguages(repos)[j])
    ensures forall l, m :: l in TopLanguages(repos) && m in RepoLanguages(repos) && m !in TopLanguages(repos) ==>
      Count(repos, l) >= Count(repos, m)
  {
    var sorted := Sort(Distinct(RepoLanguages(repos)), ByCount(repos));
    var top := Take(sorted, 7);
    RankedLanguages(repos);
    TakeOfSorted(sorted, repos);
    assert forall l :: l in top ==> l in sorted;
    forall l | l in top ensures Count(repos, l) >= 1 {
      assert l in multiset(RepoLanguages(repos));
    }
  }
}
