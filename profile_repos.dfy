/**
 * The repository tab of a profile: the language choices offered by the filter, and the list
 * the three filters keep, sorted by the chosen key. Both are recomputed from `repos` and the
 * control values, so they are functions of them.
 */
module ProfileRepos {

  import opened Options
  import opened Strings
  import opened Seqs
  import opened Sorting

  /** The fields of a repository the tab reads; `updatedAt` is the parsed timestamp, if any. */
  datatype Repo = Repo(
    name: string,
    description: Option<string>,
    topics: Option<seq<string>>,
    language: Option<string>,
    isPrivate: bool,
    stars: int,
    updatedAt: Option<int>)

  /** The truthy languages of the repositories, in list order, with repetitions. */
  function Languages(repos: seq<Repo>): (r: seq<string>)
    ensures forall l :: l in r <==> l != [] && exists k :: 0 <= k < |repos| && repos[k].language == Some(l)
  {
    if repos == [] then []
    else
      var rest := Languages(repos[1..]);
      assert forall k :: 0 < k < |repos| ==> repos[k] == repos[1..][k - 1];
      assert forall k :: 0 <= k < |repos| - 1 ==> repos[1..][k] == repos[k + 1];
      match repos[0].language
      case Some(l) => if l != [] then [l] + rest else rest
      case None => rest
  }

  /** `Array.from(new Set(languages)).sort()`. */
  function AvailableLanguages(repos: seq<Repo>): seq<string> {
    Sort(Distinct(Languages(repos)), StringLe)
  }

  lemma StringLeTotalPreorder()
    ensures TotalPreorder(StringLe)
  {
    forall a, b ensures StringLe(a, b) || StringLe(b, a) {
      StringLeTotal(a, b);
    }
    forall a, b, c | StringLe(a, b) && StringLe(b, c) ensures StringLe(a, c) {
      StringLeTransitive(a, b, c);
    }
  }

  /**
   * The filter's choices are the non-empty languages of the repositories, each once, in
   * strictly ascending order.
   */
  lemma AvailableLanguagesFacts(repos: seq<Repo>)
    ensures var r := AvailableLanguages(repos);
      && (forall l :: l in r <==> l != [] && exists k :: 0 <= k < |repos| && repos[k].language == Some(l))
      && NoDuplicates(r)
      && forall i, j :: 0 <= i < j < |r| ==> StringLe(r[i], r[j]) && r[i] != r[j]
  {
    var d := Distinct(Languages(repos));
    var r := AvailableLanguages(repos);
    forall l ensures l in r <==> l in d {
      assert l in r <==> l in multiset(r);
      assert l in d <==> l in multiset(d);
    }
    PermutationKeepsNoDuplicates(d, r);
    StringLeTotalPreorder();
    SortSorted(d, StringLe);
  }

  /** The search box: the name, the description or a topic contains the query, ignoring case. */
  predicate MatchesSearch(r: Repo, query: string) {
    || ContainsIgnoreCase(r.name, query)
    || (r.description.Some? && ContainsIgnoreCase(r.description.value, query))
    || (r.topics.Some? && exists t :: t in r.topics.value && ContainsIgnoreCase(t, query))
  }

  predicate MatchesLanguage(r: Repo, languageFilter: string) {
    languageFilter == "all" || r.language == Some(languageFilter)
  }

  /** "all", "public" or "private"; any other value keeps nothing. */
  predicate MatchesType(r: Repo, typeFilter: string) {
    || typeFilter == "all"
    || (typeFilter == "public" && !r.isPrivate)
    || (typeFilter == "private" && r.isPrivate)
  }

  function Keeps(query: string, languageFilter: string, typeFilter: string): Repo -> bool {
    (r: Repo) => MatchesSearch(r, query) && MatchesLanguage(r, languageFilter) && MatchesType(r, typeFilter)
  }

  /** The sort select: "name", "stars", and "updated" for that value and any other. */
  datatype SortKey = ByName | ByStars | ByUpdated

  function SortKeyOf(sortBy: string): (k: SortKey)
    ensures k == ByName <==> sortBy == "name"
    ensures k == ByStars <==> sortBy == "stars"
  {
    if sortBy == "name" then ByName else if sortBy == "stars" then ByStars else ByUpdated
  }

  /** A missing timestamp sorts as the epoch. */
  function UpdatedTime(r: Repo): int {
    r.updatedAt.GetOr(0)
  }

  /** `Precedes(k)(a, b)`: the comparator does not put `b` before `a`. */
  function Precedes(k: SortKey): (Repo, Repo) -> bool {
    match k
    case ByName => (a: Repo, b: Repo) => StringLe(a.name, b.name)
    case ByStars => (a: Repo, b: Repo) => a.stars >= b.stars
    case ByUpdated => (a: Repo, b: Repo) => UpdatedTime(a) >= UpdatedTime(b)
  }

  lemma PrecedesTotalPreorder(k: SortKey)
    ensures TotalPreorder(Precedes(k))
  {
    if k == ByName {
      forall a: Repo, b: Repo ensures Precedes(k)(a, b) || Precedes(k)(b, a) {
        StringLeTotal(a.name, b.name);
      }
      forall a: Repo, b: Repo, c: Repo | Precedes(k)(a, b) && Precedes(k)(b, c)
        ensures Precedes(k)(a, c)
      {
        StringLeTransitive(a.name, b.name, c.name);
      }
    }
  }

  /** `filteredRepos`: the repositories all three filters keep, sorted by the chosen key. */
  function FilteredRepos(repos: seq<Repo>, query: string, languageFilter: string, typeFilter: string, sortBy: string): seq<Repo> {
    Sort(Filter(repos, Keeps(query, languageFilter, typeFilter)), Precedes(SortKeyOf(sortBy)))
  }

  /** The list is always a permutation of a sub-multiset of `repos`. */
  lemma FilteredReposPermutation(repos: seq<Repo>, query: string, languageFilter: string, typeFilter: string, sortBy: string)
    ensures multiset(FilteredRepos(repos, query, languageFilter, typeFilter, sortBy)) <= multiset(repos)
  {
    SubsequenceFacts(Filter(repos, Keeps(query, languageFilter, typeFilter)), repos);
  }

  /** A repository is listed exactly when all three filters keep it. */
  lemma FilteredReposMembers(repos: seq<Repo>, query: string, languageFilter: string, typeFilter: string, sortBy: string)
    ensures forall x :: x in FilteredRepos(repos, query, languageFilter, typeFilter, sortBy) <==>
      x in repos && MatchesSearch(x, query) && MatchesLanguage(x, languageFilter) && MatchesType(x, typeFilter)
  {
    var keep := Keeps(query, languageFilter, typeFilter);
    var f := Filter(repos, keep);
    var r := FilteredRepos(repos, query, languageFilter, typeFilter, sortBy);
    forall x ensures x in r <==> x in f {
      assert x in r <==> x in multiset(r);
      assert x in f <==> x in multiset(f);
    }
  }

  /** The list is ordered by the chosen key. */
  lemma FilteredReposSorted(repos: seq<Repo>, query: string, languageFilter: string, typeFilter: string, sortBy: string)
    ensures Sorted(FilteredRepos(repos, query, languageFilter, typeFilter, sortBy), Precedes(SortKeyOf(sortBy)))
  {
    PrecedesTotalPreorder(SortKeyOf(sortBy));
    SortSorted(Filter(repos, Keeps(query, languageFilter, typeFilter)), Precedes(SortKeyOf(sortBy)));
  }

  /** The three orders, spelled out: by name ascending, by stars and by update time descending. */
  lemma SortModes(repos: seq<Repo>, query: string, languageFilter: string, typeFilter: string, sortBy: string)
    ensures var r := FilteredRepos(repos, query, languageFilter, typeFilter, sortBy);
      && (sortBy == "name" ==> forall i, j :: 0 <= i < j < |r| ==> StringLe(r[i].name, r[j].name))
      && (sortBy == "stars" ==> forall i, j :: 0 <= i < j < |r| ==> r[i].stars >= r[j].stars)
      && (sortBy != "name" && sortBy != "stars" ==>
            forall i, j :: 0 <= i < j < |r| ==> UpdatedTime(r[i]) >= UpdatedTime(r[j]))
  {
    FilteredReposSorted(repos, query, languageFilter, typeFilter, sortBy);
  }

  /** An empty search matches every repository, whatever its fields. */
  lemma EmptyQueryMatchesSearch(r: Repo)
    ensures MatchesSearch(r, "")
  {
    EmptyQueryMatches(r.name);
  }

  /** An empty query with both selects on "all" lists every repository. */
  lemma NoFiltersKeepAll(repos: seq<Repo>, sortBy: string)
    ensures multiset(FilteredRepos(repos, "", "all", "all", sortBy)) == multiset(repos)
  {
    forall x | x in repos ensures Keeps("", "all", "all")(x) {
      EmptyQueryMatches(x.name);
    }
    FilterAll(repos, Keeps("", "all", "all"));
  }

  /** The count badge next to the title: the length of the filtered list. */
  function CountBadge(repos: seq<Repo>, query: string, languageFilter: string, typeFilter: string, sortBy: string): (n: nat)
    ensures n <= |repos|
    ensures n == |Filter(repos, Keeps(query, languageFilter, typeFilter))|
  {
    |FilteredRepos(repos, query, languageFilter, typeFilter, sortBy)|
  }
}
