/**
 * The discovery tabs: the developer filter (search, language and location) and the project
 * filter (search only), with the language-badge overflow of a developer card.
 */
module Discovery {

  import opened Strings
  import opened Seqs

  datatype Developer = Developer(name: string, bio: string, location: string, languages: seq<string>)

  datatype Project = Project(name: string, description: string, languages: seq<string>)

  /** The search box: the name, the descriptive text or one of the tags contains the query, ignoring case. */
  predicate SearchMatch(name: string, text: string, tags: seq<string>, query: string) {
    || ContainsIgnoreCase(name, query)
    || ContainsIgnoreCase(text, query)
    || exists t :: t in tags && ContainsIgnoreCase(t, query)
  }

  /** An empty query matches whatever the fields hold. */
  lemma EmptySearchMatches(name: string, text: string, tags: seq<string>)
    ensures SearchMatch(name, text, tags, "")
  {
    EmptyQueryMatches(name);
  }

  /** The language select: "all", or a language equal to the choice ignoring case. */
  predicate MatchesLanguage(d: Developer, languageFilter: string) {
    languageFilter == "all" || exists l :: l in d.languages && Lower(l) == Lower(languageFilter)
  }

  /** The location select: "all", or a location containing the choice ignoring case. */
  predicate MatchesLocation(d: Developer, locationFilter: string) {
    locationFilter == "all" || ContainsIgnoreCase(d.location, locationFilter)
  }

  predicate KeepsDeveloper(d: Developer, query: string, languageFilter: string, locationFilter: string) {
    SearchMatch(d.name, d.bio, d.languages, query) && MatchesLanguage(d, languageFilter) && MatchesLocation(d, locationFilter)
  }

  /** `filteredDevelopers`. */
  function FilteredDevelopers(devs: seq<Developer>, query: string, languageFilter: string, locationFilter: string): seq<Developer> {
    Filter(devs, (d: Developer) => KeepsDeveloper(d, query, languageFilter, locationFilter))
  }

  /** A developer is listed exactly when the three conditions hold; the list keeps the input order. */
  lemma FilteredDevelopersFacts(devs: seq<Developer>, query: string, languageFilter: string, locationFilter: string)
    ensures var r := FilteredDevelopers(devs, query, languageFilter, locationFilter);
      && (forall d :: d in r <==>
            d in devs && SearchMatch(d.name, d.bio, d.languages, query)
            && MatchesLanguage(d, languageFilter) && MatchesLocation(d, locationFilter))
      && IsSubsequence(r, devs)
  {
  }

  /** With no query and both selects on "all", every developer is listed. */
  lemma UnfilteredDevelopers(devs: seq<Developer>)
    ensures FilteredDevelopers(devs, "", "all", "all") == devs
  {
    forall d | d in devs ensures KeepsDeveloper(d, "", "all", "all") {
      EmptySearchMatches(d.name, d.bio, d.languages);
    }
    FilterAll(devs, (d: Developer) => KeepsDeveloper(d, "", "all", "all"));
  }

  /** Choosing a language or a location instead of "all" only ever removes developers. */
  lemma SpecificFiltersNeverAdd(devs: seq<Developer>, query: string, languageFilter: string, locationFilter: string)
    ensures IsSubsequence(FilteredDevelopers(devs, query, languageFilter, locationFilter),
                          FilteredDevelopers(devs, query, "all", locationFilter))
    ensures IsSubsequence(FilteredDevelopers(devs, query, languageFilter, locationFilter),
                          FilteredDevelopers(devs, query, languageFilter, "all"))
  {
    FilterMonotone(devs, (d: Developer) => KeepsDeveloper(d, query, languageFilter, locationFilter),
                         (d: Developer) => KeepsDeveloper(d, query, "all", locationFilter));
    FilterMonotone(devs, (d: Developer) => KeepsDeveloper(d, query, languageFilter, locationFilter),
                         (d: Developer) => KeepsDeveloper(d, query, languageFilter, "all"));
  }

  /**
   * The language select compares whole names: a part of a language name finds the developer
   * through the search box, but not through the language select.
   */
  lemma LanguageIsEqualityNotSubstring()
    ensures var d := Developer("a", "b", "c", ["TypeScript"]);
      SearchMatch(d.name, d.bio, d.languages, "Script") && !MatchesLanguage(d, "Script")
  {
    var d := Developer("a", "b", "c", ["TypeScript"]);
    assert d.languages[0] in d.languages;
    ContainsAt(Lower("TypeScript"), Lower("Script"), 4);
    assert |Lower("TypeScript")| != |Lower("Script")|;
  }

  predicate KeepsProject(p: Project, query: string) {
    SearchMatch(p.name, p.description, p.languages, query)
  }

  /** `filteredProjects`: the search query is its only input besides the list. */
  function FilteredProjects(projects: seq<Project>, query: string): seq<Project> {
    Filter(projects, (p: Project) => KeepsProject(p, query))
  }

  /** A project is listed exactly when it matches the search, in list order; no query keeps all. */
  lemma FilteredProjectsFacts(projects: seq<Project>, query: string)
    ensures var r := FilteredProjects(projects, query);
      && (forall p :: p in r <==> p in projects && SearchMatch(p.name, p.description, p.languages, query))
      && IsSubsequence(r, projects)
      && (query == "" ==> r == projects)
  {
    if query == "" {
      forall p | p in projects ensures KeepsProject(p, query) {
        EmptySearchMatches(p.name, p.description, p.languages);
      }
      FilterAll(projects, (p: Project) => KeepsProject(p, query));
    }
  }

  /** A card's language badges: the first three, then "+n" for the n others. */
  function LanguageBadges(languages: seq<string>): (r: seq<string>)
    ensures |languages| <= 3 ==> r == languages
    ensures |languages| > 3 ==> r == languages[..3] + ["+" + NatToString(|languages| - 3)]
    ensures |r| <= 4
  {
    Take(languages, 3) + (if |languages| > 3 then ["+" + NatToString(|languages| - 3)] else [])
  }

  /** The shown languages and the overflow count account for every language exactly once. */
  lemma BadgesAccountForAll(languages: seq<string>)
    requires |languages| > 3
    ensures var r := LanguageBadges(languages);
      |r| == 4 && r[..3] == languages[..3] && DigitsValue(r[3][1..]) + 3 == |languages|
  {
    var r := LanguageBadges(languages);
    assert r[3][1..] == NatToString(|languages| - 3);
    NatToStringRoundTrip(|languages| - 3);
  }
}
