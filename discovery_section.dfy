/**
 * The earlier single-page discovery view: one search box and two selects drive both lists,
 * with the same predicates as the discovery tabs.
 */
module DiscoverySection {

  import opened Seqs
  import opened Discovery

  datatype Results = Results(developers: seq<Developer>, projects: seq<Project>)

  /** Both lists of the section, from the one search box and the two selects. */
  function Show(devs: seq<Developer>, projects: seq<Project>, query: string, languageFilter: string, locationFilter: string): Results {
    Results(FilteredDevelopers(devs, query, languageFilter, locationFilter), FilteredProjects(projects, query))
  }

  /** The selects narrow the developers only: the project list is the same whatever they hold. */
  lemma SelectsIgnoredByProjects(devs: seq<Developer>, projects: seq<Project>, query: string, l1: string, c1: string, l2: string, c2: string)
    ensures Show(devs, projects, query, l1, c1).projects == Show(devs, projects, query, l2, c2).projects
  {
  }

  /** With no query and both selects on "all", both lists are complete, and both keep their order otherwise. */
  lemma ShowFacts(devs: seq<Developer>, projects: seq<Project>, query: string, languageFilter: string, locationFilter: string)
    ensures Show(devs, projects, "", "all", "all") == Results(devs, projects)
    ensures IsSubsequence(Show(devs, projects, query, languageFilter, locationFilter).developers, devs)
    ensures IsSubsequence(Show(devs, projects, query, languageFilter, locationFilter).projects, projects)
  {
    UnfilteredDevelopers(devs);
    FilteredProjectsFacts(projects, "");
  }
}
