/**
 * The friends page: the tab and search pipeline over the GitHub connections, pagination by six,
 * the status colours, the enrichment and existence records, and the page controls.
 */
module Friends {

  import opened Options
  import opened Seqs
  import opened Strings
  import opened GithubTypes

  datatype Tab = Mutual | Following | Followers | InApp

  /** The active tab's list; the in-app tab is not filled in yet and is always empty. */
  function CurrentList(connections: Option<GitHubConnections>, tab: Tab): (r: seq<GitHubUserLite>)
    ensures connections.None? || tab == InApp ==> r == []
    ensures connections.Some? ==> match tab
      case Mutual => r == connections.value.mutuals
      case Following => r == connections.value.following
      case Followers => r == connections.value.followers
      case InApp => r == []
  {
    match connections
    case None => []
    case Some(c) =>
      match tab
      case Mutual => c.mutuals
      case Following => c.following
      case Followers => c.followers
      case InApp => []
  }

  /** The ids of a list of users, in order. */
  function Ids(users: seq<GitHubUserLite>): (r: seq<int>)
    ensures |r| == |users| && forall k :: 0 <= k < |users| ==> r[k] == users[k].id
  {
    Map(users, (u: GitHubUserLite) => u.id)
  }

  /** The position of the last user with id `id`: the value a `Map` keeps after repeated `set`s. */
  function LastIndexWithId(users: seq<GitHubUserLite>, id: int): (k: nat)
    requires id in Ids(users)
    ensures k < |users| && users[k].id == id
    ensures forall j :: k < j < |users| ==> users[j].id != id
  {
    var n := |users| - 1;
    if users[n].id == id then n
    else
      assert Ids(users) == Ids(users[..n]) + [users[n].id];
      LastIndexWithId(users[..n], id)
  }

  /**
   * `Array.from(new Map(users.map(u => [u.id, u])).values())`: one entry per id, at the
   * position of the id's first occurrence, holding the last user with that id.
   */
  function DedupById(users: seq<GitHubUserLite>): (r: seq<GitHubUserLite>)
    ensures Ids(r) == Distinct(Ids(users))
    ensures forall k :: 0 <= k < |r| ==>
      r[k].id in Ids(users) && r[k] == users[LastIndexWithId(users, r[k].id)]
  {
    var ids := Distinct(Ids(users));
    var r := seq(|ids|, k requires 0 <= k < |ids| => users[LastIndexWithId(users, ids[k])]);
    assert Ids(r) == ids;
    r
  }

  /** The de-duplicated list keeps one user per id, each from the input, and loses no id. */
  lemma DedupByIdFacts(users: seq<GitHubUserLite>)
    ensures NoDuplicates(Ids(DedupById(users)))
    ensures forall u :: u in DedupById(users) ==> u in users
    ensures forall u :: u in users ==> exists v :: v in DedupById(users) && v.id == u.id
  {
    var r := DedupById(users);
    forall u | u in users ensures exists v :: v in r && v.id == u.id {
      var j :| 0 <= j < |users| && users[j] == u;
      assert Ids(users)[j] == u.id;
      assert u.id in Ids(r);
      var k :| 0 <= k < |r| && Ids(r)[k] == u.id;
      assert r[k] in r;
    }
  }

  function MatchesQuery(u: GitHubUserLite, query: string): bool {
    ContainsIgnoreCase(u.username, query)
  }

  /**
   * The displayed list: empty without connections, the tab's list without a query, and with a
   * query the matching users of all three lists, de-duplicated by id, whatever the tab.
   */
  function FilteredList(connections: Option<GitHubConnections>, tab: Tab, query: string): (r: seq<GitHubUserLite>)
    ensures connections.None? ==> r == []
    ensures query == "" ==> r == CurrentList(connections, tab)
    ensures connections.Some? && query != "" ==>
      var all := connections.value.followers + connections.value.following + connections.value.mutuals;
      && IsSubsequence(r, DedupById(all))
      && forall u :: u in r <==> u in DedupById(all) && MatchesQuery(u, query)
  {
    match connections
    case None => []
    case Some(c) =>
      if query == "" then CurrentList(connections, tab)
      else Filter(DedupById(c.followers + c.following + c.mutuals), (u: GitHubUserLite) => MatchesQuery(u, query))
  }

  /**
   * With a query, every listed user matches it and comes from one of the three lists, no id
   * is listed twice, and a user of the de-duplicated list is listed exactly when it matches;
   * the tab plays no part. A user whose id also appears later with another username is
   * represented by that later entry, so its own username may not be searched.
   */
  lemma SearchAcrossTabs(c: GitHubConnections, tab: Tab, other: Tab, query: string)
    requires query != ""
    ensures var r := FilteredList(Some(c), tab, query);
      var all := c.followers + c.following + c.mutuals;
      && r == FilteredList(Some(c), other, query)
      && (forall u :: u in r ==> MatchesQuery(u, query) && u in all)
      && (forall u :: u in DedupById(all) ==> (u in r <==> MatchesQuery(u, query)))
      && NoDuplicates(Ids(r))
  {
    var all := c.followers + c.following + c.mutuals;
    var d := DedupById(all);
    DedupByIdFacts(all);
    var p := (u: GitHubUserLite) => MatchesQuery(u, query);
    var r := Filter(d, p);
    SubsequenceKeepsDistinctIds(r, d);
  }

  /** Two entries with one id collapse to the later one. */
  lemma DedupSameId(a: GitHubUserLite, b: GitHubUserLite)
    requires a.id == b.id
    ensures DedupById([a] + [b]) == [b]
  {
    var all := [a] + [b];
    var x := a.id;
    assert Ids(all) == [x, x];
    assert Distinct([x]) == [x] by {
      assert [x][..0] == [];
    }
    assert Distinct([x, x]) == [x] by {
      assert [x, x][..1] == [x];
    }
    assert LastIndexWithId(all, x) == 1;
    var d := DedupById(all);
    assert Ids(d) == [x];
    assert |d| == 1;
    assert d[0].id == x;
    assert d[0] == all[1];
  }

  /** "bob" does not contain "ali". */
  lemma BobLacksAli()
    ensures !ContainsIgnoreCase("bob", "ali")
  {
    assert Lower("bob") == "bob" && Lower("ali") == "ali";
    assert "bob"[1..] == "ob" && "ob"[1..] == "b" && "b"[1..] == "";
    assert "bob"[..3] == "bob" && "bob"[0] != "ali"[0];
    assert !Contains("", "ali") && !Contains("b", "ali") && !Contains("ob", "ali");
  }

  /**
   * The same id under two usernames: the de-duplicated list keeps the later entry, so a query
   * for the earlier username finds nobody.
   */
  lemma SearchUsesLastEntry()
    ensures var alice := GitHubUserLite(1, "alice", "");
      var bob := GitHubUserLite(1, "bob", "");
      && DedupById([alice] + [bob]) == [bob]
      && FilteredList(Some(GitHubConnections([alice], [bob], [])), Following, "ali") == []
  {
    var alice := GitHubUserLite(1, "alice", "");
    var bob := GitHubUserLite(1, "bob", "");
    DedupSameId(alice, bob);
    BobLacksAli();
    assert [alice] + [bob] + [] == [alice] + [bob];
    var r := FilteredList(Some(GitHubConnections([alice], [bob], [])), Following, "ali");
    assert forall u :: u in r ==> u == bob;
  }

  lemma {:induction false} SubsequenceKeepsDistinctIds(a: seq<GitHubUserLite>, b: seq<GitHubUserLite>)
    requires IsSubsequence(a, b) && NoDuplicates(Ids(b))
    ensures NoDuplicates(Ids(a))
    decreases |b|
  {
    if b != [] {
      assert Ids(b[1..]) == Ids(b)[1..];
      if a != [] && a[0] == b[0] && IsSubsequence(a[1..], b[1..]) {
        SubsequenceKeepsDistinctIds(a[1..], b[1..]);
        SubsequenceFacts(a[1..], b[1..]);
        var ma := Ids(a);
        forall i, j | 0 <= i < j < |ma| ensures ma[i] != ma[j] {
          if i == 0 {
            assert a[j] == a[1..][j - 1] && a[j] in b[1..];
            var k :| 0 <= k < |b[1..]| && b[1..][k] == a[j];
            assert Ids(b)[k + 1] == a[j].id && Ids(b)[0] == b[0].id;
          } else {
            assert ma[i] == Ids(a[1..])[i - 1] && ma[j] == Ids(a[1..])[j - 1];
          }
        }
      } else {
        SubsequenceKeepsDistinctIds(a, b[1..]);
      }
    }
  }

  const PerPage: nat := 6

  /** `Math.ceil(n / perPage)`. */
  function TotalPages(n: nat): (pages: nat)
    ensures pages * PerPage >= n
    ensures pages > 0 ==> (pages - 1) * PerPage < n
    ensures n == 0 <==> pages == 0
  {
    (n + PerPage - 1) / PerPage
  }

  /** `filteredList.slice((page - 1) * perPage, page * perPage)`. */
  function Page<T>(list: seq<T>, page: nat): (r: seq<T>)
    requires page >= 1
    ensures |r| <= PerPage
    ensures (page - 1) * PerPage < |list| ==> r == list[(page - 1) * PerPage..if page * PerPage < |list| then page * PerPage else |list|]
    ensures (page - 1) * PerPage >= |list| ==> r == []
  {
    var start := (page - 1) * PerPage;
    if start >= |list| then [] else list[start..if start + PerPage < |list| then start + PerPage else |list|]
  }

  /** Pages 1 to `k`, one after the other. */
  function Pages<T>(list: seq<T>, k: nat): seq<T> {
    if k == 0 then [] else Pages(list, k - 1) + Page(list, k)
  }

  /** Pages 1 to `k` are the first `6k` items. */
  lemma {:induction false} PagesPrefix<T>(list: seq<T>, k: nat)
    ensures Pages(list, k) == list[..if k * PerPage < |list| then k * PerPage else |list|]
  {
    if k > 0 {
      PagesPrefix(list, k - 1);
    }
  }

  /** Pages 1 to `totalPages` put back together are the whole list. */
  lemma PagesCoverList<T>(list: seq<T>)
    ensures Pages(list, TotalPages(|list|)) == list
  {
    PagesPrefix(list, TotalPages(|list|));
  }

  /** `getStatusColor`: exact, case-sensitive matches only. */
  function StatusColor(status: string): (color: string)
    ensures color == "bg-emerald-500" <==> status == "online"
    ensures color == "bg-yellow-500" <==> status == "away"
    ensures status != "online" && status != "away" ==> color == "bg-gray-400"
  {
    if status == "online" then "bg-emerald-500"
    else if status == "away" then "bg-yellow-500"
    else "bg-gray-400"
  }

  /** The literal "Online" the avatar badge passes is not "online", so the badge is always gray. */
  lemma BadgeColorIsGray()
    ensures StatusColor("Online") == "bg-gray-400"
  {
  }

  /** The users of the page that have no enrichment entry yet. */
  function Missing(page: seq<GitHubUserLite>, enriched: map<string, GitHubUserEnriched>): (r: seq<GitHubUserLite>)
    ensures forall u :: u in r <==> u in page && u.username !in enriched
  {
    Filter(page, (u: GitHubUserLite) => u.username !in enriched)
  }

  /** `results.filter(Boolean)`: the fetches that produced a profile. */
  function Fetched(results: seq<Option<GitHubUserEnriched>>): (r: seq<GitHubUserEnriched>)
    ensures forall u :: u in r <==> Some(u) in results
  {
    if results == [] then []
    else
      assert forall x :: x in results <==> x == results[0] || x in results[1..];
      (if results[0].Some? then [results[0].value] else []) + Fetched(results[1..])
  }

  /** `filter(Boolean)` keeps the results' order: filtering a concatenation filters each part. */
  lemma {:induction false} FetchedAppend(a: seq<Option<GitHubUserEnriched>>, b: seq<Option<GitHubUserEnriched>>)
    ensures Fetched(a + b) == Fetched(a) + Fetched(b)
  {
    if a == [] {
      assert a + b == b;
    } else {
      assert (a + b)[0] == a[0] && (a + b)[1..] == a[1..] + b;
      FetchedAppend(a[1..], b);
    }
  }

  /** The record after assigning each fetched profile under its username, in order. */
  function Merged(prev: map<string, GitHubUserEnriched>, fetched: seq<GitHubUserEnriched>): map<string, GitHubUserEnriched> {
    if fetched == [] then prev
    else Merged(prev, fetched[..|fetched| - 1])[fetched[|fetched| - 1].username := fetched[|fetched| - 1]]
  }

  /** The `setEnrichedUsers` updater: copy the record, then assign every fetched profile. */
  method MergeEnriched(prev: map<string, GitHubUserEnriched>, results: seq<Option<GitHubUserEnriched>>)
    returns (next: map<string, GitHubUserEnriched>)
    ensures next == Merged(prev, Fetched(results))
  {
    var fetched := Fetched(results);
    next := prev;
    var i := 0;
    while i < |fetched|
      invariant 0 <= i <= |fetched|
      invariant next == Merged(prev, fetched[..i])
    {
      var pre := fetched[..i + 1];
      assert pre[..|pre| - 1] == fetched[..i] && pre[|pre| - 1] == fetched[i];
      next := next[fetched[i].username := fetched[i]];
      i := i + 1;
    }
    assert fetched[..i] == fetched;
  }

  /**
   * The merge writes exactly the fetched usernames, each with the last profile fetched for it,
   * and keeps every other entry of the record as it was.
   */
  lemma {:induction false} MergedEntries(prev: map<string, GitHubUserEnriched>, fetched: seq<GitHubUserEnriched>, name: string)
    ensures var m := Merged(prev, fetched);
      && (name in m <==> name in prev || exists u :: u in fetched && u.username == name)
      && ((forall u :: u in fetched ==> u.username != name) ==> name in m ==> m[name] == prev[name])
      && (forall k :: 0 <= k < |fetched| && fetched[k].username == name && (forall j :: k < j < |fetched| ==> fetched[j].username != name)
            ==> name in m && m[name] == fetched[k])
  {
    if fetched != [] {
      var init := fetched[..|fetched| - 1];
      var last := fetched[|fetched| - 1];
      MergedEntries(prev, init, name);
      assert fetched == init + [last];
      forall k | 0 <= k < |fetched| - 1 ensures fetched[k] == init[k] {}
    }
  }

  /** The existence check's state per username. */
  datatype Existence = Loading | Exists | NotFound

  /** The record after the status effect's pass over `page`: absent usernames become loading. */
  function WithLoading(status: map<string, Existence>, page: seq<GitHubUserLite>): map<string, Existence> {
    if page == [] then status
    else
      var m := WithLoading(status, page[..|page| - 1]);
      var n := page[|page| - 1].username;
      if n in status then m else m[n := Loading]
  }

  /** The check requests the pass sends: one per page entry whose username had no entry. */
  function Unchecked(status: map<string, Existence>, page: seq<GitHubUserLite>): seq<string> {
    if page == [] then []
    else
      var r := Unchecked(status, page[..|page| - 1]);
      var n := page[|page| - 1].username;
      if n in status then r else r + [n]
  }

  /**
   * The status effect's loop: each user of the page whose username has no entry is marked
   * loading and gets a check request. The test reads the record as it was before the pass.
   */
  method MarkLoading(status: map<string, Existence>, page: seq<GitHubUserLite>)
    returns (next: map<string, Existence>, requested: seq<string>)
    ensures next == WithLoading(status, page)
    ensures requested == Unchecked(status, page)
  {
    next, requested := status, [];
    var i := 0;
    while i < |page|
      invariant 0 <= i <= |page|
      invariant next == WithLoading(status, page[..i])
      invariant requested == Unchecked(status, page[..i])
    {
      var u := page[i];
      assert page[..i + 1] == page[..i] + [u];
      assert page[..i + 1][..i] == page[..i];
      if u.username !in status {
        next := next[u.username := Loading];
        requested := requested + [u.username];
      }
      i := i + 1;
    }
    assert page[..i] == page;
  }

  /**
   * The pass keeps every existing entry, adds exactly the page's missing usernames, all as
   * loading, so an entry only ever goes from absent to loading here.
   */
  lemma {:induction false} WithLoadingEntries(status: map<string, Existence>, page: seq<GitHubUserLite>)
    ensures var m := WithLoading(status, page);
      && (forall n :: n in m <==> n in status || exists u :: u in page && u.username == n)
      && (forall n :: n in status ==> m[n] == status[n])
      && (forall n :: n in m && n !in status ==> m[n] == Loading)
  {
    if page != [] {
      var init := page[..|page| - 1];
      WithLoadingEntries(status, init);
      assert page == init + [page[|page| - 1]];
    }
  }

  /**
   * The check requests go to exactly the page's usernames that had no entry, and each of them
   * is loading in the record afterwards.
   */
  lemma {:induction false} UncheckedMembers(status: map<string, Existence>, page: seq<GitHubUserLite>)
    ensures forall n :: n in Unchecked(status, page) <==>
      n !in status && exists u :: u in page && u.username == n
    ensures forall n :: n in Unchecked(status, page) ==>
      n in WithLoading(status, page) && WithLoading(status, page)[n] == Loading
  {
    WithLoadingEntries(status, page);
    if page != [] {
      var init := page[..|page| - 1];
      UncheckedMembers(status, init);
      assert page == init + [page[|page| - 1]];
    }
  }

  /** A check's outcome: `exists` from a response, or false for a failed request. */
  function Settle(status: map<string, Existence>, name: string, exists_: Option<bool>): (r: map<string, Existence>)
    ensures r.Keys == status.Keys + {name}
    ensures r[name] != Loading
    ensures r[name] == Exists <==> exists_ == Some(true)
    ensures forall n :: n in status && n != name ==> r[n] == status[n]
  {
    status[name := if exists_ == Some(true) then Exists else NotFound]
  }

  /** Page controls: Previous never goes below 1. */
  function PreviousPage(page: nat): (p: nat)
    ensures p >= 1 && (page > 1 ==> p == page - 1)
  {
    if page > 1 then page - 1 else 1
  }

  /** Next never goes beyond the last page; it is only shown when there is more than one page. */
  function NextPage(page: nat, totalPages: nat): (p: nat)
    requires totalPages > 1
    ensures 1 <= p <= totalPages
    ensures page < totalPages ==> p == page + 1
  {
    if page + 1 < totalPages then page + 1 else totalPages
  }

  /** The page's state: the active tab, the search text and the current page. */
  class FriendsView {
    var tab: Tab
    var query: string
    var page: nat

    ghost predicate Valid()
      reads this
    {
      page >= 1
    }

    constructor ()
      ensures Valid() && tab == Following && query == "" && page == 1
    {
      tab, query, page := Following, "", 1;
    }

    /** A tab click; the reset effect sends the page back to 1. */
    method SelectTab(t: Tab)
      modifies this
      ensures Valid() && tab == t && query == old(query) && page == 1
    {
      tab, page := t, 1;
    }

    /** A keystroke in the search box: the handler and the reset effect both set the page to 1. */
    method Search(q: string)
      modifies this
      ensures Valid() && query == q && tab == old(tab) && page == 1
    {
      query, page := q, 1;
    }

    method Previous()
      requires Valid()
      modifies this
      ensures Valid() && page == PreviousPage(old(page)) && tab == old(tab) && query == old(query)
    {
      page := PreviousPage(page);
    }

    method Next(totalPages: nat)
      requires Valid() && totalPages > 1
      modifies this
      ensures Valid() && page == NextPage(old(page), totalPages) && page <= totalPages
      ensures tab == old(tab) && query == old(query)
    {
      page := NextPage(page, totalPages);
    }

    /** A click on a numbered page link. */
    method GoTo(item: nat)
      requires item >= 1
      modifies this
      ensures Valid() && page == item && tab == old(tab) && query == old(query)
    {
      page := item;
    }
  }
}
