/**
 * The read-only user queries: `POST /api/db/users/online`, `POST /api/db/users/in-app` and
 * `GET /api/db/users/search`.
 */
module UsersRoutes {

  import opened Options
  import opened Seqs
  import opened Strings
  import opened Schema
  import opened Auth

  /** The `{ id, githubUsername, name, imageUrl }` projection of the online and in-app routes. */
  datatype UserSummary = UserSummary(id: Id, githubUsername: string, name: Option<string>, imageUrl: Option<string>)

  function SummaryOf(u: User): (s: UserSummary)
    ensures s.id == u.id && s.githubUsername == u.githubUsername && s.name == u.name && s.imageUrl == u.imageUrl
  {
    UserSummary(u.id, u.githubUsername, u.name, u.imageUrl)
  }

  /** The parsed body's `usernames`: `None` when it is missing or not an array. */
  datatype UsernamesBody = UsernamesBody(usernames: Option<seq<string>>)

  datatype Reply = ServerError | Unauthorized | Users(users: seq<UserSummary>)
  {
    function Status(): int {
      match this
      case ServerError => 500
      case Unauthorized => 401
      case Users(_) => 200
    }
  }

  /** `!Array.isArray(usernames) || usernames.length === 0`. */
  predicate NoUsernames(body: UsernamesBody) {
    body.usernames.None? || body.usernames.value == []
  }

  /** `WHERE github_username IN (...)`, and also `status = 'online'` when `onlineOnly`. */
  function Matching(users: seq<User>, names: seq<string>, onlineOnly: bool): (r: seq<User>)
    ensures IsSubsequence(r, users)
    ensures forall u :: u in r <==> u in users && u.githubUsername in names && (onlineOnly ==> u.status == UserStatus.Online)
  {
    Filter(users, (u: User) => u.githubUsername in names && (onlineOnly ==> u.status == UserStatus.Online))
  }

  /** `POST /api/db/users/online`: the body is parsed before the session check. */
  function OnlineUsers(t: Tables, session: Option<Session>, body: Option<UsernamesBody>): (r: Reply)
    ensures r.ServerError? <==> body.None?
    ensures r.Unauthorized? <==> body.Some? && session.None?
    ensures r.Users? && NoUsernames(body.value) ==> r.users == []
    ensures r.Users? && !NoUsernames(body.value) ==>
      r.users == Map(Matching(t.users, body.value.usernames.value, true), SummaryOf)
  {
    if body.None? then ServerError
    else if session.None? then Unauthorized
    else if NoUsernames(body.value) then Users([])
    else Users(Map(Matching(t.users, body.value.usernames.value, true), SummaryOf))
  }

  /** `POST /api/db/users/in-app`: no session is consulted. */
  function InAppUsers(t: Tables, body: Option<UsernamesBody>): (r: Reply)
    ensures r.ServerError? <==> body.None?
    ensures !r.Unauthorized?
    ensures r.Users? && NoUsernames(body.value) ==> r.users == []
    ensures r.Users? && !NoUsernames(body.value) ==>
      r.users == Map(Matching(t.users, body.value.usernames.value, false), SummaryOf)
  {
    if body.None? then ServerError
    else if NoUsernames(body.value) then Users([])
    else Users(Map(Matching(t.users, body.value.usernames.value, false), SummaryOf))
  }

  /**
   * The online route returns exactly the requested users whose status is online; the in-app
   * route returns exactly the requested users, whatever their status.
   */
  lemma {:induction false} OnlineAndInAppMembers(t: Tables, session: Option<Session>, names: seq<string>)
    requires session.Some? && names != []
    ensures var online := OnlineUsers(t, session, Some(UsernamesBody(Some(names)))).users;
      forall s :: s in online <==> exists u :: u in t.users && u.githubUsername in names && u.status == UserStatus.Online && s == SummaryOf(u)
    ensures var inApp := InAppUsers(t, Some(UsernamesBody(Some(names)))).users;
      forall s :: s in inApp <==> exists u :: u in t.users && u.githubUsername in names && s == SummaryOf(u)
  {
    MapMembers(Matching(t.users, names, true));
    MapMembers(Matching(t.users, names, false));
  }

  lemma MapMembers(us: seq<User>)
    ensures forall s :: s in Map(us, SummaryOf) <==> exists u :: u in us && s == SummaryOf(u)
  {
    var r := Map(us, SummaryOf);
    forall s | s in r ensures exists u :: u in us && s == SummaryOf(u) {
      var k :| 0 <= k < |r| && r[k] == s;
      assert us[k] in us;
    }
    forall u | u in us ensures SummaryOf(u) in r {
      var k :| 0 <= k < |us| && us[k] == u;
      assert r[k] == SummaryOf(u);
    }
  }

  /** The in-app result contains the online one: being online is one more condition. */
  lemma OnlineWithinInApp(t: Tables, session: Option<Session>, body: UsernamesBody)
    requires session.Some?
    ensures IsSubsequence(Matching(t.users, body.usernames.GetOr([]), true), Matching(t.users, body.usernames.GetOr([]), false))
  {
    var names := body.usernames.GetOr([]);
    FilterMonotone(t.users, (u: User) => u.githubUsername in names && (true ==> u.status == UserStatus.Online),
                            (u: User) => u.githubUsername in names && (false ==> u.status == UserStatus.Online));
  }

  /** The search projection: `githubUsername` renamed to `username`. */
  datatype SearchResult = SearchResult(id: Id, name: Option<string>, username: string, imageUrl: Option<string>, bio: Option<string>)

  function SearchResultOf(u: User): (s: SearchResult)
    ensures s.id == u.id && s.name == u.name && s.username == u.githubUsername && s.imageUrl == u.imageUrl && s.bio == u.bio
  {
    SearchResult(u.id, u.name, u.githubUsername, u.imageUrl, u.bio)
  }

  datatype SearchReply = SearchUnauthorized | Results(results: seq<SearchResult>)

  /** `searchParams.get("q") || ""`. */
  function Query(param: Option<string>): string {
    param.GetOr("")
  }

  /** `Number(searchParams.get("limit") || 5)`, for a numeric parameter; absent or empty gives 5. */
  function SearchLimit(param: Option<nat>): (n: nat)
    ensures param.None? ==> n == 5
  {
    param.GetOr(5)
  }

  /** `GET /api/db/users/search`: `LIKE 'q%'` over github usernames, in store order, with a limit. */
  function Search(t: Tables, session: Option<Session>, q: Option<string>, limit: Option<nat>): (r: SearchReply)
    ensures r.SearchUnauthorized? <==> !HasUsername(session)
    ensures r.Results? && Query(q) == "" ==> r.results == []
  {
    if !HasUsername(session) then SearchUnauthorized
    else if Query(q) == "" then Results([])
    else Results(Map(Take(Filter(t.users, (u: User) => IsPrefix(Query(q), u.githubUsername)), SearchLimit(limit)), SearchResultOf))
  }

  /**
   * Every search result is a user whose username starts with the query, there are at most
   * `limit` of them (5 by default), and they are the first matching users in store order.
   */
  lemma SearchResults(t: Tables, session: Option<Session>, q: Option<string>, limit: Option<nat>)
    requires Search(t, session, q, limit).Results?
    ensures var rs := Search(t, session, q, limit).results;
      && |rs| <= SearchLimit(limit)
      && (forall s :: s in rs ==> IsPrefix(Query(q), s.username) && exists u :: u in t.users && SearchResultOf(u) == s)
      && (Query(q) != "" ==>
            var matching := Filter(t.users, (u: User) => IsPrefix(Query(q), u.githubUsername));
            rs == Map(matching[..|rs|], SearchResultOf) && (|rs| < SearchLimit(limit) ==> |rs| == |matching|))
  {
    if Query(q) != "" {
      var matching := Filter(t.users, (u: User) => IsPrefix(Query(q), u.githubUsername));
      var taken := Take(matching, SearchLimit(limit));
      var rs := Search(t, session, q, limit).results;
      forall s | s in rs ensures IsPrefix(Query(q), s.username) && exists u :: u in t.users && SearchResultOf(u) == s {
        var k :| 0 <= k < |rs| && rs[k] == s;
        assert taken[k] == matching[k] && matching[k] in matching;
      }
    }
  }
}
