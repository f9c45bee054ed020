/**
 * `GET /api/github/connections`: the caller's followers and following as lite users, and the
 * mutuals, the followers whose login the caller also follows.
 */
module ConnectionsRoute {

  import opened Options
  import opened Seqs
  import opened Auth
  import opened GithubTypes

  datatype Reply = Unauthorized | BadRequest | Connections(connections: GitHubConnections)
  {
    function Status(): int {
      match this
      case Unauthorized => 401
      case BadRequest => 400
      case Connections(_) => 200
    }
  }

  /** `{ id: u.id, username: u.login, avatar: u.avatar_url }`. */
  function Lite(u: GitHubUser): (l: GitHubUserLite)
    ensures l.id == u.id && l.username == u.login && l.avatar == u.avatarUrl
  {
    GitHubUserLite(u.id, u.login, u.avatarUrl)
  }

  /** `new Set(following.map(f => f.login))`. */
  function Logins(users: seq<GitHubUser>): (r: set<string>)
    ensures forall l :: l in r <==> exists u :: u in users && u.login == l
  {
    set u | u in users :: u.login
  }

  /** `followers.filter(f => followingSet.has(f.login))`. */
  function Mutuals(followers: seq<GitHubUser>, following: seq<GitHubUser>): (r: seq<GitHubUser>)
    ensures IsSubsequence(r, followers) && |r| <= |followers|
    ensures forall u :: u in r <==> u in followers && exists g :: g in following && g.login == u.login
  {
    var logins := Logins(following);
    Filter(followers, (f: GitHubUser) => f.login in logins)
  }

  /** The handler: 401 without a token, 400 when either upstream call fails. */
  function Get(session: Option<Session>, followers: Upstream<seq<GitHubUser>>, following: Upstream<seq<GitHubUser>>): (r: Reply)
    ensures r.Unauthorized? <==> !HasAccessToken(session)
    ensures r.BadRequest? <==> HasAccessToken(session) && (followers.NotOk? || following.NotOk?)
    ensures r.Connections? ==>
      var c := r.connections;
      && |c.followers| == |followers.body| && |c.following| == |following.body|
      && (forall k :: 0 <= k < |followers.body| ==> c.followers[k] == Lite(followers.body[k]))
      && (forall k :: 0 <= k < |following.body| ==> c.following[k] == Lite(following.body[k]))
      && c.mutuals == Map(Mutuals(followers.body, following.body), Lite)
  {
    if !HasAccessToken(session) then Unauthorized
    else if followers.NotOk? || following.NotOk? then BadRequest
    else
      Connections(GitHubConnections(
        Map(followers.body, Lite),
        Map(following.body, Lite),
        Map(Mutuals(followers.body, following.body), Lite)))
  }

  /** Mutuality is decided by login alone: a follower counts whatever the ids say. */
  lemma MutualByLogin(followers: seq<GitHubUser>, following: seq<GitHubUser>, f: GitHubUser, g: GitHubUser)
    requires f in followers && g in following && f.login == g.login && f.id != g.id
    ensures f in Mutuals(followers, following)
  {
  }

  /** The logins of the mutuals are the logins on both lists, whichever list is filtered. */
  lemma MutualLoginsSymmetric(followers: seq<GitHubUser>, following: seq<GitHubUser>)
    ensures Logins(Mutuals(followers, following)) == Logins(followers) * Logins(following)
    ensures Logins(Mutuals(followers, following)) == Logins(Mutuals(following, followers))
  {
    var m := Mutuals(followers, following);
    forall l | l in Logins(followers) * Logins(following) ensures l in Logins(m) {
      var f :| f in followers && f.login == l;
      assert f in m;
    }
    var n := Mutuals(following, followers);
    forall l | l in Logins(followers) * Logins(following) ensures l in Logins(n) {
      var g :| g in following && g.login == l;
      assert g in n;
    }
  }

  /** A follower the caller does not follow back never appears among the mutuals. */
  lemma NotFollowedBackNotMutual(followers: seq<GitHubUser>, following: seq<GitHubUser>, f: GitHubUser)
    requires f.login !in Logins(following)
    ensures forall u :: u in Mutuals(followers, following) ==> u.login != f.login
  {
  }
}
