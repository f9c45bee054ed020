/**
 * `POST /api/db/users/status`: `UPDATE users SET status, last_active_at = now WHERE
 * github_username = <session username>`, row by row over the users table.
 */
module StatusRoute {

  import opened Options
  import opened Schema
  import opened Auth
  import Store

  /** The parsed body; a missing `status` is `None`, and the update then leaves the column alone. */
  datatype Body = Body(status: Option<UserStatus>)

  /** The `SET` clause applied to one row when it matches. */
  function Touched(u: User, name: string, status: Option<UserStatus>, now: Timestamp): (v: User)
    ensures u.githubUsername != name ==> v == u
    ensures u.githubUsername == name ==>
      v == u.(status := status.GetOr(u.status), lastActiveAt := Some(now))
  {
    if u.githubUsername == name then u.(status := status.GetOr(u.status), lastActiveAt := Some(now)) else u
  }

  /** The users table after the update. */
  function WithStatus(users: seq<User>, name: string, status: Option<UserStatus>, now: Timestamp): (r: seq<User>)
    ensures |r| == |users| && forall k :: 0 <= k < |users| ==> r[k] == Touched(users[k], name, status, now)
  {
    seq(|users|, k requires 0 <= k < |users| => Touched(users[k], name, status, now))
  }

  /**
   * The update keeps every row's id, username and email, so the unique constraints hold and
   * every foreign key into `users` still resolves; applying it twice is applying it once.
   */
  lemma WithStatusKeepsKeys(t: Tables, name: string, status: Option<UserStatus>, now: Timestamp)
    requires UsersUnique(t.users) && RefsValid(t)
    ensures var r := WithStatus(t.users, name, status, now);
      && UsersUnique(r)
      && (forall id :: HasUser(r, id) <==> HasUser(t.users, id))
      && RefsValid(t.(users := r))
      && WithStatus(r, name, status, now) == r
  {
    var r := WithStatus(t.users, name, status, now);
    forall id ensures HasUser(r, id) <==> HasUser(t.users, id) {
      if HasUser(t.users, id) {
        var u :| u in t.users && u.id == id;
        var k :| 0 <= k < |t.users| && t.users[k] == u;
        assert r[k] in r;
      }
      if HasUser(r, id) {
        var u :| u in r && u.id == id;
        var k :| 0 <= k < |r| && r[k] == u;
        assert t.users[k] in t.users;
      }
    }
  }

  /** The matching row gets the body's status and `lastActiveAt = now`; every other row stays as it was. */
  lemma WithStatusEffect(users: seq<User>, name: string, status: Option<UserStatus>, now: Timestamp, k: nat)
    requires k < |users|
    ensures var v := WithStatus(users, name, status, now)[k];
      && v.id == users[k].id && v.githubUsername == users[k].githubUsername && v.email == users[k].email
      && v.name == users[k].name && v.imageUrl == users[k].imageUrl && v.bio == users[k].bio
      && v.role == users[k].role && v.settings == users[k].settings
      && v.createdAt == users[k].createdAt && v.updatedAt == users[k].updatedAt
      && (users[k].githubUsername == name ==> v.lastActiveAt == Some(now) && (status.Some? ==> v.status == status.value))
      && (users[k].githubUsername != name ==> v == users[k])
  {
  }

  /** 401 without a session username, 500 for an unparsable body, otherwise 200 whether or not a row matched. */
  function StatusCode(session: Option<Session>, body: Option<Body>): int {
    if !HasUsername(session) then 401 else if body.None? then 500 else 200
  }

  method Post(store: Store.Store, session: Option<Session>, body: Option<Body>, now: Timestamp) returns (code: int)
    requires store.Valid()
    modifies store
    ensures store.Valid()
    ensures code == StatusCode(session, body)
    ensures store.users == (if code == 200 then WithStatus(old(store.users), session.value.user.username.value, body.value.status, now)
                            else old(store.users))
    ensures store.conversations == old(store.conversations) && store.participants == old(store.participants)
    ensures store.messages == old(store.messages) && store.readStates == old(store.readStates)
    ensures store.projects == old(store.projects) && store.nextId == old(store.nextId)
  {
    if !HasUsername(session) {
      return 401;
    }
    if body.None? {
      return 500;
    }
    var name := session.value.user.username.value;
    var status := body.value.status;
    WithStatusKeepsKeys(store.Snapshot(), name, status, now);
    ghost var before := store.users;
    var i := 0;
    while i < |store.users|
      invariant 0 <= i <= |store.users| == |before|
      invariant forall k :: 0 <= k < i ==> store.users[k] == Touched(before[k], name, status, now)
      invariant forall k :: i <= k < |before| ==> store.users[k] == before[k]
      invariant store.conversations == old(store.conversations) && store.participants == old(store.participants)
      invariant store.messages == old(store.messages) && store.readStates == old(store.readStates)
      invariant store.projects == old(store.projects) && store.nextId == old(store.nextId)
    {
      if store.users[i].githubUsername == name {
        store.users := store.users[i := Touched(store.users[i], name, status, now)];
      }
      i := i + 1;
    }
    assert store.users == WithStatus(before, name, status, now);
    code := 200;
  }
}
