/**
 * `POST /api/db/conversations`: find the caller's direct-message conversation with a target
 * user, or create it. The scan over dm conversations is the source's loop; its meaning is the
 * pure function `Resolve` on the whole database.
 */
module ConversationsRoute {

  import opened Options
  import opened Seqs
  import opened Schema
  import opened Auth
  import Store

  /** The parsed request body; the whole body is `None` when it is not valid JSON. */
  datatype Body = Body(targetUsername: Option<string>)

  datatype Reply =
    | ServerError
    | Unauthorized
    | UserNotFound
    | TargetNotFound
    | Existing(conversationId: Id)
    | Created(conversationId: Id)
  {
    function Status(): int {
      match this
      case ServerError => 500
      case Unauthorized => 401
      case UserNotFound => 404
      case TargetNotFound => 404
      case Existing(_) => 200
      case Created(_) => 201
    }
  }

  /** `SELECT * FROM users WHERE github_username = name`, first row. */
  function UserByUsername(users: seq<User>, name: string): (r: Option<User>)
    ensures r.Some? ==> r.value in users && r.value.githubUsername == name
    ensures r.None? <==> forall u :: u in users ==> u.githubUsername != name
  {
    if users == [] then None
    else if users[0].githubUsername == name then Some(users[0])
    else UserByUsername(users[1..], name)
  }

  /**
   * The `userId` column of a conversation's participant rows: one id per row, in row order,
   * so a user with two rows is counted twice by `ids.length`.
   */
  function ParticipantUserIds(ps: seq<Participant>, cid: Id): (ids: seq<Id>)
    ensures |ids| == |RowsOf(ps, cid)|
    ensures forall k :: 0 <= k < |ids| ==> ids[k] == RowsOf(ps, cid)[k].userId
    ensures forall u :: u in ids <==> exists p :: p in ps && p.conversationId == cid && p.userId == u
  {
    var rows := RowsOf(ps, cid);
    var ids := Map(rows, (p: Participant) => p.userId);
    assert forall k :: 0 <= k < |rows| ==> rows[k] in rows;
    ids
  }

  /** The membership test of the scan: both ids are included and there are exactly two rows. */
  predicate IsDmOf(ps: seq<Participant>, cid: Id, a: Id, b: Id) {
    var ids := ParticipantUserIds(ps, cid);
    a in ids && b in ids && |ids| == 2
  }

  /** `SELECT * FROM conversations WHERE type = 'dm'`. */
  function DmConversations(cs: seq<Conversation>): (r: seq<Conversation>)
    ensures forall c :: c in r <==> c in cs && c.kind == Dm
  {
    Filter(cs, (c: Conversation) => c.kind == Dm)
  }

  /** The first conversation of `dms` passing the membership test for `a` and `b`. */
  function FindDm(dms: seq<Conversation>, ps: seq<Participant>, a: Id, b: Id): (r: Option<Conversation>)
    ensures r.Some? ==> r.value in dms && IsDmOf(ps, r.value.id, a, b)
    ensures r.None? <==> forall c :: c in dms ==> !IsDmOf(ps, c.id, a, b)
  {
    if dms == [] then None
    else if IsDmOf(ps, dms[0].id, a, b) then Some(dms[0])
    else FindDm(dms[1..], ps, a, b)
  }

  /** The caller's `users` row, looked up by the session's username. */
  function CallerOf(t: Tables, session: Option<Session>): (r: Option<User>)
    ensures r.Some? ==> r.value in t.users
  {
    if HasUsername(session) then UserByUsername(t.users, session.value.user.username.value) else None
  }

  /** The target's `users` row, looked up by the body's `targetUsername`. */
  function TargetOf(t: Tables, body: Option<Body>): (r: Option<User>)
    ensures r.Some? ==> r.value in t.users
  {
    if body.Some? && body.value.targetUsername.Some? then UserByUsername(t.users, body.value.targetUsername.value) else None
  }

  /** The rows of a newly created dm: the conversation at `next`, the two participants after it. */
  function CreateDm(t: Tables, next: Id, caller: Id, target: Id, now: Timestamp): Tables {
    t.(conversations := t.conversations + [NewConversation(next, Dm, None, Some(caller), now)],
       participants := t.participants + Store.ParticipantRows(next + 1, next, [caller, target], now))
  }

  /**
   * The handler on database `t` whose next free id is `next`: the new database and the reply.
   * Only a creation changes the database.
   */
  function Resolve(t: Tables, next: Id, session: Option<Session>, body: Option<Body>, now: Timestamp): (r: (Tables, Reply))
    ensures !r.1.Created? ==> r.0 == t
    ensures r.1 == Unauthorized <==> body.Some? && !HasUsername(session)
    ensures r.1.Status() == 404 <==>
      body.Some? && HasUsername(session) && (CallerOf(t, session).None? || TargetOf(t, body).None?)
    ensures r.1.Existing? ==> exists c :: c in t.conversations && c.kind == Dm && c.id == r.1.conversationId
  {
    if body.None? then (t, ServerError)
    else if !HasUsername(session) then (t, Unauthorized)
    else if CallerOf(t, session).None? then (t, UserNotFound)
    else if TargetOf(t, body).None? then (t, TargetNotFound)
    else
      var a, b := CallerOf(t, session).value.id, TargetOf(t, body).value.id;
      match FindDm(DmConversations(t.conversations), t.participants, a, b)
      case Some(c) => (t, Existing(c.id))
      case None => (CreateDm(t, next, a, b, now), Created(next))
  }

  /** The handler: parse, authenticate, look both users up, scan the dms, insert when none matched. */
  method Post(store: Store.Store, session: Option<Session>, body: Option<Body>, now: Timestamp) returns (reply: Reply)
    requires store.Valid()
    modifies store
    ensures store.Valid()
    ensures (store.Snapshot(), reply) == Resolve(old(store.Snapshot()), old(store.nextId), session, body, now)
  {
    if body.None? {
      return ServerError;
    }
    if !HasUsername(session) {
      return Unauthorized;
    }
    var current := CallerOf(store.Snapshot(), session);
    if current.None? {
      return UserNotFound;
    }
    var target := TargetOf(store.Snapshot(), body);
    if target.None? {
      return TargetNotFound;
    }
    var existing := Scan(DmConversations(store.conversations), store.participants, current.value.id, target.value.id);
    if existing.Some? {
      return Existing(existing.value.id);
    }
    var id := InsertDm(store, current.value.id, target.value.id, now);
    reply := Created(id);
  }

  /** The loop over the dm conversations, stopping at the first that passes the membership test. */
  method Scan(dms: seq<Conversation>, ps: seq<Participant>, a: Id, b: Id) returns (existing: Option<Conversation>)
    ensures existing == FindDm(dms, ps, a, b)
  {
    existing := None;
    var i := 0;
    while i < |dms|
      invariant 0 <= i <= |dms|
      invariant FindDm(dms, ps, a, b) == FindDm(dms[i..], ps, a, b)
    {
      var ids := ParticipantUserIds(ps, dms[i].id);
      if a in ids && b in ids && |ids| == 2 {
        existing := Some(dms[i]);
        break;
      }
      assert dms[i..][1..] == dms[i + 1..];
      i := i + 1;
    }
  }

  /** The two inserts of a new dm between existing users `a` (its creator) and `b`. */
  method InsertDm(store: Store.Store, a: Id, b: Id, now: Timestamp) returns (id: Id)
    requires store.Valid() && HasUser(store.users, a) && HasUser(store.users, b)
    modifies store
    ensures store.Valid()
    ensures id == old(store.nextId) && store.nextId == id + 3
    ensures store.Snapshot() == CreateDm(old(store.Snapshot()), id, a, b, now)
  {
    var conversation := store.InsertConversation(Dm, None, Some(a), now);
    id := conversation.value.id;
    var _ := store.InsertParticipants(id, [a, b], now);
  }

  /** The scan result is the first conversation in `dms` passing the test. */
  lemma {:induction false} FindDmIsFirst(dms: seq<Conversation>, ps: seq<Participant>, a: Id, b: Id)
    ensures FindDm(dms, ps, a, b).Some? ==>
      exists i :: 0 <= i < |dms| && dms[i] == FindDm(dms, ps, a, b).value
                  && forall j :: 0 <= j < i ==> !IsDmOf(ps, dms[j].id, a, b)
  {
    if dms != [] && !IsDmOf(ps, dms[0].id, a, b) {
      FindDmIsFirst(dms[1..], ps, a, b);
      if FindDm(dms[1..], ps, a, b).Some? {
        var i :| 0 <= i < |dms[1..]| && dms[1..][i] == FindDm(dms[1..], ps, a, b).value
                 && forall j :: 0 <= j < i ==> !IsDmOf(ps, dms[1..][j].id, a, b);
        assert dms[i + 1] == FindDm(dms, ps, a, b).value;
        forall j | 0 <= j < i + 1 ensures !IsDmOf(ps, dms[j].id, a, b) {
          if j > 0 { assert dms[j] == dms[1..][j - 1]; }
        }
      }
    }
  }

  /** Scanning a list extended at the end finds the old match, else tests the new element. */
  lemma {:induction false} FindDmSnoc(dms: seq<Conversation>, c: Conversation, ps: seq<Participant>, a: Id, b: Id)
    ensures FindDm(dms + [c], ps, a, b) ==
      if FindDm(dms, ps, a, b).Some? then FindDm(dms, ps, a, b)
      else if IsDmOf(ps, c.id, a, b) then Some(c) else None
  {
    if dms == [] {
      assert [c][1..] == [];
    } else {
      assert (dms + [c])[1..] == dms[1..] + [c];
      FindDmSnoc(dms[1..], c, ps, a, b);
    }
  }

  /** Rows with no element for `cid` contribute nothing to its participant list. */
  lemma ParticipantUserIdsAppend(ps: seq<Participant>, rows: seq<Participant>, cid: Id)
    requires forall p :: p in rows ==> p.conversationId != cid
    ensures ParticipantUserIds(ps + rows, cid) == ParticipantUserIds(ps, cid)
  {
    var q := (p: Participant) => p.conversationId == cid;
    FilterAppend(ps, rows, q);
    FilterNone(rows, q);
    assert Filter(ps + rows, q) == Filter(ps, q);
  }

  /** With unused ids from `next`, the new dm's participant list is exactly caller then target. */
  lemma NewDmParticipants(t: Tables, next: Id, a: Id, b: Id, now: Timestamp)
    requires RefsValid(t) && IdsBelow(t, next)
    ensures ParticipantUserIds(CreateDm(t, next, a, b, now).participants, next) == [a, b]
  {
    var rows := Store.ParticipantRows(next + 1, next, [a, b], now);
    var q := (p: Participant) => p.conversationId == next;
    forall p | p in t.participants ensures !q(p) {
      var c :| c in t.conversations && c.id == p.conversationId;
    }
    FilterAppend(t.participants, rows, q);
    FilterNone(t.participants, q);
    assert rows == [rows[0], rows[1]];
    assert Filter(rows, q) == rows by {
      assert rows[1..] == [rows[1]];
      assert [rows[1]][1..] == [];
    }
  }

  /** The new participant rows leave every existing conversation's participant list as it was. */
  lemma OldDmParticipants(t: Tables, next: Id, a: Id, b: Id, now: Timestamp, c: Conversation)
    requires IdsBelow(t, next) && c in t.conversations
    ensures ParticipantUserIds(CreateDm(t, next, a, b, now).participants, c.id) == ParticipantUserIds(t.participants, c.id)
  {
    ParticipantUserIdsAppend(t.participants, Store.ParticipantRows(next + 1, next, [a, b], now), c.id);
  }

  /** A 201 comes from the creation branch, reached only when no dm conversation passed the test. */
  lemma ResolveCreated(t: Tables, next: Id, session: Option<Session>, body: Option<Body>, now: Timestamp)
    requires Resolve(t, next, session, body, now).1.Created?
    ensures CallerOf(t, session).Some? && TargetOf(t, body).Some?
    ensures var a, b := CallerOf(t, session).value.id, TargetOf(t, body).value.id;
      && Resolve(t, next, session, body, now) == (CreateDm(t, next, a, b, now), Created(next))
      && forall c :: c in t.conversations && c.kind == Dm ==> !IsDmOf(t.participants, c.id, a, b)
  {
  }

  /**
   * The new dm's rows: one dm conversation created by the caller and the caller's and the
   * target's participant rows, no other table touched, the foreign keys still valid.
   */
  lemma CreateDmRows(t: Tables, next: Id, a: Id, b: Id, now: Timestamp)
    requires RefsValid(t) && IdsBelow(t, next) && HasUser(t.users, a) && HasUser(t.users, b)
    ensures var t2 := CreateDm(t, next, a, b, now);
      && t2.conversations == t.conversations + [NewConversation(next, Dm, None, Some(a), now)]
      && t2.participants == t.participants + [NewParticipant(next + 1, next, a, now), NewParticipant(next + 2, next, b, now)]
      && t2.users == t.users && t2.messages == t.messages
      && t2.readStates == t.readStates && t2.projects == t.projects
      && RefsValid(t2) && IdsBelow(t2, next + 3)
      && IsDmOf(t2.participants, next, a, b)
  {
    NewDmParticipants(t, next, a, b, now);
    CreateDmKeepsRefs(t, next, a, b, now);
    DmParticipantRows(next, a, b, now);
    var ids := ParticipantUserIds(CreateDm(t, next, a, b, now).participants, next);
    assert ids[0] == a && ids[1] == b;
  }

  /** The two rows of the dm insert, caller first; a step of CreateDmRows. */
  lemma DmParticipantRows(next: Id, a: Id, b: Id, now: Timestamp)
    ensures Store.ParticipantRows(next + 1, next, [a, b], now)
      == [NewParticipant(next + 1, next, a, now), NewParticipant(next + 2, next, b, now)]
  {
    var rows := Store.ParticipantRows(next + 1, next, [a, b], now);
    assert rows[0] == NewParticipant(next + 1, next, a, now);
    assert rows[1] == NewParticipant(next + 2, next, b, now);
  }

  lemma CreateDmKeepsRefs(t: Tables, next: Id, a: Id, b: Id, now: Timestamp)
    requires RefsValid(t) && IdsBelow(t, next) && HasUser(t.users, a) && HasUser(t.users, b)
    ensures RefsValid(CreateDm(t, next, a, b, now)) && IdsBelow(CreateDm(t, next, a, b, now), next + 3)
  {
    var t2 := CreateDm(t, next, a, b, now);
    var c := NewConversation(next, Dm, None, Some(a), now);
    var rows := Store.ParticipantRows(next + 1, next, [a, b], now);
    assert HasConversation(t2.conversations, next) by {
      assert c in t2.conversations;
    }
    forall p | p in t2.participants
      ensures HasConversation(t2.conversations, p.conversationId) && HasUser(t2.users, p.userId)
    {
      if p in t.participants {
        var d :| d in t.conversations && d.id == p.conversationId;
        assert d in t2.conversations;
      } else {
        assert p in rows;
      }
    }
    forall m | m in t2.messages ensures HasConversation(t2.conversations, m.conversationId) {
      var d :| d in t.conversations && d.id == m.conversationId;
      assert d in t2.conversations;
    }
    forall p | p in t2.participants ensures p.id < next + 3 {
      if p !in t.participants { assert p in rows; }
    }
  }

  /**
   * Resolving the same pair again after a 200 or a 201 answers 200 with the same conversation
   * and inserts nothing, whatever ids and clock the second call sees.
   */
  lemma ResolveIdempotent(t: Tables, next: Id, session: Option<Session>, body: Option<Body>, now: Timestamp, next2: Id, now2: Timestamp)
    requires RefsValid(t) && IdsBelow(t, next)
    ensures var r := Resolve(t, next, session, body, now);
      (r.1.Existing? || r.1.Created?) ==> Resolve(r.0, next2, session, body, now2) == (r.0, Existing(r.1.conversationId))
  {
    if Resolve(t, next, session, body, now).1.Created? {
      ResolveCreated(t, next, session, body, now);
      var a, b := CallerOf(t, session).value.id, TargetOf(t, body).value.id;
      SecondCallFindsNewDm(t, next, a, b, now);
      var t2 := CreateDm(t, next, a, b, now);
      assert CallerOf(t2, session) == CallerOf(t, session);
      assert TargetOf(t2, body) == TargetOf(t, body);
    }
  }

  /** After a creation the scan's first match for the same pair is the new conversation. */
  lemma SecondCallFindsNewDm(t: Tables, next: Id, a: Id, b: Id, now: Timestamp)
    requires RefsValid(t) && IdsBelow(t, next)
    requires forall c :: c in t.conversations && c.kind == Dm ==> !IsDmOf(t.participants, c.id, a, b)
    ensures var t2 := CreateDm(t, next, a, b, now);
      FindDm(DmConversations(t2.conversations), t2.participants, a, b) == Some(NewConversation(next, Dm, None, Some(a), now))
  {
    var t2 := CreateDm(t, next, a, b, now);
    var c := NewConversation(next, Dm, None, Some(a), now);
    NewDmParticipants(t, next, a, b, now);
    FilterSnoc(t.conversations, c, (c: Conversation) => c.kind == Dm);
    var dms := DmConversations(t.conversations);
    assert DmConversations(t2.conversations) == dms + [c];
    forall d | d in dms ensures !IsDmOf(t2.participants, d.id, a, b) {
      OldDmParticipants(t, next, a, b, now, d);
    }
    FindDmSnoc(dms, c, t2.participants, a, b);
  }

  /**
   * A 200 names the first dm conversation, in store order, whose participant ids include both
   * users and number exactly two; a group conversation is never returned.
   */
  lemma ExistingIsFirstMatch(t: Tables, next: Id, session: Option<Session>, body: Option<Body>, now: Timestamp)
    requires Resolve(t, next, session, body, now).1.Existing?
    ensures CallerOf(t, session).Some? && TargetOf(t, body).Some?
    ensures var id := Resolve(t, next, session, body, now).1.conversationId;
      var a, b := CallerOf(t, session).value.id, TargetOf(t, body).value.id;
      var dms := DmConversations(t.conversations);
      exists i :: 0 <= i < |dms| && dms[i].id == id && dms[i].kind == Dm && IsDmOf(t.participants, id, a, b)
                  && forall j :: 0 <= j < i ==> !IsDmOf(t.participants, dms[j].id, a, b)
  {
    var a, b := CallerOf(t, session).value.id, TargetOf(t, body).value.id;
    var dms := DmConversations(t.conversations);
    FindDmIsFirst(dms, t.participants, a, b);
    var i :| 0 <= i < |dms| && dms[i] == FindDm(dms, t.participants, a, b).value
             && forall j :: 0 <= j < i ==> !IsDmOf(t.participants, dms[j].id, a, b);
    assert dms[i] in dms;
  }

  /**
   * A request to message oneself is answered with any existing two-participant dm that
   * includes the caller, whoever the other participant is.
   */
  lemma SelfDmMatchesAnyPair(t: Tables, next: Id, session: Option<Session>, body: Option<Body>, now: Timestamp, c: Conversation)
    requires CallerOf(t, session).Some? && body.Some? && body.value.targetUsername == session.value.user.username
    requires c in t.conversations && c.kind == Dm
    requires |ParticipantUserIds(t.participants, c.id)| == 2
    requires CallerOf(t, session).value.id in ParticipantUserIds(t.participants, c.id)
    ensures Resolve(t, next, session, body, now).1.Existing?
  {
    var a := CallerOf(t, session).value.id;
    assert c in DmConversations(t.conversations);
    assert IsDmOf(t.participants, c.id, a, a);
  }
}
