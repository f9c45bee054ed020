/**
 * `POST /api/db/projects`: create a project with its own group conversation, the caller as its
 * only participant. The three inserts run one after another, without a transaction.
 */
module ProjectsRoute {

  import opened Options
  import opened Schema
  import opened Auth
  import Store

  /** The parsed body's four copied fields. */
  datatype Body = Body(name: string, description: string, repoUrl: string, kind: string)

  datatype Reply = Unauthorized | ServerError | Created(project: Project)
  {
    function Status(): int {
      match this
      case Unauthorized => 401
      case ServerError => 500
      case Created(_) => 201
    }
  }

  /**
   * The owner row insert goes through: the session carries a `dbId` (the column is not null)
   * naming an existing user (the foreign key).
   */
  predicate OwnerInsertable(users: seq<User>, session: Option<Session>)
    requires session.Some?
  {
    session.value.user.dbId.Some? && HasUser(users, session.value.user.dbId.value)
  }

  method Post(store: Store.Store, session: Option<Session>, body: Option<Body>, now: Timestamp) returns (reply: Reply)
    requires store.Valid()
    modifies store
    ensures store.Valid()
    ensures reply.Unauthorized? <==> body.Some? && !HasUserId(session)
    ensures body.None? || !HasUserId(session) ==> store.Snapshot() == old(store.Snapshot()) && store.nextId == old(store.nextId)
    ensures body.Some? && HasUserId(session) ==>
      var group := NewConversation(old(store.nextId), Group, None, None, now);
      && store.conversations == old(store.conversations) + [group]
      && (if OwnerInsertable(old(store.users), session) then
            var owner := session.value.user.dbId.value;
            var p := Project(old(store.nextId) + 2, body.value.name, body.value.description, body.value.kind,
                             body.value.repoUrl, owner, group.id);
            && store.participants == old(store.participants) + [NewParticipant(old(store.nextId) + 1, group.id, owner, now)]
            && store.projects == old(store.projects) + [p]
            && reply == Created(p)
          else
            && store.participants == old(store.participants)
            && store.projects == old(store.projects)
            && reply == ServerError)
    ensures store.users == old(store.users) && store.messages == old(store.messages) && store.readStates == old(store.readStates)
  {
    if body.None? {
      return ServerError;
    }
    if !HasUserId(session) {
      return Unauthorized;
    }
    var group := store.InsertConversation(Group, None, None, now);
    var conversationId := group.value.id;
    if session.value.user.dbId.None? {
      return ServerError;
    }
    var owner := session.value.user.dbId.value;
    var ok := store.InsertParticipants(conversationId, [owner], now);
    if !ok {
      return ServerError;
    }
    assert HasUser(store.users, [owner][0]);
    var project := store.InsertProject(body.value.name, body.value.description, body.value.kind, body.value.repoUrl, owner, conversationId);
    reply := Created(project);
  }
}
