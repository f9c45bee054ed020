/**
 * The relational schema: the `user_role`, `user_status` and `conversation_type` enums, the
 * `users`, `conversations`, `conversation_participants` and `messages` tables with their column
 * defaults, the uniqueness constraints on users, the foreign keys and their `ON DELETE CASCADE`
 * rules. The `conversation_reads` and `projects` tables are used by the routes but declared
 * elsewhere; they get minimal records with the columns the routes touch.
 */
module Schema {

  import opened Options
  import opened Seqs

  /** Row ids: the `uuid ... defaultRandom()` keys, modelled as fresh naturals. */
  type Id = nat

  /** `timestamp with time zone`, as milliseconds since the epoch. */
  type Timestamp = int

  datatype UserRole = Regular | Moderator | Admin {
    /** The enum literal stored in the database. */
    function Label(): string {
      match this
      case Regular => "user"
      case Moderator => "moderator"
      case Admin => "admin"
    }
  }

  datatype UserStatus = Online | Offline | Away | Busy {
    function Label(): string {
      match this
      case Online => "online"
      case Offline => "offline"
      case Away => "away"
      case Busy => "busy"
    }
  }

  datatype ConversationType = Dm | Group {
    function Label(): string {
      match this
      case Dm => "dm"
      case Group => "group"
    }
  }

  datatype User = User(
    id: Id,
    githubUsername: string,
    name: Option<string>,
    email: Option<string>,
    imageUrl: Option<string>,
    bio: Option<string>,
    role: UserRole,
    status: UserStatus,
    lastActiveAt: Option<Timestamp>,
    settings: map<string, string>,
    createdAt: Timestamp,
    updatedAt: Timestamp)

  datatype Conversation = Conversation(
    id: Id,
    kind: ConversationType,
    name: Option<string>,
    createdBy: Option<Id>,
    createdAt: Timestamp,
    updatedAt: Timestamp)

  datatype Participant = Participant(
    id: Id,
    conversationId: Id,
    userId: Id,
    isAdmin: bool,
    joinedAt: Timestamp)

  datatype Message = Message(
    id: Id,
    conversationId: Id,
    senderId: Id,
    content: string,
    createdAt: Timestamp,
    updatedAt: Timestamp)

  /** A read watermark: `userId` has read `conversationId` up to `updatedAt`. */
  datatype ConversationRead = ConversationRead(
    id: Id,
    conversationId: Id,
    userId: Id,
    lastReadMessageId: Option<Id>,
    updatedAt: Timestamp)

  datatype Project = Project(
    id: Id,
    name: string,
    description: string,
    kind: string,
    repoUrl: string,
    ownerId: Id,
    conversationId: Id)

  /** The whole database, table by table, each in row order. */
  datatype Tables = Tables(
    users: seq<User>,
    conversations: seq<Conversation>,
    participants: seq<Participant>,
    messages: seq<Message>,
    readStates: seq<ConversationRead>,
    projects: seq<Project>)

  /** A `users` row inserted with only its required columns: every default applied. */
  function NewUser(id: Id, githubUsername: string, now: Timestamp): (u: User)
    ensures u.id == id && u.githubUsername == githubUsername
    ensures u.role == Regular && u.status == Offline
    ensures u.name.None? && u.email.None? && u.imageUrl.None? && u.bio.None? && u.lastActiveAt.None?
    ensures u.settings == map[] && u.createdAt == now && u.updatedAt == now
  {
    User(id, githubUsername, None, None, None, None, Regular, Offline, None, map[], now, now)
  }

  /** A `conversations` row: both timestamps default to now. */
  function NewConversation(id: Id, kind: ConversationType, name: Option<string>, createdBy: Option<Id>, now: Timestamp): (c: Conversation)
    ensures c.id == id && c.kind == kind && c.name == name && c.createdBy == createdBy
    ensures c.createdAt == now && c.updatedAt == now
  {
    Conversation(id, kind, name, createdBy, now, now)
  }

  /** A `conversation_participants` row: `isAdmin` defaults to false, `joinedAt` to now. */
  function NewParticipant(id: Id, conversationId: Id, userId: Id, now: Timestamp): (p: Participant)
    ensures p.id == id && p.conversationId == conversationId && p.userId == userId
    ensures !p.isAdmin && p.joinedAt == now
  {
    Participant(id, conversationId, userId, false, now)
  }

  /** A `messages` row: both timestamps default to now. */
  function NewMessage(id: Id, conversationId: Id, senderId: Id, content: string, now: Timestamp): (m: Message)
    ensures m.id == id && m.conversationId == conversationId && m.senderId == senderId
    ensures m.content == content && m.createdAt == now && m.updatedAt == now
  {
    Message(id, conversationId, senderId, content, now, now)
  }

  /** The unique constraints of `users`: the primary key, `github_username`, and `email` when present. */
  predicate UsersUnique(users: seq<User>) {
    forall i, j :: 0 <= i < j < |users| ==>
      && users[i].id != users[j].id
      && users[i].githubUsername != users[j].githubUsername
      && (users[i].email.Some? ==> users[i].email != users[j].email)
  }

  /** A row `u` can join `users` without violating a unique constraint. */
  predicate Insertable(users: seq<User>, u: User) {
    forall v :: v in users ==>
      v.id != u.id && v.githubUsername != u.githubUsername && (u.email.Some? ==> v.email != u.email)
  }

  /** `INSERT INTO users`: appended when no unique constraint is violated, refused otherwise. */
  function InsertUser(users: seq<User>, u: User): (r: Option<seq<User>>)
    ensures r.Some? <==> Insertable(users, u)
    ensures r.Some? ==> r.value == users + [u]
  {
    if Insertable(users, u) then Some(users + [u]) else None
  }

  /** An accepted insert keeps every unique constraint. */
  lemma InsertUserKeepsUnique(users: seq<User>, u: User)
    requires UsersUnique(users)
    ensures InsertUser(users, u).Some? ==> UsersUnique(InsertUser(users, u).value)
  {
    if Insertable(users, u) {
      var r := users + [u];
      forall i, j | 0 <= i < j < |r|
        ensures r[i].id != r[j].id && r[i].githubUsername != r[j].githubUsername
        ensures r[i].email.Some? ==> r[i].email != r[j].email
      {
        if j == |users| { assert r[i] in users; }
      }
    }
  }

  predicate HasUser(users: seq<User>, id: Id) {
    exists u :: u in users && u.id == id
  }

  predicate HasConversation(conversations: seq<Conversation>, id: Id) {
    exists c :: c in conversations && c.id == id
  }

  /** `WHERE conversation_id = cid`: the conversation's participant rows, in row order. */
  function RowsOf(ps: seq<Participant>, cid: Id): (rows: seq<Participant>)
    ensures forall p :: p in rows <==> p in ps && p.conversationId == cid
    ensures IsSubsequence(rows, ps)
  {
    Filter(ps, (p: Participant) => p.conversationId == cid)
  }

  /** `SELECT * FROM users WHERE id = ...`, first row. */
  function UserById(users: seq<User>, id: Id): (r: Option<User>)
    ensures r.Some? ==> r.value in users && r.value.id == id
    ensures r.None? <==> !HasUser(users, id)
  {
    if users == [] then None
    else if users[0].id == id then Some(users[0])
    else UserById(users[1..], id)
  }

  /** Every foreign key of the four schema tables points at an existing row. */
  predicate RefsValid(t: Tables) {
    && (forall c :: c in t.conversations && c.createdBy.Some? ==> HasUser(t.users, c.createdBy.value))
    && (forall p :: p in t.participants ==>
          HasConversation(t.conversations, p.conversationId) && HasUser(t.users, p.userId))
    && (forall m :: m in t.messages ==>
          HasConversation(t.conversations, m.conversationId) && HasUser(t.users, m.senderId))
  }

  /** Every row id in every table is below `n`, so `n` and above are fresh. */
  predicate IdsBelow(t: Tables, n: Id) {
    && (forall u :: u in t.users ==> u.id < n)
    && (forall c :: c in t.conversations ==> c.id < n)
    && (forall p :: p in t.participants ==> p.id < n)
    && (forall m :: m in t.messages ==> m.id < n)
    && (forall r :: r in t.readStates ==> r.id < n)
    && (forall p :: p in t.projects ==> p.id < n)
  }

  /** `DELETE FROM conversations WHERE id = cid`, with the cascades to participants and messages. */
  function DeleteConversation(t: Tables, cid: Id): Tables {
    t.(conversations := Filter(t.conversations, (c: Conversation) => c.id != cid),
       participants := Filter(t.participants, (p: Participant) => p.conversationId != cid),
       messages := Filter(t.messages, (m: Message) => m.conversationId != cid))
  }

  /** The ids of the conversations `uid` created, which its deletion takes with it. */
  function CreatedBy(t: Tables, uid: Id): set<Id> {
    set c | c in t.conversations && c.createdBy == Some(uid) :: c.id
  }

  /**
   * `DELETE FROM users WHERE id = uid`: cascades to the user's participant rows, sent messages
   * and created conversations, and from those conversations on to their own rows.
   */
  function DeleteUser(t: Tables, uid: Id): Tables {
    var gone := CreatedBy(t, uid);
    t.(users := Filter(t.users, (u: User) => u.id != uid),
       conversations := Filter(t.conversations, (c: Conversation) => c.createdBy != Some(uid)),
       participants := Filter(t.participants, (p: Participant) => p.userId != uid && p.conversationId !in gone),
       messages := Filter(t.messages, (m: Message) => m.senderId != uid && m.conversationId !in gone))
  }

  /**
   * Deleting a conversation leaves no participant row or message of it; every other row stays,
   * in order; and the foreign keys still hold.
   */
  lemma DeleteConversationCascades(t: Tables, cid: Id)
    requires RefsValid(t)
    ensures var r := DeleteConversation(t, cid);
      && !HasConversation(r.conversations, cid)
      && (forall p :: p in r.participants ==> p.conversationId != cid)
      && (forall m :: m in r.messages ==> m.conversationId != cid)
      && (forall p :: p in t.participants && p.conversationId != cid ==> p in r.participants)
      && (forall m :: m in t.messages && m.conversationId != cid ==> m in r.messages)
      && (forall c :: c in t.conversations && c.id != cid ==> c in r.conversations)
      && IsSubsequence(r.conversations, t.conversations)
      && IsSubsequence(r.participants, t.participants)
      && IsSubsequence(r.messages, t.messages)
      && r.users == t.users && r.readStates == t.readStates && r.projects == t.projects
      && RefsValid(r)
  {
    var r := DeleteConversation(t, cid);
    forall p | p in r.participants ensures HasConversation(r.conversations, p.conversationId) {
      var c :| c in t.conversations && c.id == p.conversationId;
      assert c in r.conversations;
    }
    forall m | m in r.messages ensures HasConversation(r.conversations, m.conversationId) {
      var c :| c in t.conversations && c.id == m.conversationId;
      assert c in r.conversations;
    }
  }

  /**
   * Deleting a user leaves no participant row, message or created conversation of theirs, nor
   * any row of the conversations they created; every other row stays, in order, the tables
   * without a cascade are untouched, and the foreign keys still hold.
   */
  lemma DeleteUserCascades(t: Tables, uid: Id)
    requires RefsValid(t)
    ensures var r := DeleteUser(t, uid);
      && !HasUser(r.users, uid)
      && (forall c :: c in r.conversations ==> c.createdBy != Some(uid))
      && (forall p :: p in r.participants ==> p.userId != uid && p.conversationId !in CreatedBy(t, uid))
      && (forall m :: m in r.messages ==> m.senderId != uid && m.conversationId !in CreatedBy(t, uid))
      && (forall u :: u in t.users && u.id != uid ==> u in r.users)
      && (forall c :: c in t.conversations && c.createdBy != Some(uid) ==> c in r.conversations)
      && (forall p :: p in t.participants && p.userId != uid && p.conversationId !in CreatedBy(t, uid) ==> p in r.participants)
      && (forall m :: m in t.messages && m.senderId != uid && m.conversationId !in CreatedBy(t, uid) ==> m in r.messages)
      && IsSubsequence(r.users, t.users) && IsSubsequence(r.conversations, t.conversations)
      && IsSubsequence(r.participants, t.participants) && IsSubsequence(r.messages, t.messages)
      && r.readStates == t.readStates && r.projects == t.projects
      && RefsValid(r)
  {
    var r := DeleteUser(t, uid);
    var gone := CreatedBy(t, uid);
    forall c | c in r.conversations && c.createdBy.Some? ensures HasUser(r.users, c.createdBy.value) {
      var u :| u in t.users && u.id == c.createdBy.value;
      assert u in r.users;
    }
    forall p | p in r.participants
      ensures HasConversation(r.conversations, p.conversationId) && HasUser(r.users, p.userId)
    {
      var c :| c in t.conversations && c.id == p.conversationId;
      assert c.createdBy != Some(uid);
      assert c in r.conversations;
      var u :| u in t.users && u.id == p.userId;
      assert u in r.users;
    }
    forall m | m in r.messages
      ensures HasConversation(r.conversations, m.conversationId) && HasUser(r.users, m.senderId)
    {
      var c :| c in t.conversations && c.id == m.conversationId;
      assert c.createdBy != Some(uid);
      assert c in r.conversations;
      var u :| u in t.users && u.id == m.senderId;
      assert u in r.users;
    }
  }
}
