/**
 * The database the route handlers talk to, as one object whose tables are sequences of rows.
 * Each insert method is one `INSERT ... RETURNING` statement: it applies the column defaults,
 * allocates fresh ids and refuses the whole statement when a foreign key or a not-null column
 * would be violated (the driver's exception).
 */
module Store {

  import opened Options
  import opened Schema

  class Store {
    var users: seq<User>
    var conversations: seq<Conversation>
    var participants: seq<Participant>
    var messages: seq<Message>
    var readStates: seq<ConversationRead>
    var projects: seq<Project>
    /** Every id from here on is unused: stands for the random uuid defaults. */
    var nextId: Id

    function Snapshot(): Tables
      reads this
    {
      Tables(users, conversations, participants, messages, readStates, projects)
    }

    /** The database's own constraints: unique user columns, foreign keys, fresh ids above `nextId`. */
    ghost predicate Valid()
      reads this
    {
      IdsBelow(Snapshot(), nextId) && RefsValid(Snapshot()) && UsersUnique(users)
    }

    constructor (initial: Tables, next: Id)
      requires IdsBelow(initial, next) && RefsValid(initial) && UsersUnique(initial.users)
      ensures Valid() && Snapshot() == initial && nextId == next
    {
      users, conversations, participants := initial.users, initial.conversations, initial.participants;
      messages, readStates, projects := initial.messages, initial.readStates, initial.projects;
      nextId := next;
    }

    /** `INSERT INTO conversations`: refused when `createdBy` names no user. */
    method InsertConversation(kind: ConversationType, name: Option<string>, createdBy: Option<Id>, now: Timestamp)
      returns (c: Option<Conversation>)
      requires Valid()
      modifies this
      ensures Valid()
      ensures c.Some? <==> (createdBy.None? || HasUser(users, createdBy.value))
      ensures c.Some? ==> && c.value == NewConversation(old(nextId), kind, name, createdBy, now)
                          && conversations == old(conversations) + [c.value]
                          && nextId == old(nextId) + 1
      ensures c.None? ==> conversations == old(conversations) && nextId == old(nextId)
      ensures users == old(users) && participants == old(participants) && messages == old(messages)
      ensures readStates == old(readStates) && projects == old(projects)
    {
      if createdBy.Some? && !HasUser(users, createdBy.value) {
        return None;
      }
      var row := NewConversation(nextId, kind, name, createdBy, now);
      conversations := conversations + [row];
      nextId := nextId + 1;
      c := Some(row);
    }

    /**
     * One multi-row `INSERT INTO conversation_participants` of `userIds` into `conversationId`:
     * all rows or none.
     */
    method InsertParticipants(conversationId: Id, userIds: seq<Id>, now: Timestamp) returns (ok: bool)
      requires Valid()
      modifies this
      ensures Valid()
      ensures ok <==> HasConversation(conversations, conversationId) && forall k :: 0 <= k < |userIds| ==> HasUser(users, userIds[k])
      ensures ok ==> && participants == old(participants) + ParticipantRows(old(nextId), conversationId, userIds, now)
                     && nextId == old(nextId) + |userIds|
      ensures !ok ==> participants == old(participants) && nextId == old(nextId)
      ensures users == old(users) && conversations == old(conversations) && messages == old(messages)
      ensures readStates == old(readStates) && projects == old(projects)
    {
      ok := HasConversation(conversations, conversationId) && forall k :: 0 <= k < |userIds| ==> HasUser(users, userIds[k]);
      if ok {
        var rows := ParticipantRows(nextId, conversationId, userIds, now);
        participants := participants + rows;
        nextId := nextId + |userIds|;
        assert forall p :: p in rows ==> p.conversationId == conversationId && HasUser(users, p.userId);
      }
    }

    /** `INSERT INTO messages`: refused when the conversation or the sender does not exist. */
    method InsertMessage(conversationId: Id, senderId: Id, content: string, now: Timestamp) returns (m: Option<Message>)
      requires Valid()
      modifies this
      ensures Valid()
      ensures m.Some? <==> HasConversation(conversations, conversationId) && HasUser(users, senderId)
      ensures m.Some? ==> && m.value == NewMessage(old(nextId), conversationId, senderId, content, now)
                          && messages == old(messages) + [m.value]
                          && nextId == old(nextId) + 1
      ensures m.None? ==> messages == old(messages) && nextId == old(nextId)
      ensures users == old(users) && conversations == old(conversations) && participants == old(participants)
      ensures readStates == old(readStates) && projects == old(projects)
    {
      if !(HasConversation(conversations, conversationId) && HasUser(users, senderId)) {
        return None;
      }
      var row := NewMessage(nextId, conversationId, senderId, content, now);
      messages := messages + [row];
      nextId := nextId + 1;
      m := Some(row);
    }

    /** `INSERT INTO projects`. */
    method InsertProject(name: string, description: string, kind: string, repoUrl: string, ownerId: Id, conversationId: Id)
      returns (p: Project)
      requires Valid()
      modifies this
      ensures Valid()
      ensures p == Project(old(nextId), name, description, kind, repoUrl, ownerId, conversationId)
      ensures projects == old(projects) + [p] && nextId == old(nextId) + 1
      ensures users == old(users) && conversations == old(conversations) && participants == old(participants)
      ensures messages == old(messages) && readStates == old(readStates)
    {
      p := Project(nextId, name, description, kind, repoUrl, ownerId, conversationId);
      projects := projects + [p];
      nextId := nextId + 1;
    }
  }

  /** The participant rows of one multi-row insert, with consecutive fresh ids from `first`. */
  function ParticipantRows(first: Id, conversationId: Id, userIds: seq<Id>, now: Timestamp): (rows: seq<Participant>)
    ensures |rows| == |userIds|
    ensures forall k :: 0 <= k < |rows| ==> rows[k] == NewParticipant(first + k, conversationId, userIds[k], now)
  {
    seq(|userIds|, k requires 0 <= k < |userIds| => NewParticipant(first + k, conversationId, userIds[k], now))
  }
}
