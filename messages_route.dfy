/**
 * `POST /api/db/messages`: insert a message from the caller, read it back joined with its
 * sender, publish it on the conversation's channel and return it.
 */
module MessagesRoute {

  import opened Options
  import opened Schema
  import opened Auth
  import opened Channels
  import Store
  import DmsRoute

  /** The parsed body; a field missing from the JSON is `None`. */
  datatype Body = Body(conversationId: Option<Id>, content: Option<string>)

  /** The sender block of the read-back row. */
  datatype Sender = Sender(id: Id, name: Option<string>, imageUrl: Option<string>, githubUsername: string)

  /** The read-back row: the response body and the event payload. */
  datatype FullMessage = FullMessage(id: Id, content: string, createdAt: Timestamp, updatedAt: Timestamp, sender: Sender)

  datatype Event = Event(channel: string, name: string, payload: FullMessage)

  /** The push service as seen from the server: the events triggered so far, in order. */
  class PushServer {
    var log: seq<Event>

    constructor ()
      ensures log == []
    {
      log := [];
    }

    method Trigger(channel: string, name: string, payload: FullMessage)
      modifies this
      ensures log == old(log) + [Event(channel, name, payload)]
    {
      log := log + [Event(channel, name, payload)];
    }
  }

  datatype Reply = Unauthorized | ServerError | Sent(message: FullMessage)
  {
    function Status(): int {
      match this
      case Unauthorized => 401
      case ServerError => 500
      case Sent(_) => 200
    }
  }

  /** `messages INNER JOIN users` for one message: its columns and its sender's. */
  function FullMessageOf(m: Message, u: User): (f: FullMessage)
    requires u.id == m.senderId
    ensures f.id == m.id && f.content == m.content && f.createdAt == m.createdAt && f.updatedAt == m.updatedAt
    ensures f.sender == Sender(m.senderId, u.name, u.imageUrl, u.githubUsername)
  {
    FullMessage(m.id, m.content, m.createdAt, m.updatedAt, Sender(u.id, u.name, u.imageUrl, u.githubUsername))
  }

  /**
   * The insert goes through: a session, a parsed body with both fields, a `dbId`, and both
   * foreign keys satisfied. Anything else makes the driver throw, which the handler does not catch.
   */
  predicate Accepted(t: Tables, session: Option<Session>, body: Option<Body>) {
    && session.Some? && body.Some?
    && body.value.conversationId.Some? && body.value.content.Some?
    && session.value.user.dbId.Some?
    && HasConversation(t.conversations, body.value.conversationId.value)
    && HasUser(t.users, session.value.user.dbId.value)
  }

  method Post(store: Store.Store, push: PushServer, session: Option<Session>, body: Option<Body>, now: Timestamp)
    returns (reply: Reply)
    requires store.Valid()
    modifies store, push
    ensures store.Valid()
    ensures reply.Unauthorized? <==> session.None?
    ensures reply.Sent? <==> Accepted(old(store.Snapshot()), session, body)
    ensures reply.Sent? ==>
      var m := NewMessage(old(store.nextId), body.value.conversationId.value, session.value.user.dbId.value, body.value.content.value, now);
      && store.messages == old(store.messages) + [m]
      && store.nextId == old(store.nextId) + 1
      && UserById(store.users, m.senderId).Some?
      && reply.message == FullMessageOf(m, UserById(store.users, m.senderId).value)
      && push.log == old(push.log) + [Event(ConversationChannel(m.conversationId), "new-message", reply.message)]
    ensures !reply.Sent? ==> store.messages == old(store.messages) && store.nextId == old(store.nextId) && push.log == old(push.log)
    ensures store.users == old(store.users) && store.conversations == old(store.conversations)
    ensures store.participants == old(store.participants) && store.readStates == old(store.readStates)
    ensures store.projects == old(store.projects)
  {
    if session.None? {
      return Unauthorized;
    }
    if body.None? || body.value.conversationId.None? || body.value.content.None? || session.value.user.dbId.None? {
      return ServerError;
    }
    var conversationId := body.value.conversationId.value;
    var inserted := store.InsertMessage(conversationId, session.value.user.dbId.value, body.value.content.value, now);
    if inserted.None? {
      return ServerError;
    }
    var sender := UserById(store.users, inserted.value.senderId);
    var full := FullMessageOf(inserted.value, sender.value);
    push.Trigger(ConversationChannel(conversationId), "new-message", full);
    reply := Sent(full);
  }

  /**
   * A posted message counts as unread for everyone whose watermark is older, the sender
   * included: the unread list gains exactly that message at the end.
   */
  lemma PostedMessageIsUnread(ms: seq<Message>, m: Message, watermark: Timestamp)
    requires m.createdAt > watermark
    ensures DmsRoute.UnreadMessages(ms + [m], m.conversationId, watermark)
         == DmsRoute.UnreadMessages(ms, m.conversationId, watermark) + [m]
  {
    Seqs.FilterSnoc(ms, m, (x: Message) => x.conversationId == m.conversationId && x.createdAt > watermark);
  }

  /** A message posted in one conversation leaves every other conversation's unread list as it was. */
  lemma PostElsewhereKeepsUnread(ms: seq<Message>, m: Message, cid: Id, watermark: Timestamp)
    requires m.conversationId != cid
    ensures DmsRoute.UnreadMessages(ms + [m], cid, watermark) == DmsRoute.UnreadMessages(ms, cid, watermark)
  {
    Seqs.FilterSnoc(ms, m, (x: Message) => x.conversationId == cid && x.createdAt > watermark);
  }
}
