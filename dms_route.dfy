/**
 * `GET /api/db/conversations/dms`: the caller's direct-message conversations, newest activity
 * first, each with its participants, its latest message and the caller's unread count. The
 * handler only reads, so it is a function of the database.
 */
module DmsRoute {

  import opened Options
  import opened Seqs
  import opened Sorting
  import opened Strings
  import opened Schema
  import opened Auth

  /** A user as the joins project it: id, name, githubUsername, imageUrl and status. */
  datatype UserView = UserView(
    id: Id,
    name: Option<string>,
    githubUsername: string,
    imageUrl: Option<string>,
    status: UserStatus)

  function ViewOf(u: User): (v: UserView)
    ensures v.id == u.id && v.name == u.name && v.githubUsername == u.githubUsername
    ensures v.imageUrl == u.imageUrl && v.status == u.status
  {
    UserView(u.id, u.name, u.githubUsername, u.imageUrl, u.status)
  }

  datatype LatestMessage = LatestMessage(
    id: Id,
    content: string,
    createdAt: Timestamp,
    updatedAt: Timestamp,
    sender: UserView)

  /** One element of the response: the conversation row's columns and the three derived fields. */
  datatype DmSummary = DmSummary(
    conversation: Conversation,
    participants: seq<UserView>,
    latestMessage: Option<LatestMessage>,
    unreadCount: nat)

  datatype Reply = Unauthorized | Listed(dms: seq<DmSummary>)
  {
    function Status(): int {
      if Unauthorized? then 401 else 200
    }
  }

  /**
   * The `limit` query parameter: `parseInt` of a non-empty value, where NaN and 0 are falsy and
   * mean no cap.
   */
  function Limit(param: Option<string>): (r: Option<nat>)
    ensures r.Some? ==> r.value > 0
    ensures param.None? || param == Some("") ==> r.None?
    ensures param.Some? && param.value != "" && !IsDigit(param.value[0]) ==> r.None?
    ensures param.Some? && ParseIntPrefix(param.value).Some? && ParseIntPrefix(param.value).value > 0 ==>
      r == ParseIntPrefix(param.value)
  {
    if param.None? || param.value == "" then None
    else
      match ParseIntPrefix(param.value)
      case None => None
      case Some(n) => if n == 0 then None else Some(n)
  }

  /** The conversation ids of the caller's participant rows. */
  function CallerConversationIds(ps: seq<Participant>, uid: Id): (ids: seq<Id>)
    ensures forall cid :: cid in ids <==> exists p :: p in ps && p.userId == uid && p.conversationId == cid
  {
    var rows := Filter(ps, (p: Participant) => p.userId == uid);
    assert forall k :: 0 <= k < |rows| ==> rows[k] in rows;
    Map(rows, (p: Participant) => p.conversationId)
  }

  /** `WHERE type = 'dm' AND id IN (...)`, in store order. */
  function CallerDms(t: Tables, uid: Id): (r: seq<Conversation>)
    ensures forall c :: c in r <==> c in t.conversations && c.kind == Dm && c.id in CallerConversationIds(t.participants, uid)
  {
    var ids := CallerConversationIds(t.participants, uid);
    Filter(t.conversations, (c: Conversation) => c.kind == Dm && c.id in ids)
  }

  /** `ORDER BY updated_at DESC`: `a` may come before `b`. */
  predicate Newer(a: Conversation, b: Conversation) {
    a.updatedAt >= b.updatedAt
  }

  /** The ordered and, when a limit is given, truncated conversation rows. */
  function OrderedDms(t: Tables, uid: Id, limit: Option<nat>): seq<Conversation> {
    var sorted := Sort(CallerDms(t, uid), Newer);
    if limit.Some? then Take(sorted, limit.value) else sorted
  }

  /** The rows the inner join keeps: those whose user exists, in row order. */
  function JoinedRows(rows: seq<Participant>, users: seq<User>): (r: seq<Participant>)
    ensures forall p :: p in r <==> p in rows && HasUser(users, p.userId)
    ensures IsSubsequence(r, rows)
  {
    Filter(rows, (p: Participant) => HasUser(users, p.userId))
  }

  /** The view of an existing user, looked up by id. */
  function ViewById(users: seq<User>, id: Id): (v: UserView)
    requires HasUser(users, id)
    ensures v.id == id
    ensures exists u :: u in users && u.id == id && v == ViewOf(u)
  {
    ViewOf(UserById(users, id).value)
  }

  /**
   * `conversation_participants INNER JOIN users`: one view per kept row, in row order, each the
   * projection of that row's user; rows without a user are dropped.
   */
  function JoinUsers(rows: seq<Participant>, users: seq<User>): (r: seq<UserView>)
    ensures |r| == |JoinedRows(rows, users)|
    ensures forall k :: 0 <= k < |r| ==> r[k] == ViewById(users, JoinedRows(rows, users)[k].userId)
  {
    if rows == [] then []
    else
      var rest := JoinUsers(rows[1..], users);
      match UserById(users, rows[0].userId)
      case Some(u) =>
        assert JoinedRows(rows, users) == [rows[0]] + JoinedRows(rows[1..], users);
        [ViewOf(u)] + rest
      case None =>
        assert JoinedRows(rows, users) == JoinedRows(rows[1..], users);
        rest
  }

  function Participants(t: Tables, cid: Id): seq<UserView> {
    JoinUsers(RowsOf(t.participants, cid), t.users)
  }

  /** `ORDER BY created_at DESC LIMIT 1`: the first message with the greatest `createdAt`. */
  function Newest(ms: seq<Message>): (r: Option<Message>)
    ensures r.None? <==> ms == []
    ensures r.Some? ==> r.value in ms && forall m :: m in ms ==> m.createdAt <= r.value.createdAt
  {
    if ms == [] then None
    else
      var rest := Newest(ms[1..]);
      assert forall m :: m in ms ==> m == ms[0] || m in ms[1..];
      if rest.None? || ms[0].createdAt >= rest.value.createdAt then Some(ms[0]) else rest
  }

  /** The conversation's messages that survive the inner join with their sender. */
  function JoinedMessages(t: Tables, cid: Id): (r: seq<Message>)
    ensures forall m :: m in r <==> m in t.messages && m.conversationId == cid && HasUser(t.users, m.senderId)
  {
    Filter(t.messages, (m: Message) => m.conversationId == cid && HasUser(t.users, m.senderId))
  }

  function Latest(t: Tables, cid: Id): Option<LatestMessage> {
    match Newest(JoinedMessages(t, cid))
    case None => None
    case Some(m) =>
      var sender := UserById(t.users, m.senderId);
      if sender.None? then None
      else Some(LatestMessage(m.id, m.content, m.createdAt, m.updatedAt, ViewOf(sender.value)))
  }

  /** The first read row of the caller for the conversation, if any. */
  function ReadRow(rows: seq<ConversationRead>, cid: Id, uid: Id): (r: Option<ConversationRead>)
    ensures r.Some? ==> r.value in rows && r.value.conversationId == cid && r.value.userId == uid
    ensures r.None? <==> forall x :: x in rows ==> x.conversationId != cid || x.userId != uid
  {
    if rows == [] then None
    else if rows[0].conversationId == cid && rows[0].userId == uid then Some(rows[0])
    else ReadRow(rows[1..], cid, uid)
  }

  /** `readRow?.updatedAt ?? new Date(0)`. */
  function Watermark(t: Tables, cid: Id, uid: Id): Timestamp {
    match ReadRow(t.readStates, cid, uid)
    case Some(r) => r.updatedAt
    case None => 0
  }

  /** The conversation's messages created strictly after `watermark`, whoever sent them. */
  function UnreadMessages(ms: seq<Message>, cid: Id, watermark: Timestamp): (r: seq<Message>)
    ensures forall m :: m in r <==> m in ms && m.conversationId == cid && m.createdAt > watermark
  {
    Filter(ms, (m: Message) => m.conversationId == cid && m.createdAt > watermark)
  }

  function Summary(t: Tables, c: Conversation, uid: Id): DmSummary {
    DmSummary(c, Participants(t, c.id), Latest(t, c.id), |UnreadMessages(t.messages, c.id, Watermark(t, c.id, uid))|)
  }

  function Summaries(t: Tables, cs: seq<Conversation>, uid: Id): (r: seq<DmSummary>)
    ensures |r| == |cs| && forall k :: 0 <= k < |cs| ==> r[k] == Summary(t, cs[k], uid)
  {
    seq(|cs|, k requires 0 <= k < |cs| => Summary(t, cs[k], uid))
  }

  /** The handler: 401 without a `dbId`, an empty list without participant rows, else the summaries. */
  function List(t: Tables, session: Option<Session>, limitParam: Option<string>): (r: Reply)
    ensures r.Unauthorized? <==> !HasDbId(session)
  {
    if !HasDbId(session) then Unauthorized
    else
      var uid := session.value.user.dbId.value;
      if |CallerConversationIds(t.participants, uid)| == 0 then Listed([])
      else Listed(Summaries(t, OrderedDms(t, uid, Limit(limitParam)), uid))
  }

  /** The rows of the response, in response order. */
  function Rows(r: Reply): seq<Conversation>
    requires r.Listed?
  {
    Map(r.dms, (d: DmSummary) => d.conversation)
  }

  lemma NewerIsTotalPreorder()
    ensures TotalPreorder(Newer)
  {
  }

  /** The early return agrees with the general path: no participant rows, no conversations. */
  lemma NoParticipantRowsNoDms(t: Tables, uid: Id, limit: Option<nat>)
    requires forall p :: p in t.participants ==> p.userId != uid
    ensures OrderedDms(t, uid, limit) == []
  {
  }

  /**
   * `ORDER BY ... LIMIT n` keeps the n newest: the kept rows are taken from the input no more
   * often than they occur there, and each is at least as new as every row left out.
   */
  lemma NewestCut(all: seq<Conversation>, n: nat)
    ensures var r := Take(Sort(all, Newer), n);
      && multiset(r) <= multiset(all)
      && forall c, k :: c in multiset(all) - multiset(r) && 0 <= k < |r| ==> r[k].updatedAt >= c.updatedAt
  {
    var sorted := Sort(all, Newer);
    var r := Take(sorted, n);
    var m := |r|;
    NewerIsTotalPreorder();
    SortSorted(all, Newer);
    assert sorted == sorted[..m] + sorted[m..];
    assert multiset(sorted) == multiset(r) + multiset(sorted[m..]);
    assert multiset(all) - multiset(r) == multiset(sorted[m..]);
    forall c, k | c in multiset(all) - multiset(r) && 0 <= k < |r| ensures r[k].updatedAt >= c.updatedAt {
      assert c in sorted[m..];
      assert r[k] in sorted[..m];
      SortedPrefixDominates(sorted, m, Newer, r[k], c);
    }
  }

  lemma {:induction false} OrderedDmsFacts(t: Tables, uid: Id, limit: Option<nat>)
    ensures var r := OrderedDms(t, uid, limit);
      && (forall c :: c in r ==> c in CallerDms(t, uid))
      && (forall i, j :: 0 <= i < j < |r| ==> r[i].updatedAt >= r[j].updatedAt)
      && |r| == (if limit.Some? && limit.value < |CallerDms(t, uid)| then limit.value else |CallerDms(t, uid)|)
      && (limit.None? ==> multiset(r) == multiset(CallerDms(t, uid)))
      && multiset(r) <= multiset(CallerDms(t, uid))
      && (forall c, k :: c in multiset(CallerDms(t, uid)) - multiset(r) && 0 <= k < |r| ==> r[k].updatedAt >= c.updatedAt)
  {
    var s := CallerDms(t, uid);
    var sorted := Sort(s, Newer);
    NewerIsTotalPreorder();
    SortSorted(s, Newer);
    var r := OrderedDms(t, uid, limit);
    forall c | c in r ensures c in s {
      assert c in sorted;
      assert c in multiset(sorted);
    }
    forall i, j | 0 <= i < j < |r| ensures r[i].updatedAt >= r[j].updatedAt {
      assert r[i] == sorted[i] && r[j] == sorted[j];
    }
    if limit.Some? {
      NewestCut(s, limit.value);
    } else {
      assert multiset(s) - multiset(r) == multiset{};
    }
  }

  /**
   * Every listed conversation is a dm of the caller, listed no more often than it is stored;
   * they come newest activity first, there are as many as the caller's dms, capped by a
   * non-zero limit, and no dm the cap leaves out is newer than a listed one.
   */
  lemma {:induction false} ListedDms(t: Tables, session: Option<Session>, limitParam: Option<string>)
    requires List(t, session, limitParam).Listed?
    ensures var r := List(t, session, limitParam);
      var uid := session.value.user.dbId.value;
      var all := CallerDms(t, uid);
      var rows := Rows(r);
      && (forall c :: c in rows ==> c in t.conversations && c.kind == Dm
                                    && exists p :: p in t.participants && p.userId == uid && p.conversationId == c.id)
      && (forall i, j :: 0 <= i < j < |rows| ==> rows[i].updatedAt >= rows[j].updatedAt)
      && |rows| == (match Limit(limitParam) case Some(n) => if n < |all| then n else |all| case None => |all|)
      && (Limit(limitParam).None? ==> multiset(rows) == multiset(all))
      && multiset(rows) <= multiset(all)
      && (forall c, k :: c in multiset(all) - multiset(rows) && 0 <= k < |rows| ==> rows[k].updatedAt >= c.updatedAt)
  {
    var uid := session.value.user.dbId.value;
    var limit := Limit(limitParam);
    var r := List(t, session, limitParam);
    if |CallerConversationIds(t.participants, uid)| == 0 {
      NoParticipantRowsNoDms(t, uid, limit);
      NoParticipantRowsNoDms(t, uid, None);
      assert Rows(r) == [];
    } else {
      OrderedDmsFacts(t, uid, limit);
      var ordered := OrderedDms(t, uid, limit);
      assert Rows(r) == ordered;
    }
  }

  /**
   * The latest message is the newest message of the conversation whose sender exists, null
   * when there is none; a message's own sender is its sender view.
   */
  lemma LatestIsNewest(t: Tables, cid: Id)
    ensures Latest(t, cid).None? <==> forall m :: m in t.messages && m.conversationId == cid ==> !HasUser(t.users, m.senderId)
    ensures Latest(t, cid).Some? ==>
      var l := Latest(t, cid).value;
      && (exists m :: m in t.messages && m.conversationId == cid && HasUser(t.users, m.senderId)
                      && l == LatestMessage(m.id, m.content, m.createdAt, m.updatedAt, ViewById(t.users, m.senderId)))
      && forall m :: m in t.messages && m.conversationId == cid && HasUser(t.users, m.senderId) ==> m.createdAt <= l.createdAt
  {
    var js := JoinedMessages(t, cid);
    if js != [] {
      assert js[0] in js;
    }
  }

  /** What the join gives: a view belongs to it exactly when it is the view of a kept row's user. */
  lemma JoinUsersMembers(rows: seq<Participant>, users: seq<User>)
    ensures forall v :: v in JoinUsers(rows, users) <==>
      exists p :: p in rows && HasUser(users, p.userId) && v == ViewById(users, p.userId)
  {
    var r := JoinUsers(rows, users);
    var kept := JoinedRows(rows, users);
    forall v | v in r ensures exists p :: p in rows && HasUser(users, p.userId) && v == ViewById(users, p.userId) {
      var k :| 0 <= k < |r| && r[k] == v;
      assert kept[k] in kept;
    }
    forall p | p in rows && HasUser(users, p.userId) ensures ViewById(users, p.userId) in r {
      assert p in kept;
      var k :| 0 <= k < |kept| && kept[k] == p;
      assert r[k] == ViewById(users, p.userId);
    }
  }

  /**
   * Under valid foreign keys no participant row is dropped: the list has one view per row of the
   * conversation, in row order, each its user's view; the caller's view is among them.
   */
  lemma ParticipantsComplete(t: Tables, c: Conversation, uid: Id)
    requires RefsValid(t)
    requires exists p :: p in t.participants && p.userId == uid && p.conversationId == c.id
    ensures var rows := RowsOf(t.participants, c.id);
      && |Participants(t, c.id)| == |rows|
      && (forall k :: 0 <= k < |rows| ==> Participants(t, c.id)[k] == ViewById(t.users, rows[k].userId))
      && (forall p :: p in t.participants && p.conversationId == c.id ==> ViewById(t.users, p.userId) in Participants(t, c.id))
    ensures exists v :: v in Participants(t, c.id) && v.id == uid
  {
    var rows := RowsOf(t.participants, c.id);
    assert JoinedRows(rows, t.users) == rows by {
      FilterAll(rows, (p: Participant) => HasUser(t.users, p.userId));
    }
    JoinUsersMembers(rows, t.users);
    var p :| p in t.participants && p.userId == uid && p.conversationId == c.id;
    assert ViewById(t.users, p.userId) in Participants(t, c.id);
  }

  /** A later read watermark never raises the unread count. */
  lemma UnreadAntitone(ms: seq<Message>, cid: Id, w1: Timestamp, w2: Timestamp)
    requires w1 <= w2
    ensures IsSubsequence(UnreadMessages(ms, cid, w2), UnreadMessages(ms, cid, w1))
    ensures |UnreadMessages(ms, cid, w2)| <= |UnreadMessages(ms, cid, w1)|
  {
    FilterMonotone(ms, (m: Message) => m.conversationId == cid && m.createdAt > w2,
                       (m: Message) => m.conversationId == cid && m.createdAt > w1);
    SubsequenceFacts(UnreadMessages(ms, cid, w2), UnreadMessages(ms, cid, w1));
  }

  /**
   * Without a read row every message of the conversation after the epoch is unread; a read row
   * at or after the newest message leaves nothing unread.
   */
  lemma UnreadWatermark(t: Tables, cid: Id, uid: Id)
    ensures ReadRow(t.readStates, cid, uid).None? ==> Watermark(t, cid, uid) == 0
    ensures (forall m :: m in t.messages && m.conversationId == cid ==> m.createdAt <= Watermark(t, cid, uid)) ==>
      UnreadMessages(t.messages, cid, Watermark(t, cid, uid)) == []
  {
    var u := UnreadMessages(t.messages, cid, Watermark(t, cid, uid));
    if u != [] {
      assert u[0] in u;
    }
  }
}
