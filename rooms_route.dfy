/** `GET /api/db/conversations/rooms`: every group conversation, for any signed-in user. */
module RoomsRoute {

  import opened Options
  import opened Seqs
  import opened Schema
  import opened Auth

  datatype Reply = Unauthorized | Rooms(groups: seq<Conversation>)
  {
    function Status(): int {
      if Unauthorized? then 401 else 200
    }
  }

  /** `SELECT * FROM conversations WHERE type = 'group'`, after the `session.user.id` check. */
  function List(t: Tables, session: Option<Session>): (r: Reply)
    ensures r.Unauthorized? <==> !HasUserId(session)
    ensures r.Rooms? ==> && IsSubsequence(r.groups, t.conversations)
                         && forall c :: c in r.groups <==> c in t.conversations && c.kind == Group
  {
    if !HasUserId(session) then Unauthorized
    else Rooms(Filter(t.conversations, (c: Conversation) => c.kind == Group))
  }

  /** Adding or removing participant rows never changes the listing: membership plays no part. */
  lemma ListIgnoresMembership(t: Tables, session: Option<Session>, ps: seq<Participant>)
    ensures List(t.(participants := ps), session) == List(t, session)
  {
  }

  /** A conversation created later as a group is listed last; a new dm changes nothing. */
  lemma ListAfterInsert(t: Tables, session: Option<Session>, c: Conversation)
    requires HasUserId(session)
    ensures var after := List(t.(conversations := t.conversations + [c]), session).groups;
      after == List(t, session).groups + (if c.kind == Group then [c] else [])
  {
    FilterSnoc(t.conversations, c, (c: Conversation) => c.kind == Group);
  }
}
