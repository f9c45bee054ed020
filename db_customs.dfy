/**
 * The shapes the clients receive from the conversation routes: string ids and timestamps,
 * `null` as `None`. A field a route leaves out (the latest message's `senderId`) is `None` too.
 */
module DbCustoms {

  import opened Options

  datatype DMParticipant = DMParticipant(
    id: string,
    name: Option<string>,
    githubUsername: string,
    imageUrl: Option<string>,
    status: string)

  datatype DMLatestMessage = DMLatestMessage(
    id: string,
    content: string,
    senderId: Option<string>,
    createdAt: string)

  datatype ConversationKind = Dm | Group

  datatype DMConversation = DMConversation(
    id: string,
    kind: ConversationKind,
    name: Option<string>,
    createdBy: string,
    createdAt: string,
    updatedAt: string,
    participants: seq<DMParticipant>,
    latestMessage: Option<DMLatestMessage>,
    unreadCount: int)

  datatype DMSender = DMSender(
    id: string,
    name: Option<string>,
    imageUrl: Option<string>,
    githubUsername: Option<string>)

  datatype DMMessage = DMMessage(
    id: string,
    content: string,
    createdAt: string,
    updatedAt: string,
    sender: DMSender)

  /** The placeholder shown where a conversation has no message yet. */
  const NoMessages: string := "No messages yet"

  /**
   * `participants.find(p => p.id !== self)`: the first participant who is not the caller. With
   * no caller id (`undefined`) every participant differs, so it is the first one.
   */
  function OtherParticipant(participants: seq<DMParticipant>, self: Option<string>): (r: Option<DMParticipant>)
    ensures r.Some? ==> r.value in participants && Some(r.value.id) != self
    ensures r.Some? ==> exists k ::
      && 0 <= k < |participants| && participants[k] == r.value
      && forall j :: 0 <= j < k ==> Some(participants[j].id) == self
    ensures r.None? <==> forall p :: p in participants ==> Some(p.id) == self
  {
    if participants == [] then None
    else if Some(participants[0].id) != self then Some(participants[0])
    else
      var r := OtherParticipant(participants[1..], self);
      assert forall p :: p in participants ==> p == participants[0] || p in participants[1..];
      if r.Some? then
        var k :| 0 <= k < |participants[1..]| && participants[1..][k] == r.value
          && forall j :: 0 <= j < k ==> Some(participants[1..][j].id) == self;
        assert participants[k + 1] == r.value;
        assert forall j :: 0 < j < k + 1 ==> participants[j] == participants[1..][j - 1];
        r
      else r
  }

  /** The row and header title: the other participant's username, else their name, else "friend". */
  function Title(other: Option<DMParticipant>): (t: string)
    ensures t != []
    ensures other.Some? && other.value.githubUsername != [] ==> t == other.value.githubUsername
    ensures other.Some? && other.value.githubUsername == [] && other.value.name.Some? && other.value.name.value != [] ==>
      t == other.value.name.value
    ensures other.None? || (other.value.githubUsername == [] && (other.value.name.None? || other.value.name.value == [])) ==>
      t == "friend"
  {
    match other
    case Some(p) =>
      if p.githubUsername != [] then p.githubUsername
      else if p.name.Some? && p.name.value != [] then p.name.value
      else "friend"
    case None => "friend"
  }
}
