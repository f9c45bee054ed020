/**
 * One conversation card of the direct-message overview: it picks the recipient, listens on the
 * conversation's channel for `update-conversation` events, and renders the preview line and
 * the unread badge.
 */
module DmOverview {

  import opened Options
  import opened Strings
  import opened DbCustoms
  import opened Channels

  /** The payload the card's handler expects. */
  datatype UpdateEvent = UpdateEvent(id: string, latestMessage: DMLatestMessage, updatedAt: string)

  class OverviewCard {
    /** The conversation object the card was given; the handler writes into it. */
    var conversation: DMConversation
    var recipient: Option<DMParticipant>
    /** The channel the effect subscribed to and bound the handler on, while it is mounted. */
    var channel: Option<string>

    /** A subscription is always to this card's own conversation channel. */
    ghost predicate Valid()
      reads this
    {
      channel.Some? ==> channel.value == ClientChannel(conversation.id)
    }

    constructor (c: DMConversation)
      ensures Valid() && conversation == c && recipient.None? && channel.None?
    {
      conversation, recipient, channel := c, None, None;
    }

    /**
     * The effect: without a session `dbId` it does nothing; otherwise the recipient is the first
     * participant who is not the caller, and the card subscribes to its conversation channel.
     */
    method Mount(dbId: Option<string>)
      requires Valid()
      modifies this
      ensures Valid() && conversation == old(conversation)
      ensures !Truthy(dbId) ==> recipient == old(recipient) && channel == old(channel)
      ensures Truthy(dbId) ==>
        && recipient == OtherParticipant(conversation.participants, dbId)
        && channel == Some(ClientChannel(conversation.id))
    {
      if Truthy(dbId) {
        recipient := OtherParticipant(conversation.participants, dbId);
        channel := Some(ClientChannel(conversation.id));
      }
    }

    /**
     * The `update-conversation` handler: an event for this conversation replaces its latest
     * message and update time; any other event changes nothing.
     */
    method OnUpdate(e: UpdateEvent)
      requires Valid() && channel.Some?
      modifies this
      ensures Valid() && recipient == old(recipient) && channel == old(channel)
      ensures e.id == old(conversation.id) ==>
        conversation == old(conversation).(latestMessage := Some(e.latestMessage), updatedAt := e.updatedAt)
      ensures e.id != old(conversation.id) ==> conversation == old(conversation)
    {
      if e.id == conversation.id {
        conversation := conversation.(latestMessage := Some(e.latestMessage), updatedAt := e.updatedAt);
      }
    }

    /** The cleanup unbinds and unsubscribes the very name the effect subscribed to. */
    method Cleanup() returns (unsubscribed: string)
      requires Valid() && channel.Some?
      modifies this
      ensures Valid() && channel.None? && unsubscribed == old(channel).value
      ensures unsubscribed == ClientChannel(conversation.id)
      ensures conversation == old(conversation) && recipient == old(recipient)
    {
      unsubscribed := channel.value;
      channel := None;
    }
  }

  /** The preview line under the title. */
  function Preview(c: DMConversation, dbId: Option<string>): string {
    match c.latestMessage
    case None => NoMessages
    case Some(m) => if m.senderId == dbId then "You: " + m.content else m.content
  }

  /**
   * The preview is "No messages yet" without a latest message; otherwise it is the message's
   * content, prefixed "You: " exactly when the sender is the caller.
   */
  lemma PreviewFacts(c: DMConversation, dbId: Option<string>)
    ensures c.latestMessage.None? ==> Preview(c, dbId) == NoMessages
    ensures c.latestMessage.Some? ==>
      var m := c.latestMessage.value;
      && (Preview(c, dbId) == "You: " + m.content <==> m.senderId == dbId)
      && (Preview(c, dbId) == m.content <==> m.senderId != dbId)
  {
    if c.latestMessage.Some? {
      var m := c.latestMessage.value;
      assert |"You: " + m.content| != |m.content|;
    }
  }

  /**
   * The overview listing gives no `senderId`, so for a caller with a session `dbId` the
   * preview never carries "You: ".
   */
  lemma ListedPreviewHasNoYou(c: DMConversation, dbId: string)
    requires c.latestMessage.Some? && c.latestMessage.value.senderId.None?
    ensures Preview(c, Some(dbId)) == c.latestMessage.value.content
  {
  }

  /**
   * Without a session `dbId` both sides of the comparison are undefined, so a listed message
   * is always prefixed "You: ".
   */
  lemma SignedOutPreviewHasYou(c: DMConversation)
    requires c.latestMessage.Some? && c.latestMessage.value.senderId.None?
    ensures Preview(c, None) == "You: " + c.latestMessage.value.content
  {
  }

  /** The unread badge: shown, with the count, exactly when the count is positive. */
  function Badge(c: DMConversation): (b: Option<int>)
    ensures b.Some? <==> c.unreadCount > 0
    ensures b.Some? ==> b.value == c.unreadCount
  {
    if c.unreadCount > 0 then Some(c.unreadCount) else None
  }
}
