/**
 * The open direct-message conversation: the composer's send guard, the message list that only
 * channel events extend, the header's other participant, the near-bottom test of the scroll
 * handler and the mark-as-read guard. Requests the component sends are kept in an outbox.
 */
module ChatArea {

  import opened Options
  import opened Strings
  import opened DbCustoms
  import opened Channels

  /** `POST /api/db/messages/dms/{conversationId}` with `{ content }`. */
  datatype SendRequest = SendRequest(conversationId: string, content: string)

  /** What a send attempt posts: nothing for blank text or a missing id, else the trimmed text. */
  function SendOutcome(conversationId: Option<string>, text: string): (r: Option<SendRequest>)
    ensures r.None? <==> IsBlank(text) || !Truthy(conversationId)
    ensures r.Some? ==> r.value == SendRequest(conversationId.value, Trim(text))
  {
    if IsBlank(text) || !Truthy(conversationId) then None
    else Some(SendRequest(conversationId.value, Trim(text)))
  }

  /** Only text with a non-whitespace character is posted, and without surrounding whitespace. */
  lemma PostedContentIsTrimmed(conversationId: Option<string>, text: string)
    requires SendOutcome(conversationId, text).Some?
    ensures var c := SendOutcome(conversationId, text).value.content;
      && c != [] && !IsWhitespace(c[0]) && !IsWhitespace(c[|c| - 1])
      && !AllWhitespace(text)
  {
    BlankIffAllWhitespace(text);
  }

  class ChatArea {
    /** The `conversationId` prop; `None` when the parent does not pass it. */
    const conversationId: Option<string>
    var messages: seq<DMMessage>
    var input: string
    var sending: bool
    var outbox: seq<SendRequest>

    constructor (conversationId: Option<string>)
      ensures this.conversationId == conversationId
      ensures messages == [] && input == "" && !sending && outbox == []
    {
      this.conversationId := conversationId;
      messages, input, sending, outbox := [], "", false, [];
    }

    method Type(text: string)
      modifies this
      ensures input == text
      ensures messages == old(messages) && sending == old(sending) && outbox == old(outbox)
    {
      input := text;
    }

    /**
     * `handleSendMessage`: a refused attempt changes nothing; otherwise the trimmed text is
     * posted and, whatever the response, the input is cleared and the sending flag reset. The
     * message list is never touched: the new message arrives through the channel.
     */
    method Send()
      modifies this
      ensures messages == old(messages)
      ensures SendOutcome(conversationId, old(input)).None? ==>
        input == old(input) && sending == old(sending) && outbox == old(outbox)
      ensures SendOutcome(conversationId, old(input)).Some? ==>
        && outbox == old(outbox) + [SendOutcome(conversationId, old(input)).value]
        && input == "" && !sending
    {
      var request := SendOutcome(conversationId, input);
      if request.None? {
        return;
      }
      sending := true;
      outbox := outbox + [request.value];
      input := "";
      sending := false;
    }

    /**
     * A pushed event: a `new-message` on this conversation's channel is appended at the end;
     * anything else, or any event while no id is set, leaves the list as it is.
     */
    method Deliver(channel: string, name: string, m: DMMessage)
      modifies this
      ensures Listens(conversationId, channel, name) ==> messages == old(messages) + [m]
      ensures !Listens(conversationId, channel, name) ==> messages == old(messages)
      ensures input == old(input) && sending == old(sending) && outbox == old(outbox)
    {
      if Listens(conversationId, channel, name) {
        messages := messages + [m];
      }
    }
  }

  /** The channel hook binds `new-message` on `conversation-{id}`, and only for a truthy id. */
  predicate Listens(conversationId: Option<string>, channel: string, name: string) {
    Truthy(conversationId) && channel == ClientChannel(conversationId.value) && name == "new-message"
  }

  /** Events on another conversation's channel never reach this list. */
  lemma OtherChannelsIgnored(conversationId: string, other: string, name: string)
    requires conversationId != other
    ensures !Listens(Some(conversationId), ClientChannel(other), name)
  {
    if ClientChannel(other) == ClientChannel(conversationId) {
      ClientChannelInjective(other, conversationId);
    }
  }

  /** `handleScroll`: near the bottom when at most 100 pixels of content lie below the view. */
  function IsNearBottom(scrollTop: int, clientHeight: int, scrollHeight: int): (r: bool)
    ensures r <==> scrollHeight - (scrollTop + clientHeight) <= 100
  {
    scrollTop + clientHeight >= scrollHeight - 100
  }

  /** Scrolling further down never leaves the near-bottom zone. */
  lemma NearBottomMonotone(top1: int, top2: int, clientHeight: int, scrollHeight: int)
    requires top1 <= top2 && IsNearBottom(top1, clientHeight, scrollHeight)
    ensures IsNearBottom(top2, clientHeight, scrollHeight)
  {
  }

  /** The mark-as-read effect runs for a set id and a non-empty list. */
  predicate ShouldMarkRead(conversationId: Option<string>, messages: seq<DMMessage>) {
    Truthy(conversationId) && |messages| > 0
  }

  /** Once a listened-to event arrived, the list is non-empty and the read mark is sent. */
  lemma DeliveredMessageMarksRead(conversationId: Option<string>, messages: seq<DMMessage>, channel: string, name: string, m: DMMessage)
    requires Listens(conversationId, channel, name)
    ensures ShouldMarkRead(conversationId, messages + [m])
  {
  }

  /**
   * The mount effect fetches the messages only for a truthy id; `loadingMessages` starts true
   * and only that fetch clears it, and while it is true the loading view replaces the composer.
   */
  predicate StartsFetch(conversationId: Option<string>) {
    Truthy(conversationId)
  }

  /**
   * The direct-message page mounts this component with a `dmId` prop, which it does not read,
   * and no `conversationId`: the id is missing, so no text is ever posted and no event is
   * ever listened to; nor is the fetch started, so the loading view stays and the composer
   * never shows.
   */
  lemma MountedWithoutIdIsInert(text: string, channel: string, name: string, messages: seq<DMMessage>)
    ensures !StartsFetch(None)
    ensures SendOutcome(None, text).None?
    ensures !Listens(None, channel, name)
    ensures !ShouldMarkRead(None, messages)
  {
  }

  /** With the selected id passed as `conversationId`, non-blank text is posted to that conversation. */
  lemma MountedWithIdSends(dmId: string, text: string)
    requires dmId != "" && !AllWhitespace(text)
    ensures SendOutcome(Some(dmId), text) == Some(SendRequest(dmId, Trim(text)))
  {
    BlankIffAllWhitespace(text);
  }
}
