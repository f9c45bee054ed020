/**
 * The community channel view: a local message list that the composer appends to, and the
 * member badge derived from its length. Nothing is sent anywhere.
 */
module ChatSection {

  import opened Options
  import opened Strings
  import opened Keyboard

  /** The signed-in user's fields the composer copies; any of them may be missing. */
  datatype Profile = Profile(name: Option<string>, login: Option<string>, avatarUrl: Option<string>)

  datatype Author = Author(name: Option<string>, login: Option<string>, avatar: Option<string>)

  datatype MessageKind = Text | Code

  datatype ChatMessage = ChatMessage(
    id: int,
    author: Author,
    content: string,
    timestamp: string,
    kind: MessageKind,
    language: Option<string>)

  /** The message a send appends; `now` is the clock reading used as its id. */
  function NewMessage(user: Profile, content: string, now: int): (m: ChatMessage)
    ensures m.content == content && m.kind == Text && m.timestamp == "Just now"
    ensures m.author == Author(user.name, user.login, user.avatarUrl) && m.id == now
  {
    ChatMessage(now, Author(user.name, user.login, user.avatarUrl), content, "Just now", Text, None)
  }

  /** `{messages.length + 47} members`. */
  function MemberBadge(messages: seq<ChatMessage>): (n: int)
    ensures n == |messages| + 47 && n >= 47
  {
    |messages| + 47
  }

  /** Each appended message raises the badge by one. */
  lemma BadgeCountsAppends(messages: seq<ChatMessage>, m: ChatMessage)
    ensures MemberBadge(messages + [m]) == MemberBadge(messages) + 1
  {
  }

  class ChatSection {
    var channel: string
    var messages: seq<ChatMessage>
    var input: string

    /** `initial` stands for the fixture list the view starts from. */
    constructor (initial: seq<ChatMessage>)
      ensures channel == "general" && messages == initial && input == ""
    {
      channel, messages, input := "general", initial, "";
    }

    method Type(text: string)
      modifies this
      ensures input == text && messages == old(messages) && channel == old(channel)
    {
      input := text;
    }

    /**
     * `handleSendMessage`: whitespace-only input changes nothing; otherwise the untrimmed input
     * is appended as a new text message by `user`, the earlier messages stay as they were, and
     * the input is cleared.
     */
    method Send(user: Profile, now: int)
      modifies this
      ensures channel == old(channel)
      ensures AllWhitespace(old(input)) ==> messages == old(messages) && input == old(input)
      ensures !AllWhitespace(old(input)) ==>
        && messages == old(messages) + [NewMessage(user, old(input), now)]
        && input == ""
    {
      var text := input;
      BlankIffAllWhitespace(text);
      if IsBlank(text) {
        return;
      }
      messages := messages + [NewMessage(user, text, now)];
      input := "";
    }

    /** `handleKeyPress`: Enter without Shift sends; any other key changes nothing. */
    method KeyPress(key: string, shiftKey: bool, user: Profile, now: int)
      modifies this
      ensures channel == old(channel)
      ensures !IsSendKey(key, shiftKey) ==> messages == old(messages) && input == old(input)
      ensures IsSendKey(key, shiftKey) && !AllWhitespace(old(input)) ==>
        messages == old(messages) + [NewMessage(user, old(input), now)] && input == ""
      ensures IsSendKey(key, shiftKey) && AllWhitespace(old(input)) ==>
        messages == old(messages) && input == old(input)
    {
      if IsSendKey(key, shiftKey) {
        Send(user, now);
      }
    }
  }
}
