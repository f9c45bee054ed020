/**
 * The earlier private-messaging view over a fixed list of conversations and a fixed record of
 * messages per conversation: selection, search, the unread total and a composer that only
 * clears itself.
 */
module PrivateMessaging {

  import opened Options
  import opened Strings
  import opened Seqs
  import opened Keyboard

  datatype Conversation = Conversation(id: string, name: string, unreadCount: int)

  datatype PrivateMessage = PrivateMessage(id: int, senderId: string, senderName: string, content: string, timestamp: string)

  /** The first selection: the `chatId` prop when it is truthy, else "sarah". */
  function InitialSelection(chatId: Option<string>): (s: string)
    ensures Truthy(chatId) ==> s == chatId.value
    ensures !Truthy(chatId) ==> s == "sarah"
    ensures s != ""
  {
    if Truthy(chatId) then chatId.value else "sarah"
  }

  /** `currentMessages`: the selected chat's messages, or none when the record has no entry. */
  function CurrentMessages(messages: map<string, seq<PrivateMessage>>, selected: string): (r: seq<PrivateMessage>)
    ensures selected !in messages ==> r == []
    ensures selected in messages ==> r == messages[selected]
  {
    if selected in messages then messages[selected] else []
  }

  /** `filteredConversations`: by name, ignoring case. */
  function FilteredConversations(convs: seq<Conversation>, query: string): seq<Conversation> {
    Filter(convs, (c: Conversation) => ContainsIgnoreCase(c.name, query))
  }

  /** The list keeps exactly the conversations whose name contains the query, in order. */
  lemma FilteredConversationsFacts(convs: seq<Conversation>, query: string)
    ensures forall c :: c in FilteredConversations(convs, query) <==> c in convs && ContainsIgnoreCase(c.name, query)
    ensures IsSubsequence(FilteredConversations(convs, query), convs)
    ensures query == "" ==> FilteredConversations(convs, query) == convs
  {
    if query == "" {
      forall c | c in convs ensures ContainsIgnoreCase(c.name, query) {
        EmptyQueryMatches(c.name);
      }
      FilterAll(convs, (c: Conversation) => ContainsIgnoreCase(c.name, query));
    }
  }

  /** The header badge: `reduce` summing the unread counts of all conversations. */
  function UnreadTotal(convs: seq<Conversation>): int {
    if convs == [] then 0 else convs[0].unreadCount + UnreadTotal(convs[1..])
  }

  /**
   * The badge counts every conversation, not just the listed ones: with non-negative counts it
   * is at least the total of any search result.
   */
  lemma {:induction false} UnreadTotalCoversSearch(convs: seq<Conversation>, query: string)
    requires forall c :: c in convs ==> c.unreadCount >= 0
    ensures UnreadTotal(FilteredConversations(convs, query)) <= UnreadTotal(convs)
  {
    if convs != [] {
      UnreadTotalCoversSearch(convs[1..], query);
      var p := (c: Conversation) => ContainsIgnoreCase(c.name, query);
      if p(convs[0]) {
        assert FilteredConversations(convs, query) == [convs[0]] + FilteredConversations(convs[1..], query);
        assert ([convs[0]] + FilteredConversations(convs[1..], query))[1..] == FilteredConversations(convs[1..], query);
      } else {
        assert FilteredConversations(convs, query) == FilteredConversations(convs[1..], query);
      }
    }
  }

  class PrivateMessaging {
    const messages: map<string, seq<PrivateMessage>>
    var selected: string
    var input: string
    var query: string

    constructor (messages: map<string, seq<PrivateMessage>>, chatId: Option<string>)
      ensures this.messages == messages && selected == InitialSelection(chatId)
      ensures input == "" && query == ""
    {
      this.messages := messages;
      selected, input, query := InitialSelection(chatId), "", "";
    }

    method Type(text: string)
      modifies this
      ensures input == text && selected == old(selected) && query == old(query)
    {
      input := text;
    }

    /** `handleSendMessage`: whitespace-only input is kept; any other input is only cleared. */
    method Send()
      modifies this
      ensures AllWhitespace(old(input)) ==> input == old(input)
      ensures !AllWhitespace(old(input)) ==> input == ""
      ensures selected == old(selected) && query == old(query)
    {
      BlankIffAllWhitespace(input);
      if !IsBlank(input) {
        input := "";
      }
    }

    /** The search box: sets the query, which narrows only the list. */
    method Search(text: string)
      modifies this
      ensures query == text && selected == old(selected) && input == old(input)
    {
      query := text;
    }

    /** A row click selects that conversation, whether or not the search still shows it. */
    method Select(id: string)
      modifies this
      ensures selected == id && input == old(input) && query == old(query)
    {
      selected := id;
    }

    /** The back button of the narrow layout: no conversation is selected any more. */
    method Deselect()
      modifies this
      ensures selected == "" && input == old(input) && query == old(query)
    {
      selected := "";
    }

    /** Enter without Shift sends. */
    method KeyPress(key: string, shiftKey: bool)
      modifies this
      ensures !IsSendKey(key, shiftKey) ==> input == old(input)
      ensures IsSendKey(key, shiftKey) && !AllWhitespace(old(input)) ==> input == ""
      ensures IsSendKey(key, shiftKey) && AllWhitespace(old(input)) ==> input == old(input)
      ensures selected == old(selected) && query == old(query)
    {
      if IsSendKey(key, shiftKey) {
        Send();
      }
    }
  }
}
