/**
 * The direct-message page: the selected conversation, the search over the list, each row's
 * other participant and texts, and the mark-as-read request sent when a conversation with a
 * message is selected.
 */
module DirectMessages {

  import opened Options
  import opened Strings
  import opened Seqs
  import opened DbCustoms

  /** `words.join(" ")`. */
  function Join(words: seq<string>): string {
    if words == [] then ""
    else if |words| == 1 then words[0]
    else words[0] + " " + Join(words[1..])
  }

  /** Each joined word occurs in the joined string. */
  lemma {:induction false} JoinContainsEach(words: seq<string>, k: nat)
    requires k < |words|
    ensures Contains(Join(words), words[k])
  {
    if |words| == 1 {
      ContainsAt(Join(words), words[0], 0);
    } else if k == 0 {
      assert Join(words)[..|words[0]|] == words[0];
      ContainsAt(Join(words), words[0], 0);
    } else {
      JoinContainsEach(words[1..], k - 1);
      ContainsAfter(words[0] + " ", Join(words[1..]), words[k]);
    }
  }

  function Usernames(participants: seq<DMParticipant>): seq<string> {
    Map(participants, (p: DMParticipant) => p.githubUsername)
  }

  /** What the search looks at: the name when there is one, even an empty one, else the usernames. */
  function SearchKey(c: DMConversation): string {
    match c.name
    case Some(n) => n
    case None => Join(Usernames(c.participants))
  }

  predicate Matches(c: DMConversation, query: string) {
    ContainsIgnoreCase(SearchKey(c), query)
  }

  /** `filteredConversations`. */
  function FilteredConversations(dms: seq<DMConversation>, query: string): seq<DMConversation> {
    Filter(dms, (c: DMConversation) => Matches(c, query))
  }

  /**
   * The list keeps the conversations whose key contains the query, ignoring case, in their
   * order; an empty query keeps all of them.
   */
  lemma FilteredConversationsFacts(dms: seq<DMConversation>, query: string)
    ensures forall c :: c in FilteredConversations(dms, query) <==> c in dms && Matches(c, query)
    ensures IsSubsequence(FilteredConversations(dms, query), dms)
    ensures query == "" ==> FilteredConversations(dms, query) == dms
  {
    if query == "" {
      forall c | c in dms ensures Matches(c, query) {
        EmptyQueryMatches(SearchKey(c));
      }
      FilterAll(dms, (c: DMConversation) => Matches(c, query));
    }
  }

  /** A conversation without a name is found by any of its participants' usernames. */
  lemma NamelessFoundByUsername(dms: seq<DMConversation>, c: DMConversation, p: DMParticipant)
    requires c in dms && c.name.None? && p in c.participants
    ensures c in FilteredConversations(dms, p.githubUsername)
  {
    var k :| 0 <= k < |c.participants| && c.participants[k] == p;
    JoinContainsEach(Usernames(c.participants), k);
    ContainsLower(SearchKey(c), p.githubUsername);
  }

  /** A named conversation is found by its name only: the participants play no part. */
  lemma NamedIgnoresParticipants(c: DMConversation, ps: seq<DMParticipant>, query: string)
    requires c.name.Some?
    ensures Matches(c.(participants := ps), query) == Matches(c, query)
  {
  }

  /** `dms.find(conv => conv.id === id)`, as a position. */
  function FindConversation(dms: seq<DMConversation>, id: string): (r: Option<nat>)
    ensures r.Some? ==> r.value < |dms| && dms[r.value].id == id
    ensures r.Some? ==> forall j :: 0 <= j < r.value ==> dms[j].id != id
    ensures r.None? <==> forall j :: 0 <= j < |dms| ==> dms[j].id != id
  {
    if dms == [] then None
    else if dms[0].id == id then Some(0)
    else
      match FindConversation(dms[1..], id)
      case Some(k) =>
        assert forall j :: 1 <= j < k + 1 ==> dms[j] == dms[1..][j - 1];
        Some(k + 1)
      case None =>
        assert forall j :: 1 <= j < |dms| ==> dms[j] == dms[1..][j - 1];
        None
  }

  /** `currentConversation`: the first conversation with the selected id, if one is selected. */
  function CurrentConversation(dms: seq<DMConversation>, dmId: Option<string>): (r: Option<DMConversation>)
    ensures r.Some? ==> r.value in dms && Some(r.value.id) == dmId
    ensures r.None? <==> dmId.None? || forall c :: c in dms ==> c.id != dmId.value
  {
    match dmId
    case None => None
    case Some(id) =>
      match FindConversation(dms, id)
      case Some(k) => Some(dms[k])
      case None => None
  }

  /** The mark-as-read call: the conversation's read route, with the message read last. */
  datatype ReadRequest = ReadRequest(conversationId: string, lastReadMessageId: string)

  /**
   * The mark-as-read effect: a request only when a conversation is selected, there is a
   * session user, the conversation is in the list and it has a latest message.
   */
  function MarkReadRequest(dms: seq<DMConversation>, dmId: Option<string>, hasUser: bool): (r: Option<ReadRequest>)
    ensures r.Some? <==>
      && Truthy(dmId) && hasUser
      && CurrentConversation(dms, dmId).Some?
      && CurrentConversation(dms, dmId).value.latestMessage.Some?
    ensures r.Some? ==>
      var c := CurrentConversation(dms, dmId).value;
      r.value == ReadRequest(c.id, c.latestMessage.value.id)
  {
    if !Truthy(dmId) || !hasUser then None
    else
      match CurrentConversation(dms, dmId)
      case None => None
      case Some(c) =>
        match c.latestMessage
        case None => None
        case Some(m) => Some(ReadRequest(c.id, m.id))
  }

  /** A row's two texts: the time of the latest message, and its content. */
  datatype RowTexts = RowTexts(time: string, preview: string)

  /** The texts a conversation's own latest message gives; the time is its raw timestamp here. */
  function TextsOf(c: Option<DMConversation>): (r: RowTexts)
    ensures c.None? || c.value.latestMessage.None? ==> r == RowTexts(NoMessages, NoMessages)
  {
    if c.Some? && c.value.latestMessage.Some? then
      RowTexts(c.value.latestMessage.value.createdAt, c.value.latestMessage.value.content)
    else RowTexts(NoMessages, NoMessages)
  }

  /** The list as written: every row reads its texts from the selected conversation. */
  function RowTextsAsWritten(dms: seq<DMConversation>, dmId: Option<string>, row: DMConversation): RowTexts {
    TextsOf(CurrentConversation(dms, dmId))
  }

  /** As written, all rows show the same texts, whichever conversation each row is. */
  lemma RowTextsIgnoreRow(dms: seq<DMConversation>, dmId: Option<string>, a: DMConversation, b: DMConversation)
    ensures RowTextsAsWritten(dms, dmId, a) == RowTextsAsWritten(dms, dmId, b)
  {
  }

  /**
   * Two conversations with different last messages, the first one selected: the second row
   * shows the first one's message instead of its own.
   */
  lemma RowTextsCounterexample()
    ensures var m1 := DMLatestMessage("m1", "hello", None, "t1");
      var m2 := DMLatestMessage("m2", "bye", None, "t2");
      var c1 := DMConversation("c1", Dm, None, "u", "t0", "t1", [], Some(m1), 0);
      var c2 := DMConversation("c2", Dm, None, "u", "t0", "t2", [], Some(m2), 0);
      RowTextsAsWritten([c1, c2], Some("c1"), c2).preview == "hello"
      && OwnRowTexts(c2).preview == "bye"
  {
    var m1 := DMLatestMessage("m1", "hello", None, "t1");
    var c1 := DMConversation("c1", Dm, None, "u", "t0", "t1", [], Some(m1), 0);
    var c2 := DMConversation("c2", Dm, None, "u", "t0", "t2", [], Some(DMLatestMessage("m2", "bye", None, "t2")), 0);
    assert FindConversation([c1, c2], "c1") == Some(0);
  }

  /** The row texts as the row component of the same page computes them: from the row itself. */
  function OwnRowTexts(row: DMConversation): (r: RowTexts)
    ensures row.latestMessage.Some? ==>
      r.preview == row.latestMessage.value.content && r.time == row.latestMessage.value.createdAt
    ensures row.latestMessage.None? ==> r.preview == NoMessages
  {
    TextsOf(Some(row))
  }

  /** A row: its other participant, its title, its unread badge and its texts. */
  datatype Row = Row(other: Option<DMParticipant>, title: string, badge: Option<int>, texts: RowTexts)

  /** A row of `row` showing `texts`. */
  function RowWith(row: DMConversation, self: Option<string>, texts: RowTexts): (r: Row)
    ensures r.other == OtherParticipant(row.participants, self)
    ensures r.title == Title(r.other) && r.title != []
    ensures r.badge.Some? <==> row.unreadCount > 0
    ensures r.badge.Some? ==> r.badge.value == row.unreadCount
    ensures r.texts == texts
  {
    var other := OtherParticipant(row.participants, self);
    Row(other, Title(other), if row.unreadCount > 0 then Some(row.unreadCount) else None, texts)
  }

  /**
   * A row of the list as written: its own participant, title and badge, but the texts of the
   * selected conversation.
   */
  function RowOf(dms: seq<DMConversation>, dmId: Option<string>, row: DMConversation, self: Option<string>): (r: Row)
    ensures r.other == OtherParticipant(row.participants, self)
    ensures r.title != [] && (r.badge.Some? <==> row.unreadCount > 0)
    ensures r.texts == RowTextsAsWritten(dms, dmId, row)
    ensures CurrentConversation(dms, dmId).Some? && CurrentConversation(dms, dmId).value.latestMessage.Some? ==>
      r.texts.preview == CurrentConversation(dms, dmId).value.latestMessage.value.content
  {
    RowWith(row, self, RowTextsAsWritten(dms, dmId, row))
  }

  /** The corrected row: the same, with the row's own texts. */
  function CorrectedRowOf(row: DMConversation, self: Option<string>): (r: Row)
    ensures r.other == OtherParticipant(row.participants, self)
    ensures r.title != [] && (r.badge.Some? <==> row.unreadCount > 0)
    ensures row.latestMessage.Some? ==> r.texts.preview == row.latestMessage.value.content
    ensures row.latestMessage.None? ==> r.texts.preview == NoMessages
  {
    RowWith(row, self, OwnRowTexts(row))
  }
}
