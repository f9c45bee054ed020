/**
 * The mention list under the room composer. Choosing a user rewrites the message with
 * `replace(/@[\w]*$/, "@" + username + " ")` and hides the list.
 */
module MentionDisplay {

  import opened Options

  /** `\w`: an ASCII letter, digit or underscore. */
  predicate IsWordChar(c: char) {
    ('a' <= c <= 'z') || ('A' <= c <= 'Z') || ('0' <= c <= '9') || c == '_'
  }

  /** The pattern `@[\w]*$` matches at `i`: an "@" there, and only word characters after it. */
  predicate MatchesAt(s: string, i: nat) {
    i < |s| && s[i] == '@' && forall k :: i < k < |s| ==> IsWordChar(s[k])
  }

  /** The length of the longest run of word characters that ends the string. */
  function TrailingWord(s: string): (n: nat)
    ensures n <= |s| && forall k :: |s| - n <= k < |s| ==> IsWordChar(s[k])
    ensures n < |s| ==> !IsWordChar(s[|s| - n - 1])
  {
    if s == [] || !IsWordChar(s[|s| - 1]) then 0
    else TrailingWord(s[..|s| - 1]) + 1
  }

  /** Where the pattern matches: the "@" just before the trailing word characters, if any. */
  function MentionStart(s: string): Option<nat> {
    var k := |s| - TrailingWord(s);
    if k > 0 && s[k - 1] == '@' then Some(k - 1) else None
  }

  /**
   * The pattern matches at one position at most, and `MentionStart` finds it: the search the
   * regular expression makes, from the left, has no other place to stop.
   */
  lemma MentionStartIsTheMatch(s: string, i: nat)
    ensures MatchesAt(s, i) <==> MentionStart(s) == Some(i)
  {
    var n := TrailingWord(s);
    var k := |s| - n;
    if MatchesAt(s, i) {
      if i + 1 < k {
        assert false;
      }
      if i + 1 > k {
        assert false;
      }
    }
  }

  /** After a match every later character is a word character, so the matched "@" is the last one. */
  lemma MatchIsLastAt(s: string, i: nat)
    requires MatchesAt(s, i)
    ensures forall j :: i < j < |s| ==> s[j] != '@'
  {
    forall j | i < j < |s| ensures s[j] != '@' {
      assert IsWordChar(s[j]);
    }
  }

  /** The rewritten message. */
  function Complete(message: string, username: string): (r: string)
    ensures MentionStart(message).None? ==> r == message
    ensures MentionStart(message).Some? ==>
      var i := MentionStart(message).value;
      && r == message[..i] + "@" + username + " "
      && |r| >= |username| + 2 && r[|r| - |username| - 2..] == "@" + username + " "
  {
    match MentionStart(message)
    case Some(i) => message[..i] + "@" + username + " "
    case None => message
  }

  /**
   * The rewrite in the terms of the pattern: where it matches, the text before the "@"
   * survives, the result ends with the completion, and no "@" followed the replaced one;
   * where it matches nowhere (no "@", or a non-word character after the last one), the
   * message is unchanged.
   */
  lemma CompleteFacts(message: string, username: string)
    ensures forall i: nat :: MatchesAt(message, i) ==>
      && Complete(message, username)[..i] == message[..i]
      && (forall j :: i < j < |message| ==> message[j] != '@')
    ensures (forall i: nat :: !MatchesAt(message, i)) ==> Complete(message, username) == message
  {
    forall i: nat | MatchesAt(message, i)
      ensures Complete(message, username)[..i] == message[..i]
      ensures forall j :: i < j < |message| ==> message[j] != '@'
    {
      MentionStartIsTheMatch(message, i);
      MatchIsLastAt(message, i);
    }
    if MentionStart(message).Some? {
      MentionStartIsTheMatch(message, MentionStart(message).value);
    }
  }

  /** `onSelect`: the new message text, and the list's visibility, which is always off. */
  function OnSelect(message: string, username: string): (r: (string, bool))
    ensures !r.1
    ensures r.0 == Complete(message, username)
  {
    (Complete(message, username), false)
  }
}
