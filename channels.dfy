/**
 * Push-channel names. The server publishes on, and the clients subscribe to,
 * `conversation-${id}`; distinct conversations get distinct channels.
 */
module Channels {

  import opened Strings
  import Schema

  const Prefix: string := "conversation-"

  function ConversationChannel(id: Schema.Id): (name: string)
    ensures IsPrefix(Prefix, name) && name[|Prefix|..] == NatToString(id)
  {
    Prefix + NatToString(id)
  }

  /** No two conversations share a channel, so an event reaches only its own conversation's listeners. */
  lemma ChannelInjective(a: Schema.Id, b: Schema.Id)
    requires ConversationChannel(a) == ConversationChannel(b)
    ensures a == b
  {
    assert NatToString(a) == ConversationChannel(a)[|Prefix|..];
    NatToStringRoundTrip(a);
    NatToStringRoundTrip(b);
  }

  /** The name a client builds from a conversation id it holds as a string. */
  function ClientChannel(id: string): (name: string)
    ensures IsPrefix(Prefix, name) && name[|Prefix|..] == id
  {
    Prefix + id
  }

  /** A client holding the decimal id subscribes to the very channel the server publishes on. */
  lemma ClientMeetsServer(id: Schema.Id)
    ensures ClientChannel(NatToString(id)) == ConversationChannel(id)
  {
  }

  /** Distinct client ids give distinct channel names. */
  lemma ClientChannelInjective(a: string, b: string)
    requires ClientChannel(a) == ClientChannel(b)
    ensures a == b
  {
    assert a == ClientChannel(a)[|Prefix|..];
  }
}
