/** The channel messages of the SSH connection protocol (section 5 of RFC 4254) that the relay
    sends to an operator. */
module ChannelMessages {
  import opened Wrappers
  import opened Bits

  datatype Message =
    | OpenConfirmation(recipient: nat, sender: nat, window: nat, maxPacket: nat)
    | OpenFailure(recipient: nat, reason: nat)
    | Open(sender: nat)
    | WindowAdjust(recipient: nat, amount: nat)
    | Data(recipient: nat, data: bytes)
    | ExtendedData(recipient: nat, code: nat, data: bytes)
    | Eof(recipient: nat)
    | Close(recipient: nat)
    | Request(recipient: nat, name: string, wantReply: bool, payload: bytes)
    | Success(recipient: nat)
    | Failure(recipient: nat)

  // _adjust_local_window: received bytes are granted again at once.
  function Adjustment(recipient: Option<nat>, amount: nat): seq<Message> {
    if recipient.Some? && amount > 0 then [WindowAdjust(recipient.value, amount)] else []
  }

  // The messages that carry these chunks.
  function DataMessages(recipient: nat, code: Option<nat>, chunks: seq<bytes>): (messages: seq<Message>)
    ensures |messages| == |chunks|
  {
    if chunks == [] then []
    else
      [if code.Some? then ExtendedData(recipient, code.value, chunks[0]) else Data(recipient, chunks[0])]
      + DataMessages(recipient, code, chunks[1..])
  }

  lemma {:induction false} DataMessagesSnoc(recipient: nat, code: Option<nat>, chunks: seq<bytes>, chunk: bytes)
    ensures DataMessages(recipient, code, chunks + [chunk])
      == DataMessages(recipient, code, chunks) + DataMessages(recipient, code, [chunk])
  {
    if chunks == [] {
      assert chunks + [chunk] == [chunk] && [chunk][1..] == [];
    } else {
      DataMessagesSnoc(recipient, code, chunks[1..], chunk);
      assert (chunks + [chunk])[1..] == chunks[1..] + [chunk];
    }
  }

  // They are one message for every chunk, in order.
  lemma {:induction false} DataMessagesAt(recipient: nat, code: Option<nat>, chunks: seq<bytes>, i: nat)
    requires i < |chunks|
    ensures DataMessages(recipient, code, chunks)[i]
      == if code.Some? then ExtendedData(recipient, code.value, chunks[i]) else Data(recipient, chunks[i])
  {
    if |chunks| > 1 { DataMessagesAt(recipient, code, chunks[1..], if i == 0 then 0 else i - 1); }
  }

  // The window the relay grants for every channel, and its packet limit.
  const CHANNEL_WINDOW: nat := 0x7FFF_FFFF
  const CHANNEL_MAX_PACKET: nat := 32768
}
