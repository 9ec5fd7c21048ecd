/** The send side of SSHChannelBase and the send loops of SSHConnection in relay.py. */
module SshChannels {
  import opened Wrappers
  import opened Bits
  import opened Framing
  import opened ChannelMessages
  import opened Windows

  class SshChannel {
    const localId: nat
    var recipient: Option<nat>
    var remoteWindow: nat
    var remoteMaxPacket: Positive
    var closed: bool

    ghost var granted: nat
    ghost var spent: nat
    ghost var lost: nat

    ghost function State(): Window
      reads this
    {
      Window(remoteWindow, remoteMaxPacket, closed, granted, spent, lost)
    }

    constructor (localId: nat)
      ensures this.localId == localId && recipient == None && !closed
      ensures State() == Window(0, CHANNEL_MAX_PACKET, false, 0, 0, 0)
    {
      this.localId := localId;
      recipient, remoteWindow, remoteMaxPacket, closed := None, 0, CHANNEL_MAX_PACKET, false;
      granted, spent, lost := 0, 0, 0;
    }

    method SetRecipient(newRecipient: nat, window: nat, maxPacket: nat)
      modifies this
      ensures recipient == Some(newRecipient)
      ensures State() == Opened(window, maxPacket).(closed := old(closed))
      ensures remoteWindow == window
      ensures remoteMaxPacket == if maxPacket < 1024 then 1024 else if maxPacket <= 32768 then maxPacket else 32768
    {
      recipient := Some(newRecipient);
      remoteWindow := window;
      remoteMaxPacket := Max(1024, Min(maxPacket, CHANNEL_MAX_PACKET));
      granted, spent, lost := window, 0, 0;
    }

    method AddWindow(amount: nat)
      modifies this
      ensures State() == Added(old(State()), amount) && recipient == old(recipient)
      ensures remoteWindow == if old(remoteWindow) + amount < 0x1_0000_0000 then old(remoteWindow) + amount else 0xFFFF_FFFF
    {
      granted := granted + amount;
      lost := lost + (remoteWindow + amount - Min(MAX_WINDOW, remoteWindow + amount));
      remoteWindow := Min(MAX_WINDOW, remoteWindow + amount);
    }

    method MarkClosed()
      modifies this
      ensures State() == old(State()).(closed := true) && recipient == old(recipient)
    {
      closed := true;
    }

    // What other threads do until the lock is taken again.
    method WaitForLock(schedule: Schedule) returns (expired: bool, rest: Schedule)
      modifies this
      ensures Turn(State(), expired, rest) == TakeTurn(old(State()), schedule) && recipient == old(recipient)
    {
      if schedule == [] {
        return true, [];
      }
      var events := schedule[0].events;
      while events != []
        invariant ApplyAll(State(), events) == ApplyAll(old(State()), schedule[0].events) && recipient == old(recipient)
        decreases events
      {
        match events[0] {
          case Adjust(amount) => AddWindow(amount);
          case Shut => MarkClosed();
        }
        events := events[1..];
      }
      return schedule[0].expired, schedule[1..];
    }

    method ReserveWindow(size: Positive, schedule: Schedule) returns (result: Reserve, rest: Schedule)
      modifies this
      ensures Step(result, State(), rest) == ReserveIn(old(State()), size, schedule) && recipient == old(recipient)
    {
      var expired;
      expired, rest := WaitForLock(schedule);
      while remoteWindow == 0 && !closed
        invariant ReserveIn(old(State()), size, schedule) == AfterTurn(Turn(State(), expired, rest), size)
        invariant recipient == old(recipient)
        decreases if expired then |rest| else |rest| + 1
      {
        if expired {
          return TimedOut, rest;
        }
        expired, rest := WaitForLock(rest);
      }
      if closed {
        return Closed, rest;
      }
      var chunk := Min(Min(size, remoteWindow), remoteMaxPacket);
      remoteWindow := remoteWindow - chunk;
      spent := spent + chunk;
      return Reserved(chunk), rest;
    }
  }

  // The transfer `all` after these chunks, when `more` is still to come.
  ghost predicate Continues(all: Transfer, chunks: seq<bytes>, more: Transfer) {
    all == more.(chunks := chunks + more.chunks)
  }

  lemma ContinuesWith(all: Transfer, chunks: seq<bytes>, w: Window, data: bytes, schedule: Schedule)
    requires data != [] && Continues(all, chunks, Sending(w, data, schedule))
    ensures var s := ReserveIn(w, |data|, schedule);
      match s.result
      case Reserved(n) => Continues(all, chunks + [data[..n]], Sending(s.w, data[n..], s.rest))
      case Closed => all == Transfer(chunks, s.w, s.rest, Raised(false))
      case TimedOut => all == Transfer(chunks, s.w, s.rest, Raised(true))
  {
    var s := ReserveIn(w, |data|, schedule);
    match s.result {
      case Reserved(n) =>
        var more := Sending(s.w, data[n..], s.rest);
        assert chunks + ([data[..n]] + more.chunks) == (chunks + [data[..n]]) + more.chunks;
      case _ =>
        assert chunks + [] == chunks;
    }
  }

  lemma Slice(data: bytes, pos: nat, n: nat)
    requires pos + n <= |data|
    ensures data[pos..][..n] == data[pos..pos + n] && data[pos..][n..] == data[pos + n..]
  {}

  // One turn of the send loops, with what the ghosts say of the messages sent so far.
  method SendTurn(channel: SshChannel, to: nat, code: Option<nat>, data: bytes, pos: nat, schedule: Schedule, messages: seq<Message>,
                  ghost all: Transfer, ghost chunks: seq<bytes>)
    returns (result: Reserve, more: seq<Message>, rest: Schedule, ghost newChunks: seq<bytes>)
    requires pos < |data| && messages == DataMessages(to, code, chunks)
    requires Continues(all, chunks, Sending(channel.State(), data[pos..], schedule))
    modifies channel
    ensures channel.recipient == old(channel.recipient) && messages + more == DataMessages(to, code, newChunks)
    ensures match result
      case Reserved(n) => 1 <= n <= |data| - pos && Continues(all, newChunks, Sending(channel.State(), data[pos + n..], rest))
      case _ => all == Transfer(newChunks, channel.State(), rest, Raised(result.TimedOut?))
  {
    ContinuesWith(all, chunks, channel.State(), data[pos..], schedule);
    result, rest := channel.ReserveWindow(|data| - pos, schedule);
    if !result.Reserved? {
      assert messages + [] == messages;
      return result, [], rest, chunks;
    }
    var chunk := data[pos..pos + result.chunk];
    Slice(data, pos, result.chunk);
    DataMessagesSnoc(to, code, chunks, chunk);
    ghost var one := [chunk];
    assert one[1..] == [];
    more := [if code.Some? then ExtendedData(to, code.value, chunk) else Data(to, chunk)];
    newChunks := chunks + one;
  }

  // The loop of send_channel_data and send_channel_extended_data.
  method SendLoop(channel: SshChannel, to: nat, code: Option<nat>, data: bytes, schedule: Schedule)
    returns (messages: seq<Message>, outcome: Outcome, rest: Schedule, ghost chunks: seq<bytes>)
    modifies channel
    ensures channel.recipient == old(channel.recipient) && messages == DataMessages(to, code, chunks)
    ensures Sending(old(channel.State()), data, schedule) == Transfer(chunks, channel.State(), rest, outcome)
  {
    messages, outcome, rest, chunks := [], Done, schedule, [];
    ghost var all := Sending(channel.State(), data, schedule);
    assert data[0..] == data && [] + all.chunks == all.chunks;
    ghost var w, left := channel.State(), data;
    var pos := 0;
    while pos < |data| && outcome.Done?
      invariant pos <= |data| && channel.recipient == old(channel.recipient)
      invariant messages == DataMessages(to, code, chunks)
      invariant w == channel.State() && left == data[pos..]
      invariant if outcome.Done? then Continues(all, chunks, Sending(w, left, rest)) else all == Transfer(chunks, w, rest, outcome)
      decreases |data| - pos, outcome.Done?
    {
      var result, more;
      result, more, rest, chunks := SendTurn(channel, to, code, data, pos, rest, messages, all, chunks);
      messages := messages + more;
      if result.Reserved? {
        pos := pos + result.chunk;
      } else {
        outcome := Raised(result.TimedOut?);
      }
      w, left := channel.State(), data[pos..];
    }
    if outcome.Done? { NothingLeft(all, chunks, w, left, rest); }
  }

  lemma NothingLeft(all: Transfer, chunks: seq<bytes>, w: Window, data: bytes, rest: Schedule)
    requires data == [] && Continues(all, chunks, Sending(w, data, rest))
    ensures all == Transfer(chunks, w, rest, Done)
  {
    assert chunks + [] == chunks;
  }

  // Nothing is sent before the channel has a recipient.
  method SendOnChannel(channel: SshChannel, code: Option<nat>, data: bytes, schedule: Schedule)
    returns (messages: seq<Message>, outcome: Outcome, rest: Schedule)
    modifies channel
    ensures channel.recipient == old(channel.recipient)
    ensures channel.recipient.None? ==> messages == [] && outcome == Done && channel.State() == old(channel.State())
    ensures channel.recipient.Some? ==>
      var t := Sending(old(channel.State()), data, schedule);
      messages == DataMessages(channel.recipient.value, code, t.chunks) && outcome == t.outcome
      && channel.State() == t.w && rest == t.rest
  {
    messages, outcome, rest := [], Done, schedule;
    if channel.recipient.Some? {
      ghost var chunks;
      messages, outcome, rest, chunks := SendLoop(channel, channel.recipient.value, code, data, schedule);
    }
  }
}
