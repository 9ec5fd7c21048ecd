/** What flow control keeps, for every schedule and every run. */
module FlowControl {
  import opened Bits
  import opened Framing
  import opened ChannelMessages
  import opened Windows

  lemma {:induction false} ApplyAllKeeps(w: Window, events: seq<Event>)
    requires w.Ok()
    ensures ApplyAll(w, events).Ok()
    ensures var v := ApplyAll(w, events);
      v.spent == w.spent && v.maxPacket == w.maxPacket && v.granted == w.granted + GrantedBy(events)
      && v.size >= Min(MAX_WINDOW, w.size + GrantedBy(events)) && (w.closed ==> v.closed)
    decreases events
  {
    if events != [] { ApplyAllKeeps(Apply(w, events[0]), events[1..]); }
  }

  lemma {:induction false} ReserveKeeps(w: Window, size: Positive, schedule: Schedule)
    requires w.Ok()
    ensures var s := ReserveIn(w, size, schedule);
      && s.w.Ok() && s.w.maxPacket == w.maxPacket
      && s.w.granted + GrantedIn(s.rest) == w.granted + GrantedIn(schedule)
      && match s.result
         case Reserved(chunk) =>
           1 <= chunk <= size && chunk <= w.maxPacket && s.w.spent == w.spent + chunk && !s.w.closed
           && (chunk == size || chunk == w.maxPacket || s.w.size == 0)
         case Closed => s.w.closed && s.w.spent == w.spent
         case TimedOut => s.w.size == 0 && !s.w.closed && s.w.spent == w.spent
    decreases |schedule|
  {
    var t := TakeTurn(w, schedule);
    if schedule != [] { ApplyAllKeeps(w, schedule[0].events); }
    if !t.w.closed && t.w.size == 0 && !t.expired { ReserveKeeps(t.w, size, t.rest); }
  }

  // Every chunk has 1 to maxPacket bytes, the chunks are the data or, when the channel closes
  // or the deadline passes, a prefix of it, and exactly the bytes sent are taken from the
  // window.  A deadline passes only when every granted byte has been used.
  lemma {:induction false} SendingMeans(w: Window, data: bytes, schedule: Schedule)
    requires w.Ok()
    ensures var t := Sending(w, data, schedule);
      && t.w.Ok() && t.w.maxPacket == w.maxPacket
      && t.w.granted + GrantedIn(t.rest) == w.granted + GrantedIn(schedule)
      && (forall i :: 0 <= i < |t.chunks| ==> 1 <= |t.chunks[i]| <= w.maxPacket)
      && Concat(t.chunks) <= data
      && (t.outcome.Done? <==> Concat(t.chunks) == data)
      && t.w.spent == w.spent + |Concat(t.chunks)|
      && (t.outcome == Raised(false) ==> t.w.closed)
      && (t.outcome == Raised(true) ==> t.w.size == 0 && t.w.spent + t.w.lost == t.w.granted)
    decreases |data|
  {
    if data != [] {
      ReserveKeeps(w, |data|, schedule);
      var s := ReserveIn(w, |data|, schedule);
      if s.result.Reserved? {
        var chunk := s.result.chunk;
        SendingMeans(s.w, data[chunk..], s.rest);
        var more := Sending(s.w, data[chunk..], s.rest);
        assert ([data[..chunk]] + more.chunks)[1..] == more.chunks;
        assert data == data[..chunk] + data[chunk..];
        assert data[..chunk] + Concat(more.chunks) == data ==> Concat(more.chunks) == (data[..chunk] + Concat(more.chunks))[chunk..];
      }
    }
  }

  // A round that lets the sender go on, whatever was left before.
  predicate Grants(r: Round) {
    !r.expired && GrantedBy(r.events) > 0 && forall i :: 0 <= i < |r.events| ==> r.events[i].Adjust?
  }

  predicate Calm(schedule: Schedule) {
    forall i :: 0 <= i < |schedule| ==> !schedule[i].expired && forall j :: 0 <= j < |schedule[i].events| ==> schedule[i].events[j].Adjust?
  }

  function GrantingRounds(schedule: Schedule): nat {
    if schedule == [] then 0 else (if Grants(schedule[0]) then 1 else 0) + GrantingRounds(schedule[1..])
  }

  lemma {:induction false} AdjustsDoNotClose(w: Window, events: seq<Event>)
    requires forall j :: 0 <= j < |events| ==> events[j].Adjust?
    ensures ApplyAll(w, events).closed == w.closed
    decreases events
  {
    if events != [] { AdjustsDoNotClose(Apply(w, events[0]), events[1..]); }
  }

  // One reservation uses up at most one granting round, and never fails while one is left.
  lemma {:induction false} ReserveProgress(w: Window, size: Positive, schedule: Schedule)
    requires w.Ok() && !w.closed && Calm(schedule) && GrantingRounds(schedule) > 0
    ensures var s := ReserveIn(w, size, schedule);
      s.result.Reserved? && Calm(s.rest) && GrantingRounds(s.rest) >= GrantingRounds(schedule) - 1
    decreases |schedule|
  {
    var r, t := schedule[0], TakeTurn(w, schedule);
    ApplyAllKeeps(w, r.events);
    AdjustsDoNotClose(w, r.events);
    assert Calm(schedule[1..]);
    if t.w.size == 0 { ReserveProgress(t.w, size, t.rest); }
  }

  // Progress: when nobody closes the channel and no deadline passes, one granting round for
  // every byte is enough to send everything, because every reservation takes at least one byte.
  lemma {:induction false} SendingCompletes(w: Window, data: bytes, schedule: Schedule)
    requires w.Ok() && !w.closed && Calm(schedule) && GrantingRounds(schedule) >= |data|
    ensures Sending(w, data, schedule).outcome == Done
    decreases |data|
  {
    if data != [] {
      ReserveKeeps(w, |data|, schedule);
      ReserveProgress(w, |data|, schedule);
      var s := ReserveIn(w, |data|, schedule);
      SendingCompletes(s.w, data[s.result.chunk..], s.rest);
    }
  }

  lemma {:induction false} AfterKeeps(w: Window, ops: seq<Operation>)
    requires w.Ok()
    ensures var r := After(w, ops);
      r.w.Ok() && r.w.maxPacket == w.maxPacket && r.w.spent == w.spent + |Concat(r.chunks)|
      && r.w.granted <= w.granted + Adjustments(ops)
      && forall i :: 0 <= i < |r.chunks| ==> 1 <= |r.chunks[i]| <= w.maxPacket
    decreases ops
  {
    if ops != [] {
      match ops[0] {
        case Notify(e) => AfterKeeps(Apply(w, e), ops[1..]);
        case Send(data, schedule) =>
          SendingMeans(w, data, schedule);
          var t := Sending(w, data, schedule);
          AfterKeeps(t.w, ops[1..]);
          ConcatAppend(t.chunks, After(t.w, ops[1..]).chunks);
      }
    }
  }

  // However sends, adjustments and closing interleave after the channel was opened, the bytes
  // sent never exceed the initial window plus all adjustments; what is missing is exactly the
  // window still open and what the maximum cut off.
  lemma RunWithinGrants(window: nat, maxPacket: nat, ops: seq<Operation>)
    requires window <= MAX_WINDOW
    ensures var r := After(Opened(window, maxPacket), ops);
      && |Concat(r.chunks)| + r.w.size + r.w.lost == r.w.granted
      && |Concat(r.chunks)| <= window + Adjustments(ops)
      && 0 <= r.w.size <= MAX_WINDOW
      && forall i :: 0 <= i < |r.chunks| ==> 1 <= |r.chunks[i]| <= Max(1024, Min(maxPacket, CHANNEL_MAX_PACKET))
  {
    AfterKeeps(Opened(window, maxPacket), ops);
  }
}
