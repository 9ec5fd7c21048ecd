/** Sending on a channel under the window of its peer (section 5.2 of RFC 4254): the window
    methods of SSHChannelBase and the send loops of SSHConnection in relay.py.

    While the sender does not hold the lock of the channel, other threads may adjust the
    window or close the channel.  A schedule lists what they do: one round for every time the
    sender takes the lock, with a flag that says whether the deadline has passed by then.
    When the schedule ends, the deadline passes. */
module Windows {
  import opened Bits
  import opened Framing
  import opened ChannelMessages

  const MAX_WINDOW: nat := 0xFFFF_FFFF

  function Min(a: nat, b: nat): nat { if a <= b then a else b }

  function Max(a: nat, b: nat): nat { if a >= b then a else b }

  type Positive = n: nat | n > 0 witness 1

  // The send side of a channel, with a ledger: bytes ever granted by the peer, bytes reserved
  // for sending, and bytes of grants that were cut off by the maximum.
  datatype Window = Window(size: nat, maxPacket: Positive, closed: bool, granted: nat, spent: nat, lost: nat) {
    // Every granted byte is spent, still available, or was cut off.
    predicate Ok() {
      size <= MAX_WINDOW && 1024 <= maxPacket <= CHANNEL_MAX_PACKET && spent + size + lost == granted
    }
  }

  datatype Event = Adjust(amount: nat) | Shut

  datatype Round = Round(events: seq<Event>, expired: bool)

  type Schedule = seq<Round>

  function Opened(window: nat, maxPacket: nat): Window {
    Window(window, Max(1024, Min(maxPacket, CHANNEL_MAX_PACKET)), false, window, 0, 0)
  }

  function Added(w: Window, amount: nat): Window {
    var size := Min(MAX_WINDOW, w.size + amount);
    w.(size := size, granted := w.granted + amount, lost := w.lost + (w.size + amount - size))
  }

  function Apply(w: Window, e: Event): Window {
    match e
    case Adjust(amount) => Added(w, amount)
    case Shut => w.(closed := true)
  }

  function ApplyAll(w: Window, events: seq<Event>): Window
    decreases events
  {
    if events == [] then w else ApplyAll(Apply(w, events[0]), events[1..])
  }

  // ------------------------------------------------------------ reserving

  datatype Reserve = Reserved(chunk: nat) | Closed | TimedOut

  datatype Step = Step(result: Reserve, w: Window, rest: Schedule)

  // What happens before the sender holds the lock again.
  datatype Turn = Turn(w: Window, expired: bool, rest: Schedule)

  function TakeTurn(w: Window, schedule: Schedule): (t: Turn)
    ensures !t.expired ==> |t.rest| < |schedule|
    ensures |t.rest| <= |schedule|
  {
    if schedule == [] then Turn(w, true, [])
    else Turn(ApplyAll(w, schedule[0].events), schedule[0].expired, schedule[1..])
  }

  // The wait is over: the channel is closed, something is left, or the deadline has passed.
  predicate Settled(t: Turn) {
    t.w.closed || t.w.size > 0 || t.expired
  }

  // Give up when the channel is closed or nothing is left at the deadline, and otherwise take
  // as much as size, window and packet limit allow.
  function Settle(t: Turn, size: Positive): (s: Step)
    ensures s.rest == t.rest && (s.result.Reserved? ==> 1 <= s.result.chunk <= size)
  {
    if t.w.closed then Step(Closed, t.w, t.rest)
    else if t.w.size > 0 then
      var chunk := Min(Min(size, t.w.size), t.w.maxPacket);
      Step(Reserved(chunk), t.w.(size := t.w.size - chunk, spent := t.w.spent + chunk), t.rest)
    else Step(TimedOut, t.w, t.rest)
  }

  // reserve_window: wait until the matter is settled.
  function ReserveIn(w: Window, size: Positive, schedule: Schedule): (s: Step)
    ensures |s.rest| <= |schedule|
    ensures s.result.Reserved? ==> 1 <= s.result.chunk <= size
    decreases |schedule|
  {
    var t := TakeTurn(w, schedule);
    if Settled(t) then Settle(t, size) else ReserveIn(t.w, size, t.rest)
  }

  function AfterTurn(t: Turn, size: Positive): Step {
    if Settled(t) then Settle(t, size) else ReserveIn(t.w, size, t.rest)
  }

  // The bytes granted by adjustments.
  function GrantedBy(events: seq<Event>): nat {
    if events == [] then 0
    else (if events[0].Adjust? then events[0].amount else 0) + GrantedBy(events[1..])
  }

  function GrantedIn(schedule: Schedule): nat {
    if schedule == [] then 0 else GrantedBy(schedule[0].events) + GrantedIn(schedule[1..])
  }

  // -------------------------------------------------------------- sending

  datatype Outcome = Done | Raised(timeout: bool)

  datatype Transfer = Transfer(chunks: seq<bytes>, w: Window, rest: Schedule, outcome: Outcome)

  // The chunks one call of send_channel_data sends.
  function Sending(w: Window, data: bytes, schedule: Schedule): Transfer
    decreases |data|
  {
    if data == [] then Transfer([], w, schedule, Done)
    else
      var s := ReserveIn(w, |data|, schedule);
      match s.result
      case Closed => Transfer([], s.w, s.rest, Raised(false))
      case TimedOut => Transfer([], s.w, s.rest, Raised(true))
      case Reserved(chunk) =>
        var more := Sending(s.w, data[chunk..], s.rest);
        more.(chunks := [data[..chunk]] + more.chunks)
  }

  // ------------------------------------------------------------ whole runs

  datatype Operation = Send(data: bytes, schedule: Schedule) | Notify(e: Event)

  // All chunks sent by a sequence of operations.
  datatype Run = Run(chunks: seq<bytes>, w: Window)

  function After(w: Window, ops: seq<Operation>): Run
    decreases ops
  {
    if ops == [] then Run([], w)
    else
      match ops[0]
      case Notify(e) => After(Apply(w, e), ops[1..])
      case Send(data, schedule) =>
        var t := Sending(w, data, schedule);
        var more := After(t.w, ops[1..]);
        more.(chunks := t.chunks + more.chunks)
  }

  // All adjustments that arrive during a run.
  function Adjustments(ops: seq<Operation>): nat {
    if ops == [] then 0
    else (match ops[0]
          case Notify(e) => GrantedBy([e])
          case Send(_, schedule) => GrantedIn(schedule)) + Adjustments(ops[1..])
  }
}
