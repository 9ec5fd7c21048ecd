/** The SFTP server of sftp.py: packets cut from an incremental buffer, dispatch, handles and
    directory paging (draft-ietf-secsh-filexfer-02).

    What the file system does is an oracle: the result for the n-th request.  Texts of error
    messages, attributes and long names are left out of the replies. */
module Sftp {
  import opened Wrappers
  import opened NumberTheory
  import opened Bits
  import opened SshEncoding
  import opened Framing

  const INIT: nat := 1
  const OPEN: nat := 3
  const CLOSE: nat := 4
  const READ: nat := 5
  const WRITE: nat := 6
  const LSTAT: nat := 7
  const FSTAT: nat := 8
  const OPENDIR: nat := 11
  const READDIR: nat := 12
  const REMOVE: nat := 13
  const MKDIR: nat := 14
  const RMDIR: nat := 15
  const REALPATH: nat := 16
  const STAT: nat := 17
  const RENAME: nat := 18

  const FX_OK: nat := 0
  const FX_EOF: nat := 1
  const FX_NO_SUCH_FILE: nat := 2
  const FX_PERMISSION_DENIED: nat := 3
  const FX_FAILURE: nat := 4
  const FX_OP_UNSUPPORTED: nat := 8

  const BATCH: nat := 64

  // ---------------------------------------------------------------- packets

  // The first complete packet of the buffer, without its length field.
  function FirstSftp(s: bytes): (r: Option<Cut<bytes>>)
    ensures r.Some? ==> |r.value.rest| < |s|
  {
    match ParseUint32(s)
    case None => None
    case Some(n) =>
      match ParseTake(n.rest, n.value)
      case None => None
      case Some(body) => Some(Cut(body.value, body.rest))
  }

  lemma FirstSftpRegular()
    ensures Shrinks(FirstSftp) && Stable(FirstSftp)
  {
    forall w: bytes, more: bytes | FirstSftp(w).Some?
      ensures FirstSftp(w + more) == Some(Cut(FirstSftp(w).value.item, FirstSftp(w).value.rest + more))
    {
      FirstSftpStable(w, more);
    }
  }

  lemma FirstSftpStable(w: bytes, more: bytes)
    requires FirstSftp(w).Some?
    ensures FirstSftp(w + more) == Some(Cut(FirstSftp(w).value.item, FirstSftp(w).value.rest + more))
  {
    var n := BE(w[..4]);
    assert (w + more)[..4] == w[..4] && (w + more)[4..] == w[4..] + more;
    assert (w[4..] + more)[..n] == w[4..][..n] && (w[4..] + more)[n..] == w[4..][n..] + more;
  }

  // ------------------------------------------------------------------ state

  // What a handle stands for: an open file, or a directory listing with its position.
  datatype Object = File | Directory(entries: seq<bytes>, offset: nat)

  datatype Reply =
    | Version(version: nat)
    | Status(id: nat, code: nat)
    | HandleIs(id: nat, handle: bytes)
    | DataIs(id: nat, data: bytes)
    | Names(id: nat, count: nat, names: seq<bytes>)
    | Attributes(id: nat)

  datatype Failure = NotFound | NotPermitted | OtherOsError | Unexpected

  // What the file system gives for a request: an error, or the data read, the names in a
  // directory and whether it is the root, which names of a batch still exist, and which of these
  // can be described: the name is valid UTF-8 and its times fit 32 bits.
  datatype FileResult = FileResult(failure: Option<Failure>, data: bytes, names: seq<bytes>, root: bool,
                                   present: bytes -> bool, describable: bytes -> bool)

  datatype Environment = Environment(utf8: Utf8, results: nat -> FileResult)

  datatype Server = Server(nextHandle: nat, handles: map<bytes, Object>, replies: seq<Reply>)

  // Decimal digits.
  function Decimal(n: nat): (s: bytes)
    ensures |s| >= 1 && forall i :: 0 <= i < |s| ==> 48 <= s[i] <= 57
  {
    if n < 10 then [48 + n] else Decimal(n / 10) + [48 + n % 10]
  }

  lemma {:induction false} DecimalInjective(m: nat, n: nat)
    requires Decimal(m) == Decimal(n)
    ensures m == n
  {
    var a, b := Decimal(m), Decimal(n);
    assert a[|a| - 1] == 48 + m % 10 && b[|b| - 1] == 48 + n % 10;
    if m >= 10 && n >= 10 {
      assert a[..|a| - 1] == Decimal(m / 10) && b[..|b| - 1] == Decimal(n / 10);
      DecimalInjective(m / 10, n / 10);
    }
  }

  // f"h{n}"
  function HandleName(n: nat): bytes {
    [104] + Decimal(n)
  }

  lemma HandleNamesDiffer(m: nat, n: nat)
    ensures HandleName(m) == HandleName(n) <==> m == n
  {
    if HandleName(m) == HandleName(n) {
      assert HandleName(m)[1..] == Decimal(m) && HandleName(n)[1..] == Decimal(n);
      DecimalInjective(m, n);
    }
  }

  // --------------------------------------------------------------- requests

  function Code(f: Failure): nat {
    match f
    case NotFound => FX_NO_SUCH_FILE
    case NotPermitted => FX_PERMISSION_DENIED
    case OtherOsError => FX_FAILURE
    case Unexpected => FX_FAILURE
  }

  // The reply unless the file system fails.
  function Unless(r: FileResult, id: nat, reply: Reply): Reply {
    if r.failure.Some? then Status(id, Code(r.failure.value)) else reply
  }

  // The parsed fields of a request, when it has the right form.
  datatype Request =
    | OnPath(kind: nat)
    | OnTwoPaths
    | OnHandle(kind: nat, handle: bytes)
    | Malformed
    | Unknown

  const PATH_REQUESTS: set<nat> := {REALPATH, STAT, LSTAT, OPENDIR, REMOVE, MKDIR, RMDIR, OPEN, RENAME}
  const HANDLE_REQUESTS: set<nat> := {FSTAT, READDIR, CLOSE, READ, WRITE}

  function PathRequest(utf8: Utf8, kind: nat, body: bytes): Request {
    match ParseText(utf8, body)
    case None => Malformed
    case Some(path) =>
      if kind == OPEN then if ParseUint32(path.rest).Some? then OnPath(kind) else Malformed
      else if kind == RENAME then if ParseText(utf8, path.rest).Some? then OnTwoPaths else Malformed
      else OnPath(kind)
  }

  // The fields behind the handle: an offset, and then a size or data.
  predicate PositionFits(kind: nat, rest: bytes) {
    if kind == READ || kind == WRITE then
      match ParseUint64(rest)
      case None => false
      case Some(offset) => if kind == READ then ParseUint32(offset.rest).Some? else ParseString(offset.rest).Some?
    else true
  }

  function HandleRequest(kind: nat, body: bytes): Request {
    match ParseString(body)
    case None => Malformed
    case Some(handle) => if PositionFits(kind, handle.rest) then OnHandle(kind, handle.value) else Malformed
  }

  function RequestOf(env: Environment, kind: nat, body: bytes): Request {
    if kind in PATH_REQUESTS then PathRequest(env.utf8, kind, body)
    else if kind in HANDLE_REQUESTS then HandleRequest(kind, body)
    else Unknown
  }

  function Said(s: Server, reply: Reply): Server {
    s.(replies := s.replies + [reply])
  }

  // _new_handle, and the reply that tells it.
  function WithHandle(s: Server, id: nat, o: Object): Server {
    var handle := HandleName(s.nextHandle);
    Said(s.(nextHandle := s.nextHandle + 1, handles := s.handles[handle := o]), HandleIs(id, handle))
  }

  function Kept(names: seq<bytes>, present: bytes -> bool): seq<bytes> {
    if names == [] then [] else (if present(names[0]) then [names[0]] else []) + Kept(names[1..], present)
  }

  // One name that exists but cannot be described makes the program raise.
  predicate Described(batch: seq<bytes>, r: FileResult) {
    forall name :: name in batch && r.present(name) ==> r.describable(name)
  }

  function BatchReply(id: nat, batch: seq<bytes>, r: FileResult): Reply {
    if batch == [] then Status(id, FX_EOF)
    else if Described(batch, r) then Names(id, |batch|, Kept(batch, r.present))
    else Status(id, FX_FAILURE)
  }

  lemma KeptNext(batch: seq<bytes>, i: nat, kept: seq<bytes>, present: bytes -> bool)
    requires i < |batch|
    ensures kept + Kept(batch[i..], present) == (kept + if present(batch[i]) then [batch[i]] else []) + Kept(batch[i + 1..], present)
  {
    var rest := batch[i..];
    assert rest[0] == batch[i] && rest[1..] == batch[i + 1..];
  }

  function NextBatch(o: Object): (batch: seq<bytes>)
    requires o.Directory? && o.offset <= |o.entries|
    ensures |batch| <= BATCH && (batch == [] <==> o.offset == |o.entries|)
  {
    if o.offset + BATCH <= |o.entries| then o.entries[o.offset..o.offset + BATCH] else o.entries[o.offset..]
  }

  // _readdir on an existing handle.  The position moves before the batch is described.
  function ReadDirectory(s: Server, id: nat, handle: bytes, r: FileResult): Server
    requires handle in s.handles && WellPlaced(s.handles[handle])
  {
    var o := s.handles[handle];
    if o.File? then Said(s, Status(id, FX_FAILURE))
    else
      var batch := NextBatch(o);
      var t := s.(handles := s.handles[handle := Directory(o.entries, o.offset + |batch|)]);
      Said(t, BatchReply(id, batch, r))
  }

  predicate WellPlaced(o: Object) {
    o.Directory? ==> o.offset <= |o.entries|
  }

  function OnHandleRequest(s: Server, kind: nat, id: nat, handle: bytes, r: FileResult): Server {
    if kind == CLOSE then
      Said(s.(handles := s.handles - {handle}),
           if handle in s.handles && s.handles[handle].File? then Unless(r, id, Status(id, FX_OK)) else Status(id, FX_OK))
    else if handle !in s.handles then Said(s, Status(id, FX_FAILURE))
    else if kind == READDIR then
      if WellPlaced(s.handles[handle]) then ReadDirectory(s, id, handle, r) else s
    else if s.handles[handle].Directory? then Said(s, Status(id, FX_FAILURE))
    else if kind == FSTAT then Said(s, Unless(r, id, Attributes(id)))
    else if kind == READ then Said(s, Unless(r, id, if r.data == [] then Status(id, FX_EOF) else DataIs(id, r.data)))
    else Said(s, Unless(r, id, Status(id, FX_OK)))
  }

  const DOT: bytes := [46]
  const DOTDOT: bytes := [46, 46]

  // What OPENDIR finds in a directory.
  function Entries(r: FileResult): seq<bytes> {
    [DOT] + (if r.root then [] else [DOTDOT]) + r.names
  }

  function OnPathRequest(s: Server, kind: nat, id: nat, r: FileResult): Server {
    if kind == OPENDIR then
      if r.failure.Some? then Said(s, Status(id, Code(r.failure.value)))
      else WithHandle(s, id, Directory(Entries(r), 0))
    else if kind == OPEN then
      if r.failure.Some? then Said(s, Status(id, Code(r.failure.value))) else WithHandle(s, id, File)
    else Said(s, Unless(r, id,
      if kind == REALPATH then Names(id, 1, [r.data])
      else if kind == STAT || kind == LSTAT then Attributes(id)
      else Status(id, FX_OK)))
  }

  // Too short for a type and a number: the program raises.
  predicate Raises(packet: bytes) {
    |packet| < 5
  }

  function RequestId(packet: bytes): nat
    requires !Raises(packet)
  {
    BE(packet[1..5])
  }

  // _handle_packet
  function Handled(env: Environment, s: Server, packet: bytes): Server
    requires !Raises(packet)
  {
    var kind, id, r := packet[0], RequestId(packet), env.results(|s.replies|);
    if kind == INIT then Said(s, Version(if id < 3 then id else 3))
    else
      match RequestOf(env, kind, packet[5..])
      case OnPath(_) => OnPathRequest(s, kind, id, r)
      case OnTwoPaths => Said(s, Unless(r, id, Status(id, FX_OK)))
      case OnHandle(_, handle) => OnHandleRequest(s, kind, id, handle, r)
      case Malformed => Said(s, Status(id, FX_FAILURE))
      case Unknown => Said(s, Status(id, FX_OP_UNSUPPORTED))
  }

  // Packets one after the other, up to one that raises.
  datatype Progress = Progress(s: Server, ok: bool)

  function HandleAll(env: Environment, s: Server, packets: seq<bytes>): Progress
    decreases packets
  {
    if packets == [] then Progress(s, true)
    else if Raises(packets[0]) then Progress(s, false)
    else HandleAll(env, Handled(env, s, packets[0]), packets[1..])
  }

  // Positions in directories stay in range.
  predicate Placed(s: Server) {
    forall h :: h in s.handles ==> WellPlaced(s.handles[h])
  }

  lemma HandledPlaced(env: Environment, s: Server, packet: bytes)
    requires Placed(s) && !Raises(packet)
    ensures Placed(Handled(env, s, packet))
  {}

  // ---------------------------------------------------------------- server

  class SFTPServer {
    const env: Environment
    var buffer: bytes
    var nextHandle: nat
    var handles: map<bytes, Object>
    var replies: seq<Reply>

    ghost function Now(): Server
      reads this
    {
      Server(nextHandle, handles, replies)
    }

    constructor (env: Environment)
      ensures this.env == env && buffer == [] && Now() == Server(1, map[], [])
    {
      this.env := env;
      buffer, nextHandle, handles, replies := [], 1, map[], [];
    }

    method Send(reply: Reply)
      modifies `replies
      ensures replies == old(replies) + [reply]
    {
      replies := replies + [reply];
    }

    method NewHandle(o: Object) returns (handle: bytes)
      modifies `nextHandle, `handles
      ensures handle == HandleName(old(nextHandle)) && nextHandle == old(nextHandle) + 1 && handles == old(handles)[handle := o]
    {
      handle := HandleName(nextHandle);
      nextHandle := nextHandle + 1;
      handles := handles[handle := o];
    }

    // The names for which lstat succeeds, up to one that cannot be described.
    method DescribePresent(batch: seq<bytes>, r: FileResult) returns (names: Option<seq<bytes>>)
      ensures names == if Described(batch, r) then Some(Kept(batch, r.present)) else None
    {
      var kept := [];
      for i := 0 to |batch|
        invariant kept + Kept(batch[i..], r.present) == Kept(batch, r.present)
        invariant forall k :: 0 <= k < i ==> r.present(batch[k]) ==> r.describable(batch[k])
      {
        KeptNext(batch, i, kept, r.present);
        if r.present(batch[i]) {
          if !r.describable(batch[i]) {
            assert batch[i] in batch;
            return None;
          }
          kept := kept + [batch[i]];
        }
      }
      assert batch[|batch|..] == [] && kept + [] == kept;
      assert Described(batch, r);
      return Some(kept);
    }

    method Readdir(id: nat, handle: bytes, r: FileResult)
      requires handle in handles && WellPlaced(handles[handle])
      modifies `handles, `replies
      ensures Now() == ReadDirectory(old(Now()), id, handle, r)
    {
      match handles[handle] {
        case File =>
          Send(Status(id, FX_FAILURE));
        case Directory(entries, offset) =>
          var batch := NextBatch(handles[handle]);
          handles := handles[handle := Directory(entries, offset + |batch|)];
          if batch == [] {
            Send(Status(id, FX_EOF));
            return;
          }
          var names := DescribePresent(batch, r);
          Send(if names.Some? then Names(id, |batch|, names.value) else Status(id, FX_FAILURE));
      }
    }

    method OnHandle(kind: nat, id: nat, handle: bytes, r: FileResult)
      requires Placed(Now())
      modifies `handles, `replies
      ensures Now() == OnHandleRequest(old(Now()), kind, id, handle, r)
    {
      if kind == CLOSE {
        var isFile := handle in handles && handles[handle].File?;
        handles := handles - {handle};
        Send(if isFile then Unless(r, id, Status(id, FX_OK)) else Status(id, FX_OK));
      } else if handle !in handles {
        Send(Status(id, FX_FAILURE));
      } else if kind == READDIR {
        Readdir(id, handle, r);
      } else if handles[handle].Directory? {
        Send(Status(id, FX_FAILURE));
      } else if kind == FSTAT {
        Send(Unless(r, id, Attributes(id)));
      } else if kind == READ {
        Send(Unless(r, id, if r.data == [] then Status(id, FX_EOF) else DataIs(id, r.data)));
      } else {
        Send(Unless(r, id, Status(id, FX_OK)));
      }
    }

    method OnPath(kind: nat, id: nat, r: FileResult)
      modifies `nextHandle, `handles, `replies
      ensures Now() == OnPathRequest(old(Now()), kind, id, r)
    {
      if kind == OPENDIR || kind == OPEN {
        if r.failure.Some? {
          Send(Status(id, Code(r.failure.value)));
          return;
        }
        var handle;
        if kind == OPENDIR {
          var entries := [DOT];
          if !r.root { entries := entries + [DOTDOT]; }
          entries := entries + r.names;
          assert entries == Entries(r);
          handle := NewHandle(Directory(entries, 0));
        } else {
          handle := NewHandle(File);
        }
        Send(HandleIs(id, handle));
      } else {
        Send(Unless(r, id,
          if kind == REALPATH then Names(id, 1, [r.data])
          else if kind == STAT || kind == LSTAT then Attributes(id)
          else Status(id, FX_OK)));
      }
    }

    // The fields of a request, read one after the other.
    method ReadPathRequest(kind: nat, body: bytes) returns (request: Request)
      ensures request == PathRequest(env.utf8, kind, body)
    {
      var reader := new Reader(body);
      var path := reader.Text(env.utf8);
      if path.None? { return Malformed; }
      if kind == OPEN {
        var flags := reader.Uint32();
        return if flags.None? then Malformed else Request.OnPath(kind);
      }
      if kind == RENAME {
        var target := reader.Text(env.utf8);
        return if target.None? then Malformed else OnTwoPaths;
      }
      return Request.OnPath(kind);
    }

    method ReadPosition(kind: nat, reader: Reader) returns (ok: bool)
      requires reader.Valid()
      modifies reader
      ensures ok == PositionFits(kind, old(reader.Rest()))
    {
      if kind != READ && kind != WRITE { return true; }
      var offset := reader.Uint64();
      if offset.None? { return false; }
      if kind == READ {
        var size := reader.Uint32();
        return size.Some?;
      }
      var data := reader.String();
      return data.Some?;
    }

    method ReadHandleRequest(kind: nat, body: bytes) returns (request: Request)
      ensures request == HandleRequest(kind, body)
    {
      var reader := new Reader(body);
      var handle := reader.String();
      if handle.None? { return Malformed; }
      var ok := ReadPosition(kind, reader);
      return if ok then Request.OnHandle(kind, handle.value) else Malformed;
    }

    method ReadRequest(kind: nat, body: bytes) returns (request: Request)
      ensures request == RequestOf(env, kind, body)
    {
      if kind in PATH_REQUESTS {
        request := ReadPathRequest(kind, body);
      } else if kind in HANDLE_REQUESTS {
        request := ReadHandleRequest(kind, body);
      } else {
        request := Unknown;
      }
    }

    method HandlePacket(packet: bytes) returns (ok: bool)
      requires Placed(Now())
      modifies `nextHandle, `handles, `replies
      ensures ok == !Raises(packet)
      ensures Now() == if ok then Handled(env, old(Now()), packet) else old(Now())
    {
      if |packet| < 5 { return false; }
      var kind, id, r := packet[0], BE(packet[1..5]), env.results(|replies|);
      if kind == INIT {
        Send(Version(if id < 3 then id else 3));
        return true;
      }
      var request := ReadRequest(kind, packet[5..]);
      match request {
        case OnPath(_) => OnPath(kind, id, r);
        case OnTwoPaths => Send(Unless(r, id, Status(id, FX_OK)));
        case OnHandle(_, handle) => OnHandle(kind, id, handle, r);
        case Malformed => Send(Status(id, FX_FAILURE));
        case Unknown => Send(Status(id, FX_OP_UNSUPPORTED));
      }
      return true;
    }

    // feed: everything complete is handled, and what is incomplete waits for more.
    method Feed(data: bytes) returns (ok: bool)
      requires Placed(Now())
      modifies this
      ensures Shrinks(FirstSftp) && Placed(Now())
      ensures Progress(Now(), ok) == HandleAll(env, old(Now()), Items(FirstSftp, old(buffer) + data))
      ensures ok ==> buffer == Leftover(FirstSftp, old(buffer) + data)
    {
      FirstSftpRegular();
      buffer := buffer + data;
      ghost var all := buffer;
      while |buffer| >= 4
        invariant Placed(Now())
        invariant HandleAll(env, Now(), Items(FirstSftp, buffer)) == HandleAll(env, old(Now()), Items(FirstSftp, all))
        invariant Leftover(FirstSftp, buffer) == Leftover(FirstSftp, all)
        decreases |buffer|
      {
        var length := BE(buffer[..4]);
        if |buffer| < 4 + length {
          NoPacketYet(env, Now(), buffer);
          return true;
        }
        var packet := buffer[4..4 + length];
        PacketCut(env, Now(), buffer);
        HandledPlacedUnless(env, Now(), packet);
        buffer := buffer[4 + length..];
        var handled := HandlePacket(packet);
        if !handled { return false; }
      }
      NoPacketYet(env, Now(), buffer);
      return true;
    }
  }

  lemma NoPacketYet(env: Environment, s: Server, buffer: bytes)
    requires |buffer| < 4 || |buffer| < 4 + BE(buffer[..4])
    ensures Shrinks(FirstSftp) && Items(FirstSftp, buffer) == [] && Leftover(FirstSftp, buffer) == buffer
    ensures HandleAll(env, s, Items(FirstSftp, buffer)) == Progress(s, true)
  {}

  lemma HandledPlacedUnless(env: Environment, s: Server, packet: bytes)
    requires Placed(s)
    ensures !Raises(packet) ==> Placed(Handled(env, s, packet))
  {
    if !Raises(packet) { HandledPlaced(env, s, packet); }
  }

  lemma PacketCut(env: Environment, s: Server, buffer: bytes)
    requires |buffer| >= 4 && |buffer| >= 4 + BE(buffer[..4])
    ensures var n := BE(buffer[..4]); var packet, rest := buffer[4..4 + n], buffer[4 + n..];
      && Shrinks(FirstSftp) && Leftover(FirstSftp, buffer) == Leftover(FirstSftp, rest)
      && HandleAll(env, s, Items(FirstSftp, buffer))
         == if Raises(packet) then Progress(s, false) else HandleAll(env, Handled(env, s, packet), Items(FirstSftp, rest))
  {
    var n := BE(buffer[..4]);
    assert buffer[4..][..n] == buffer[4..4 + n] && buffer[4..][n..] == buffer[4 + n..];
    var items := Items(FirstSftp, buffer);
    assert items == [buffer[4..4 + n]] + Items(FirstSftp, buffer[4 + n..]);
    assert items[0] == buffer[4..4 + n] && items[1..] == Items(FirstSftp, buffer[4 + n..]);
  }
}
