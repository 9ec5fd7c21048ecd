/** What the SFTP server does with each packet, in terms of the bytes of the packet and the numbers
    of draft-ietf-secsh-filexfer-02. */
module SftpDispatch {
  import opened Wrappers
  import opened Bits
  import opened SshEncoding
  import opened Framing
  import opened Runs
  import opened Sftp
  import opened WireFormats
  import SftpRuns

  // ------------------------------------------------------- forms of packets

  predicate IsText(utf8: Utf8, v: bytes) {
    |v| < 0x1_0000_0000 && utf8(v)
  }

  ghost predicate HasPath(utf8: Utf8, body: bytes) {
    exists path: bytes, rest: bytes :: IsText(utf8, path) && body == Counted(path) + rest
  }

  ghost predicate HasPathAndFlags(utf8: Utf8, body: bytes) {
    exists path: bytes, flags: bytes, rest: bytes :: IsText(utf8, path) && |flags| == 4 && body == Counted(path) + flags + rest
  }

  ghost predicate HasTwoPaths(utf8: Utf8, body: bytes) {
    exists path: bytes, target: bytes, rest: bytes ::
      IsText(utf8, path) && IsText(utf8, target) && body == Counted(path) + Counted(target) + rest
  }

  ghost predicate HasHandle(body: bytes, handle: bytes, fields: bytes) {
    |handle| < 0x1_0000_0000 && body == Counted(handle) + fields
  }

  // Behind the handle, READ has an offset and a size, and WRITE an offset and data.
  ghost predicate HasPosition(kind: nat, fields: bytes) {
    && (kind == 5 ==> exists offset: bytes, size: bytes, rest: bytes :: |offset| == 8 && |size| == 4 && fields == offset + size + rest)
    && (kind == 6 ==> exists offset: bytes, data: bytes, rest: bytes ::
          |offset| == 8 && |data| < 0x1_0000_0000 && fields == offset + Counted(data) + rest)
  }

  predicate OnNames(kind: nat) {
    kind == 3 || kind == 7 || kind == 11 || 13 <= kind <= 18
  }

  predicate OnHandles(kind: nat) {
    kind == 4 || kind == 5 || kind == 6 || kind == 8 || kind == 12
  }

  ghost predicate NamesFit(utf8: Utf8, kind: nat, body: bytes) {
    if kind == 3 then HasPathAndFlags(utf8, body) else if kind == 18 then HasTwoPaths(utf8, body) else HasPath(utf8, body)
  }

  ghost predicate HandleFits(kind: nat, body: bytes) {
    exists handle: bytes, fields: bytes :: HasHandle(body, handle, fields) && HasPosition(kind, fields)
  }

  // -------------------------------------------------- what each one leads to

  // The status for an error of the file system.
  function StatusFor(f: Failure): nat {
    if f == NotFound then 2 else if f == NotPermitted then 3 else 4
  }

  // Only a reply.
  predicate Replies(s: Server, reply: Reply, t: Server) {
    t == Server(s.nextHandle, s.handles, s.replies + [reply])
  }

  // The number that digits stand for.
  function ValueOf(digits: bytes): int {
    if digits == [] then 0 else 10 * ValueOf(digits[..|digits| - 1]) + (digits[|digits| - 1] as int - 48)
  }

  // The letter h and the number, without zeros in front.
  ghost predicate IsHandleName(handle: bytes, n: nat) {
    |handle| >= 2 && handle[0] == 104 && IsDecimal(handle[1..]) && ValueOf(handle[1..]) == n
  }

  predicate IsDecimal(digits: bytes) {
    |digits| >= 1 && (forall i :: 0 <= i < |digits| ==> 48 <= digits[i] <= 57) && (|digits| > 1 ==> digits[0] != 48)
  }

  ghost predicate GivesHandle(s: Server, id: nat, o: Object, handle: bytes, t: Server) {
    IsHandleName(handle, s.nextHandle) && t == Server(s.nextHandle + 1, s.handles[handle := o], s.replies + [HandleIs(id, handle)])
  }

  // Requests on a path.
  ghost predicate PathTurn(s: Server, kind: nat, id: nat, r: FileResult, t: Server) {
    if r.failure.Some? then Replies(s, Status(id, StatusFor(r.failure.value)), t)
    else if kind == 3 then exists handle :: GivesHandle(s, id, File, handle, t)
    else if kind == 11 then
      var listing := Directory([[46]] + (if r.root then [] else [[46, 46]]) + r.names, 0);
      exists handle :: GivesHandle(s, id, listing, handle, t)
    else if kind == 16 then Replies(s, Names(id, 1, [r.data]), t)
    else if kind == 7 || kind == 17 then Replies(s, Attributes(id), t)
    else Replies(s, Status(id, 0), t)
  }

  // Requests on a directory: the next 64 entries, or fewer at the end.
  ghost predicate ListingTurn(s: Server, id: nat, handle: bytes, entries: seq<bytes>, offset: nat, r: FileResult, t: Server) {
    var end := if offset + 64 < |entries| then offset + 64 else |entries|;
    && offset <= |entries| && t.nextHandle == s.nextHandle && t.handles == s.handles[handle := Directory(entries, end)]
    && t.replies == s.replies + [
         if offset == |entries| then Status(id, 1)
         else if exists i :: offset <= i < end && r.present(entries[i]) && !r.describable(entries[i]) then Status(id, 4)
         else Names(id, end - offset, Gathered(name => if r.present(name) then [name] else [], entries[offset..end]))]
  }

  ghost predicate FileTurn(s: Server, kind: nat, id: nat, r: FileResult, t: Server) {
    if kind == 12 then Replies(s, Status(id, 4), t)
    else if r.failure.Some? then Replies(s, Status(id, StatusFor(r.failure.value)), t)
    else if kind == 8 then Replies(s, Attributes(id), t)
    else if kind == 6 then Replies(s, Status(id, 0), t)
    else Replies(s, if r.data == [] then Status(id, 1) else DataIs(id, r.data), t)
  }

  ghost predicate HandleTurn(s: Server, kind: nat, id: nat, handle: bytes, r: FileResult, t: Server) {
    if kind == 4 then
      && t.nextHandle == s.nextHandle && t.handles == (map h | h in s.handles && h != handle :: s.handles[h])
      && t.replies == s.replies + [Status(id, if handle in s.handles && s.handles[handle] == File && r.failure.Some?
                                              then StatusFor(r.failure.value) else 0)]
    else if handle !in s.handles then Replies(s, Status(id, 4), t)
    else
      match s.handles[handle]
      case File => FileTurn(s, kind, id, r, t)
      case Directory(entries, offset) =>
        if kind == 12 then ListingTurn(s, id, handle, entries, offset, r, t) else Replies(s, Status(id, 4), t)
  }

  // A packet of this kind with this number and these fields turns s into t.
  ghost predicate Turn(env: Environment, s: Server, kind: nat, id: nat, body: bytes, t: Server) {
    var r := env.results(|s.replies|);
    if kind == 1 then Replies(s, Version(if id < 3 then id else 3), t)
    else if OnNames(kind) then
      if NamesFit(env.utf8, kind, body) then PathTurn(s, kind, id, r, t) else Replies(s, Status(id, 4), t)
    else if OnHandles(kind) then
      if HandleFits(kind, body) then exists handle, fields :: HasHandle(body, handle, fields) && HandleTurn(s, kind, id, handle, r, t)
      else Replies(s, Status(id, 4), t)
    else Replies(s, Status(id, 8), t)
  }

  // ------------------------------------------------- what is read is that

  lemma TextThere(utf8: Utf8, s: bytes, v: bytes, rest: bytes)
    ensures ParseText(utf8, s) == Some(Parsed(v, rest)) <==> IsText(utf8, v) && s == Counted(v) + rest
  {
    StringReadIs(s, v, rest);
  }

  lemma TwoBefore(a: bytes, b: bytes, rest: bytes)
    ensures a + b + rest == a + (b + rest)
  {}

  lemma PathThere(utf8: Utf8, body: bytes)
    ensures ParseText(utf8, body).Some? <==> HasPath(utf8, body)
  {
    if ParseText(utf8, body).Some? {
      var p := ParseText(utf8, body).value;
      TextThere(utf8, body, p.value, p.rest);
    }
    if HasPath(utf8, body) {
      var path: bytes, rest: bytes :| IsText(utf8, path) && body == Counted(path) + rest;
      TextThere(utf8, body, path, rest);
    }
  }

  lemma FlagsThere(utf8: Utf8, body: bytes)
    ensures ParseText(utf8, body).Some? && |ParseText(utf8, body).value.rest| >= 4 <==> HasPathAndFlags(utf8, body)
  {
    if ParseText(utf8, body).Some? && |ParseText(utf8, body).value.rest| >= 4 {
      var p := ParseText(utf8, body).value;
      TextThere(utf8, body, p.value, p.rest);
      var flags, more := p.rest[..4], p.rest[4..];
      assert p.rest == flags + more;
      TwoBefore(Counted(p.value), flags, more);
      assert IsText(utf8, p.value) && |flags| == 4 && body == Counted(p.value) + flags + more;
    }
    if HasPathAndFlags(utf8, body) {
      var path: bytes, flags: bytes, rest: bytes :| IsText(utf8, path) && |flags| == 4 && body == Counted(path) + flags + rest;
      TwoBefore(Counted(path), flags, rest);
      TextThere(utf8, body, path, flags + rest);
    }
  }

  lemma PathsThere(utf8: Utf8, body: bytes)
    ensures ParseText(utf8, body).Some? && ParseText(utf8, ParseText(utf8, body).value.rest).Some? <==> HasTwoPaths(utf8, body)
  {
    if ParseText(utf8, body).Some? && ParseText(utf8, ParseText(utf8, body).value.rest).Some? {
      var p := ParseText(utf8, body).value;
      var q := ParseText(utf8, p.rest).value;
      TextThere(utf8, body, p.value, p.rest);
      TextThere(utf8, p.rest, q.value, q.rest);
      TwoBefore(Counted(p.value), Counted(q.value), q.rest);
    }
    if HasTwoPaths(utf8, body) {
      var path: bytes, target: bytes, rest: bytes :|
        IsText(utf8, path) && IsText(utf8, target) && body == Counted(path) + Counted(target) + rest;
      TwoBefore(Counted(path), Counted(target), rest);
      TextThere(utf8, body, path, Counted(target) + rest);
      TextThere(utf8, Counted(target) + rest, target, rest);
    }
  }

  lemma SizeThere(fields: bytes)
    ensures |fields| >= 12 <==> exists offset: bytes, size: bytes, rest: bytes :: |offset| == 8 && |size| == 4 && fields == offset + size + rest
  {
    if |fields| >= 12 {
      var offset, size, rest := fields[..8], fields[8..12], fields[12..];
      assert |offset| == 8 && |size| == 4 && fields == offset + size + rest;
    }
  }

  lemma DataThere(fields: bytes)
    ensures |fields| >= 8 && ParseString(fields[8..]).Some? <==>
            exists offset: bytes, data: bytes, rest: bytes :: |offset| == 8 && |data| < 0x1_0000_0000 && fields == offset + Counted(data) + rest
  {
    if |fields| >= 8 && ParseString(fields[8..]).Some? {
      var d := ParseString(fields[8..]).value;
      StringReadIs(fields[8..], d.value, d.rest);
      var offset := fields[..8];
      assert |offset| == 8 && fields == offset + (Counted(d.value) + d.rest);
      TwoBefore(offset, Counted(d.value), d.rest);
    }
    if offset: bytes, data: bytes, rest: bytes :| |offset| == 8 && |data| < 0x1_0000_0000 && fields == offset + Counted(data) + rest {
      TwoBefore(offset, Counted(data), rest);
      assert fields[8..] == Counted(data) + rest;
      StringReadIs(fields[8..], data, rest);
    }
  }

  lemma PositionThere(kind: nat, fields: bytes)
    ensures PositionFits(kind, fields) <==> HasPosition(kind, fields)
  {
    SizeThere(fields);
    DataThere(fields);
  }

  // The handle of a packet is what stands there behind its length.
  lemma HandleThere(kind: nat, body: bytes, handle: bytes, fields: bytes)
    ensures HasHandle(body, handle, fields) <==> ParseString(body) == Some(Parsed(handle, fields))
  {
    StringReadIs(body, handle, fields);
  }

  lemma HandleFitsIs(kind: nat, body: bytes)
    ensures HandleFits(kind, body) <==> HandleRequest(kind, body) != Malformed
  {
    if HandleRequest(kind, body) != Malformed {
      var p := ParseString(body).value;
      HandleThere(kind, body, p.value, p.rest);
      PositionThere(kind, p.rest);
    }
    if HandleFits(kind, body) {
      var handle: bytes, fields: bytes :| HasHandle(body, handle, fields) && HasPosition(kind, fields);
      HandleThere(kind, body, handle, fields);
      PositionThere(kind, fields);
    }
  }

  lemma NamesFitIs(utf8: Utf8, kind: nat, body: bytes)
    ensures NamesFit(utf8, kind, body) <==> PathRequest(utf8, kind, body) != Malformed
  {
    PathThere(utf8, body);
    FlagsThere(utf8, body);
    PathsThere(utf8, body);
  }

  // -------------------------------------------------- what is done is that

  lemma {:induction false} DecimalIs(n: nat)
    ensures IsDecimal(Decimal(n)) && ValueOf(Decimal(n)) == n && (n > 0 ==> Decimal(n)[0] != 48)
  {
    var d := Decimal(n);
    assert d[|d| - 1] == 48 + n % 10;
    if n >= 10 {
      DecimalIs(n / 10);
      assert d[..|d| - 1] == Decimal(n / 10) && d[0] == Decimal(n / 10)[0];
    } else {
      assert d[..|d| - 1] == [];
      assert ValueOf([]) == 0;
    }
  }

  // A number has one such form.
  lemma {:induction false} DecimalOnly(digits: bytes)
    requires IsDecimal(digits)
    ensures ValueOf(digits) >= 0 && digits == Decimal(ValueOf(digits))
  {
    var front, last := digits[..|digits| - 1], digits[|digits| - 1] as int - 48;
    if front == [] {
      assert ValueOf([]) == 0;
    } else {
      DecimalOnly(front);
      DecimalIs(0);
      assert ValueOf(front) > 0;
      assert (10 * ValueOf(front) + last) / 10 == ValueOf(front) && (10 * ValueOf(front) + last) % 10 == last;
      assert digits == front + [digits[|digits| - 1]];
    }
  }

  lemma HandleNameIs(handle: bytes, n: nat)
    ensures IsHandleName(handle, n) <==> handle == HandleName(n)
  {
    if IsHandleName(handle, n) {
      DecimalOnly(handle[1..]);
      assert handle == [104] + handle[1..];
    }
    if handle == HandleName(n) {
      DecimalIs(n);
      assert handle[1..] == Decimal(n);
    }
  }

  lemma {:induction false} KeptIs(names: seq<bytes>, present: bytes -> bool)
    ensures Kept(names, present) == Gathered(name => if present(name) then [name] else [], names)
  {
    if names != [] { KeptIs(names[1..], present); }
  }

  lemma GivesHandleIs(s: Server, id: nat, o: Object, t: Server)
    ensures (exists handle :: GivesHandle(s, id, o, handle, t)) <==> t == WithHandle(s, id, o)
  {
    HandleNameIs(HandleName(s.nextHandle), s.nextHandle);
    if t == WithHandle(s, id, o) { assert GivesHandle(s, id, o, HandleName(s.nextHandle), t); }
    if handle :| GivesHandle(s, id, o, handle, t) { HandleNameIs(handle, s.nextHandle); }
  }

  lemma PathTurnIs(s: Server, kind: nat, id: nat, r: FileResult, t: Server)
    requires OnNames(kind)
    ensures PathTurn(s, kind, id, r, t) <==> t == OnPathRequest(s, kind, id, r)
  {
    GivesHandleIs(s, id, File, t);
    GivesHandleIs(s, id, Directory(Entries(r), 0), t);
  }

  lemma ListingTurnIs(s: Server, id: nat, handle: bytes, entries: seq<bytes>, offset: nat, r: FileResult, t: Server)
    requires handle in s.handles && s.handles[handle] == Directory(entries, offset) && offset <= |entries|
    ensures ListingTurn(s, id, handle, entries, offset, r, t) <==> t == ReadDirectory(s, id, handle, r)
  {
    var end := if offset + 64 < |entries| then offset + 64 else |entries|;
    var batch := NextBatch(s.handles[handle]);
    assert batch == entries[offset..end];
    KeptIs(batch, r.present);
    DescribedIs(entries, offset, end, r);
  }

  lemma DescribedIs(entries: seq<bytes>, low: nat, high: nat, r: FileResult)
    requires low <= high <= |entries|
    ensures Described(entries[low..high], r) <==> !exists i :: low <= i < high && r.present(entries[i]) && !r.describable(entries[i])
  {
    var batch := entries[low..high];
    forall i | low <= i < high
      ensures entries[i] in batch
    {
      assert batch[i - low] == entries[i];
    }
    forall name | name in batch
      ensures exists i :: low <= i < high && entries[i] == name
    {
      var k :| 0 <= k < |batch| && batch[k] == name;
      assert entries[low + k] == name;
    }
  }

  lemma HandleTurnIs(s: Server, kind: nat, id: nat, handle: bytes, r: FileResult, t: Server)
    requires OnHandles(kind) && Placed(s)
    ensures HandleTurn(s, kind, id, handle, r, t) <==> t == OnHandleRequest(s, kind, id, handle, r)
  {
    if kind == 4 {
      assert s.handles - {handle} == map h | h in s.handles && h != handle :: s.handles[h];
    } else if handle in s.handles && kind == 12 {
      match s.handles[handle] {
        case File =>
        case Directory(entries, offset) =>
          assert WellPlaced(s.handles[handle]);
          ListingTurnIs(s, id, handle, entries, offset, r, t);
      }
    }
  }

  // Every packet of at least five bytes has this form ...
  lemma PacketIs(packet: bytes) returns (kind: byte, id: nat, body: bytes)
    requires |packet| >= 5
    ensures id < 0x1_0000_0000 && packet == [kind] + Four(id) + body
  {
    kind, id, body := packet[0], BE(packet[1..5]), packet[5..];
    FourBack(packet[1..5]);
    assert packet == [kind] + packet[1..5] + body;
  }

  // ... and turns the server into exactly what is said above.
  lemma DispatchIs(env: Environment, s: Server, packet: bytes, kind: byte, id: nat, body: bytes, t: Server)
    requires Placed(s) && id < 0x1_0000_0000 && packet == [kind] + Four(id) + body
    ensures t == Handled(env, s, packet) <==> Turn(env, s, kind, id, body, t)
  {
    assert packet[1..5] == Four(id) && packet[5..] == body;
    FourIs(id);
    Uint32There(id);
    var r := env.results(|s.replies|);
    NamesFitIs(env.utf8, kind, body);
    HandleFitsIs(kind, body);
    if OnNames(kind) { PathTurnIs(s, kind, id, r, t); }
    if OnHandles(kind) && HandleFits(kind, body) {
      var p := ParseString(body).value;
      HandleThere(kind, body, p.value, p.rest);
      forall handle, fields | HasHandle(body, handle, fields)
        ensures handle == p.value && fields == p.rest
      {
        HandleThere(kind, body, handle, fields);
      }
      HandleTurnIs(s, kind, id, p.value, r, t);
    }
  }

  lemma Uint32There(id: nat)
    requires id < 0x1_0000_0000
    ensures BE(Four(id)) == id
  {
    FourIs(id);
    Uint32Bytes(id);
  }

  // ---------------------------------------------------------------- streams

  // A packet is complete if and only if it stands there behind its length.
  lemma PacketCutIs(s: bytes, packet: bytes, rest: bytes)
    ensures FirstSftp(s) == Some(Cut(packet, rest)) <==> |packet| < 0x1_0000_0000 && s == Counted(packet) + rest
  {
    StringReadIs(s, packet, rest);
  }

  // In every run packet number i has its turn in the state behind the packets before it.
  lemma EveryPacketHasItsTurn(env: Environment, s: Server, packets: seq<bytes>, i: nat)
    requires SftpRuns.AllReadable(packets) && Placed(s) && i < |packets|
    ensures var now, next := HandleAll(env, s, packets[..i]).s, HandleAll(env, s, packets[..i + 1]).s;
      exists kind: byte, id: nat, body: bytes :: Turn(env, now, kind, id, body, next)
                                                 && id < 0x1_0000_0000 && packets[i] == [kind] + Four(id) + body
  {
    var now := HandleAll(env, s, packets[..i]).s;
    StaysPlaced(env, s, packets[..i]);
    assert packets[..i + 1] == packets[..i] + [packets[i]];
    SftpRuns.HandleAllAppend(env, s, packets[..i], [packets[i]]);
    assert HandleAll(env, now, [packets[i]]).s == Handled(env, now, packets[i]);
    var kind, id, body := PacketIs(packets[i]);
    DispatchIs(env, now, packets[i], kind, id, body, Handled(env, now, packets[i]));
  }

  lemma {:induction false} StaysPlaced(env: Environment, s: Server, packets: seq<bytes>)
    requires SftpRuns.AllReadable(packets) && Placed(s)
    ensures Placed(HandleAll(env, s, packets).s)
    decreases packets
  {
    if packets != [] {
      HandledPlaced(env, s, packets[0]);
      StaysPlaced(env, Handled(env, s, packets[0]), packets[1..]);
    }
  }
}
