/** What every run of the SFTP server keeps: independence of the chunking of its input, one
    reply for every request, fresh handles, and complete directory listings. */
module SftpRuns {
  import opened Wrappers
  import opened Bits
  import opened SshEncoding
  import opened Framing
  import opened Runs
  import opened Sftp

  predicate AllReadable(packets: seq<bytes>) {
    forall p :: p in packets ==> !Raises(p)
  }

  lemma {:induction false} HandleAllAppend(env: Environment, s: Server, a: seq<bytes>, b: seq<bytes>)
    requires AllReadable(a)
    ensures HandleAll(env, s, a).ok
    ensures HandleAll(env, s, a + b) == HandleAll(env, HandleAll(env, s, a).s, b)
    decreases a
  {
    if a == [] {
      assert a + b == b;
    } else {
      assert (a + b)[1..] == a[1..] + b;
      HandleAllAppend(env, Handled(env, s, a[0]), a[1..], b);
    }
  }

  // --------------------------------------------------------------- chunking

  datatype Fed = Fed(s: Server, buffer: bytes)

  // The state after one call of feed, ...
  ghost function FeedOnce(env: Environment, f: Fed, data: bytes): Fed
    requires Shrinks(FirstSftp)
  {
    Fed(HandleAll(env, f.s, Items(FirstSftp, f.buffer + data)).s, Leftover(FirstSftp, f.buffer + data))
  }

  // ... and after feeding pieces one by one.
  ghost function FeedAll(env: Environment, f: Fed, pieces: seq<bytes>): Fed
    requires Shrinks(FirstSftp)
    decreases pieces
  {
    if pieces == [] then f else FeedAll(env, FeedOnce(env, f, pieces[0]), pieces[1..])
  }

  // Two calls do what one call with both pieces does.
  lemma FeedTwice(env: Environment, f: Fed, a: bytes, b: bytes)
    requires Shrinks(FirstSftp) && Stable(FirstSftp) && AllReadable(Items(FirstSftp, f.buffer + (a + b)))
    ensures FeedOnce(env, FeedOnce(env, f, a), b) == FeedOnce(env, f, a + b)
    ensures AllReadable(Items(FirstSftp, FeedOnce(env, f, a).buffer + b))
  {
    var w := f.buffer + a;
    assert w + b == f.buffer + (a + b);
    ItemsAppend(FirstSftp, w, b);
    var first, rest := Items(FirstSftp, w), Items(FirstSftp, Leftover(FirstSftp, w) + b);
    assert forall p :: p in first ==> p in first + rest;
    assert forall p :: p in rest ==> p in first + rest;
    HandleAllAppend(env, f.s, first, rest);
  }

  // However a stream of packets of at least five bytes is cut into pieces, the same packets are
  // handled and the same bytes are left over as when it is fed at once.
  lemma {:induction false} ChunkingDoesNotMatter(env: Environment, f: Fed, pieces: seq<bytes>)
    requires Shrinks(FirstSftp) && FirstSftp(f.buffer) == None && AllReadable(Items(FirstSftp, f.buffer + Concat(pieces)))
    ensures FeedAll(env, f, pieces) == FeedOnce(env, f, Concat(pieces))
    decreases pieces
  {
    FirstSftpRegular();
    if pieces == [] {
      assert f.buffer + [] == f.buffer;
    } else {
      var rest := Concat(pieces[1..]);
      FeedTwice(env, f, pieces[0], rest);
      var next := FeedOnce(env, f, pieces[0]);
      LeftoverIsIncomplete(f.buffer + pieces[0]);
      ChunkingDoesNotMatter(env, next, pieces[1..]);
    }
  }

  lemma {:induction false} LeftoverIsIncomplete(w: bytes)
    requires Shrinks(FirstSftp)
    ensures FirstSftp(Leftover(FirstSftp, w)) == None
    decreases |w|
  {
    if FirstSftp(w).Some? { LeftoverIsIncomplete(FirstSftp(w).value.rest); }
  }

  // ---------------------------------------------------------------- replies

  // The reply that a packet calls for: the version for INIT, and otherwise a reply that
  // carries the number of the request.
  predicate Answers(reply: Reply, packet: bytes)
    requires !Raises(packet)
  {
    if packet[0] == INIT then reply == Version(if RequestId(packet) < 3 then RequestId(packet) else 3)
    else !reply.Version? && reply.id == RequestId(packet)
  }

  // t has one reply more than s, and it carries this number.
  predicate RepliedTo(s: Server, t: Server, id: nat) {
    |t.replies| == |s.replies| + 1 && t.replies[..|s.replies|] == s.replies
    && !t.replies[|s.replies|].Version? && t.replies[|s.replies|].id == id
  }

  lemma PathReplied(s: Server, kind: nat, id: nat, r: FileResult)
    ensures RepliedTo(s, OnPathRequest(s, kind, id, r), id)
  {}

  lemma HandleReplied(s: Server, kind: nat, id: nat, handle: bytes, r: FileResult)
    requires Placed(s)
    ensures RepliedTo(s, OnHandleRequest(s, kind, id, handle, r), id)
  {}

  lemma OneReply(env: Environment, s: Server, packet: bytes)
    requires !Raises(packet) && Placed(s)
    ensures var t := Handled(env, s, packet);
      |t.replies| == |s.replies| + 1 && t.replies[..|s.replies|] == s.replies && Answers(t.replies[|s.replies|], packet)
  {
    var kind, id, r := packet[0], RequestId(packet), env.results(|s.replies|);
    match RequestOf(env, kind, packet[5..]) {
      case OnPath(_) => PathReplied(s, kind, id, r);
      case OnHandle(_, handle) => HandleReplied(s, kind, id, handle, r);
      case _ =>
    }
  }

  // Over every run: exactly one reply for every packet, in the order of the packets.
  lemma {:induction false} RepliesMatchRequests(env: Environment, s: Server, packets: seq<bytes>)
    requires AllReadable(packets) && Placed(s)
    ensures var t := HandleAll(env, s, packets).s;
      && |t.replies| == |s.replies| + |packets| && t.replies[..|s.replies|] == s.replies
      && forall i :: 0 <= i < |packets| ==> Answers(t.replies[|s.replies| + i], packets[i])
    decreases packets
  {
    if packets != [] {
      var mid := Handled(env, s, packets[0]);
      OneReply(env, s, packets[0]);
      HandledPlaced(env, s, packets[0]);
      RepliesMatchRequests(env, mid, packets[1..]);
      var t := HandleAll(env, s, packets).s;
      assert t.replies[..|s.replies|] == t.replies[..|mid.replies|][..|s.replies|];
      forall i | 0 <= i < |packets|
        ensures Answers(t.replies[|s.replies| + i], packets[i])
      {
        if i == 0 {
          assert t.replies[|s.replies|] == t.replies[..|mid.replies|][|s.replies|];
        } else {
          assert packets[1..][i - 1] == packets[i];
        }
      }
    }
  }

  // ---------------------------------------------------------------- handles

  function Issued(r: Reply): seq<bytes> {
    if r.HandleIs? then [r.handle] else []
  }

  function HandleNames(low: nat, high: nat): (names: seq<bytes>)
    ensures |names| == if low < high then high - low else 0
    decreases high - low
  {
    if low >= high then [] else [HandleName(low)] + HandleNames(low + 1, high)
  }

  lemma {:induction false} HandleNamesAt(low: nat, high: nat, i: nat)
    requires low + i < high
    ensures HandleNames(low, high)[i] == HandleName(low + i)
    decreases high - low
  {
    if low + 1 < high { HandleNamesAt(low + 1, high, if i == 0 then 0 else i - 1); }
  }

  lemma {:induction false} HandleNamesJoin(low: nat, mid: nat, high: nat)
    requires low <= mid <= high
    ensures HandleNames(low, high) == HandleNames(low, mid) + HandleNames(mid, high)
    decreases mid - low
  {
    if low < mid { HandleNamesJoin(low + 1, mid, high); }
  }

  // A step either issues the next handle or none.
  predicate IssuesNext(s: Server, t: Server) {
    && |t.replies| == |s.replies| + 1
    && if t.nextHandle == s.nextHandle then t.handles.Keys <= s.handles.Keys && Issued(t.replies[|s.replies|]) == []
       else t.nextHandle == s.nextHandle + 1 && t.handles.Keys == s.handles.Keys + {HandleName(s.nextHandle)}
            && Issued(t.replies[|s.replies|]) == [HandleName(s.nextHandle)]
  }

  lemma PathIssues(s: Server, kind: nat, id: nat, r: FileResult)
    ensures IssuesNext(s, OnPathRequest(s, kind, id, r))
  {}

  lemma HandleIssues(s: Server, kind: nat, id: nat, handle: bytes, r: FileResult)
    requires Placed(s)
    ensures IssuesNext(s, OnHandleRequest(s, kind, id, handle, r))
  {}

  lemma StepIssues(env: Environment, s: Server, packet: bytes)
    requires !Raises(packet) && Placed(s)
    ensures IssuesNext(s, Handled(env, s, packet))
  {
    var kind, id, r := packet[0], RequestId(packet), env.results(|s.replies|);
    match RequestOf(env, kind, packet[5..]) {
      case OnPath(_) => PathIssues(s, kind, id, r);
      case OnHandle(_, handle) => HandleIssues(s, kind, id, handle, r);
      case _ =>
    }
  }

  // The handles issued over a run are those of the counter, in order: h1, h2, h3, ...
  lemma {:induction false} HandlesAreCounted(env: Environment, s: Server, packets: seq<bytes>)
    requires AllReadable(packets) && Placed(s)
    ensures var t := HandleAll(env, s, packets).s;
      && s.nextHandle <= t.nextHandle && s.replies <= t.replies
      && Gathered(Issued, t.replies[|s.replies|..]) == HandleNames(s.nextHandle, t.nextHandle)
    decreases packets
  {
    var t := HandleAll(env, s, packets).s;
    if packets == [] {
      assert t.replies[|s.replies|..] == [];
    } else {
      var mid := Handled(env, s, packets[0]);
      OneReply(env, s, packets[0]);
      StepIssues(env, s, packets[0]);
      assert HandleNames(s.nextHandle, s.nextHandle + 1) == [HandleName(s.nextHandle)] + HandleNames(s.nextHandle + 1, s.nextHandle + 1);
      HandledPlaced(env, s, packets[0]);
      HandlesAreCounted(env, mid, packets[1..]);
      var one := [mid.replies[|s.replies|]];
      assert t.replies[..|mid.replies|] == mid.replies;
      assert t.replies[|s.replies|..] == one + t.replies[|mid.replies|..];
      GatheredAppend(Issued, one, t.replies[|mid.replies|..]);
      assert one[1..] == [] && Gathered(Issued, one) == Issued(one[0]) + [];
      HandleNamesJoin(s.nextHandle, mid.nextHandle, t.nextHandle);
    }
  }

  // No handle is issued twice, even when it has been closed in between.
  lemma HandlesAreFresh(env: Environment, packets: seq<bytes>, i: nat, j: nat)
    requires AllReadable(packets)
    requires var t := HandleAll(env, Server(1, map[], []), packets).s; i < j < |t.replies| && t.replies[i].HandleIs? && t.replies[j].HandleIs?
    ensures var t := HandleAll(env, Server(1, map[], []), packets).s; t.replies[i].handle != t.replies[j].handle
  {
    var s := Server(1, map[], []);
    var t := HandleAll(env, s, packets).s;
    HandlesAreCounted(env, s, packets);
    assert t.replies[|s.replies|..] == t.replies;
    var a, b := GatheredIndex(t.replies, i, j);
    HandleNamesAt(1, t.nextHandle, a);
    HandleNamesAt(1, t.nextHandle, b);
    HandleNamesDiffer(1 + a, 1 + b);
  }

  // Where two handles stand among all handles issued.
  lemma {:induction false} GatheredIndex(replies: seq<Reply>, i: nat, j: nat) returns (a: nat, b: nat)
    requires i < j < |replies| && replies[i].HandleIs? && replies[j].HandleIs?
    ensures a < b < |Gathered(Issued, replies)|
    ensures Gathered(Issued, replies)[a] == replies[i].handle && Gathered(Issued, replies)[b] == replies[j].handle
  {
    var before := replies[..i];
    assert replies == before + ([replies[i]] + replies[i + 1..]);
    GatheredAppend(Issued, before, [replies[i]] + replies[i + 1..]);
    var middle, rest := replies[i + 1..j], replies[j + 1..];
    assert replies[i + 1..] == middle + ([replies[j]] + rest);
    GatheredAppend(Issued, middle, [replies[j]] + rest);
    assert ([replies[i]] + replies[i + 1..])[1..] == replies[i + 1..] && ([replies[j]] + rest)[1..] == rest;
    a := |Gathered(Issued, before)|;
    b := a + 1 + |Gathered(Issued, middle)|;
  }

  // ----------------------------------------------------------------- paging

  predicate Asks(env: Environment, packet: bytes, kind: nat, handle: bytes)
    requires !Raises(packet)
  {
    packet[0] == kind && RequestOf(env, kind, packet[5..]) == OnHandle(kind, handle)
  }

  predicate IsDirectory(s: Server, handle: bytes) {
    handle in s.handles && s.handles[handle].Directory? && s.handles[handle].offset <= |s.handles[handle].entries|
  }

  // The entries a packet takes from the listing behind a handle.
  function BatchOf(env: Environment, s: Server, packet: bytes, handle: bytes): seq<bytes>
    requires !Raises(packet)
  {
    if Asks(env, packet, READDIR, handle) && IsDirectory(s, handle) then NextBatch(s.handles[handle]) else []
  }

  // The packets of a run during which a handle is not closed.
  function Open(env: Environment, handle: bytes): System<Server, bytes, Reply> {
    System((s: Server, p: bytes) => !Raises(p) && !Asks(env, p, CLOSE, handle),
           (s: Server, p: bytes) => Effect(if Raises(p) then s else Handled(env, s, p), []))
  }

  // The entries visited by the READDIR requests of a run, one batch behind the other.
  function Visited(env: Environment, s: Server, packets: seq<bytes>, handle: bytes): seq<bytes> {
    Taken(Open(env, handle), (s: Server, p: bytes) => if Raises(p) then [] else BatchOf(env, s, p, handle), s, packets)
  }

  // Handles in use come from the counter.
  ghost predicate Counted(s: Server) {
    forall h :: h in s.handles ==> exists n :: 1 <= n < s.nextHandle && h == HandleName(n)
  }

  lemma HandledCounted(env: Environment, s: Server, packet: bytes)
    requires Counted(s) && s.nextHandle >= 1 && !Raises(packet) && Placed(s)
    ensures Counted(Handled(env, s, packet)) && Handled(env, s, packet).nextHandle >= 1
  {
    StepIssues(env, s, packet);
    CountedStays(s, Handled(env, s, packet));
  }

  lemma CountedStays(s: Server, t: Server)
    requires Counted(s) && s.nextHandle >= 1 && IssuesNext(s, t)
    ensures Counted(t)
  {
    forall h | h in t.handles
      ensures exists n :: 1 <= n < t.nextHandle && h == HandleName(n)
    {
      if h in s.handles {
        var n :| 1 <= n < s.nextHandle && h == HandleName(n);
        assert 1 <= n < t.nextHandle;
      } else {
        assert h == HandleName(s.nextHandle) && s.nextHandle < t.nextHandle;
      }
    }
  }

  // A packet that does not close the handle moves its position by the batch it takes, and no more.
  lemma OneHandleMove(s: Server, kind: nat, id: nat, other: bytes, r: FileResult, handle: bytes)
    requires IsDirectory(s, handle) && !(kind == CLOSE && other == handle)
    ensures var o, t := s.handles[handle], OnHandleRequest(s, kind, id, other, r);
      handle in t.handles && t.handles[handle] == Directory(o.entries, o.offset + if kind == READDIR && other == handle then |NextBatch(o)| else 0)
  {}

  lemma OneMove(env: Environment, s: Server, packet: bytes, handle: bytes)
    requires !Raises(packet) && Counted(s) && IsDirectory(s, handle) && !Asks(env, packet, CLOSE, handle)
    ensures var o, t := s.handles[handle], Handled(env, s, packet);
      handle in t.handles && t.handles[handle] == Directory(o.entries, o.offset + |BatchOf(env, s, packet, handle)|)
      && BatchOf(env, s, packet, handle) <= o.entries[o.offset..]
  {
    var n :| 1 <= n < s.nextHandle && handle == HandleName(n);
    HandleNamesDiffer(n, s.nextHandle);
    var kind := packet[0];
    match RequestOf(env, kind, packet[5..]) {
      case OnHandle(_, other) => OneHandleMove(s, kind, RequestId(packet), other, env.results(|s.replies|), handle);
      case _ =>
    }
  }

  // The handle stands for a directory with these entries.
  ghost predicate Lists(s: Server, handle: bytes, entries: seq<bytes>) {
    Counted(s) && Placed(s) && s.nextHandle >= 1 && IsDirectory(s, handle) && s.handles[handle].entries == entries
  }

  function Position(s: Server, handle: bytes): nat {
    if handle in s.handles && s.handles[handle].Directory? then s.handles[handle].offset else 0
  }

  lemma BatchIsNext(env: Environment, s: Server, packet: bytes, handle: bytes, entries: seq<bytes>)
    requires !Raises(packet) && Lists(s, handle, entries) && !Asks(env, packet, CLOSE, handle)
    ensures var t := Handled(env, s, packet);
      && Lists(t, handle, entries) && Position(s, handle) <= Position(t, handle) <= |entries|
      && BatchOf(env, s, packet, handle) == entries[Position(s, handle)..Position(t, handle)]
  {
    OneMove(env, s, packet, handle);
    HandledCounted(env, s, packet);
    HandledPlaced(env, s, packet);
    var batch := BatchOf(env, s, packet, handle);
    assert batch == entries[s.handles[handle].offset..][..|batch|];
  }

  // What a run that does not close the handle does to a system of any steps.
  lemma {:induction false} SameRun(env: Environment, s: Server, packets: seq<bytes>, handle: bytes)
    requires AllReadable(packets)
    requires forall p :: p in packets ==> !Asks(env, p, CLOSE, handle)
    ensures Possible(Open(env, handle), s, packets) && After(Open(env, handle), s, packets).s == HandleAll(env, s, packets).s
    decreases packets
  {
    if packets != [] { SameRun(env, Handled(env, s, packets[0]), packets[1..], handle); }
  }

  // As long as a directory stays open, the batches of its READDIR requests, whatever else is
  // requested in between, are its entries one after the other: none is skipped or repeated.
  lemma ListingIsComplete(env: Environment, s: Server, packets: seq<bytes>, handle: bytes)
    requires AllReadable(packets) && Counted(s) && Placed(s) && s.nextHandle >= 1 && IsDirectory(s, handle)
    requires forall p :: p in packets ==> !Asks(env, p, CLOSE, handle)
    ensures var o, t := s.handles[handle], HandleAll(env, s, packets).s;
      && IsDirectory(t, handle) && t.handles[handle].entries == o.entries && o.offset <= t.handles[handle].offset
      && Visited(env, s, packets, handle) == o.entries[o.offset..t.handles[handle].offset]
  {
    var m, entries := Open(env, handle), s.handles[handle].entries;
    var inv, position := (s: Server) => Lists(s, handle, entries), (s: Server) => Position(s, handle);
    var take := (s: Server, p: bytes) => if Raises(p) then [] else BatchOf(env, s, p, handle);
    forall u, p | inv(u) && m.enabled(u, p)
      ensures inv(m.step(u, p).s) && Advances(m, take, position, entries, u, p)
    {
      BatchIsNext(env, u, p, handle, entries);
    }
    SameRun(env, s, packets, handle);
    TakenInOrder(m, inv, take, position, entries, s, packets);
  }

  // The reply to READDIR on an open directory: end of listing exactly when every entry has been
  // visited, and names exactly when every name of the batch that still exists can be described.
  lemma ReaddirReplies(env: Environment, s: Server, packet: bytes, handle: bytes)
    requires !Raises(packet) && Asks(env, packet, READDIR, handle) && IsDirectory(s, handle)
    ensures var o, replies, batch := s.handles[handle], Handled(env, s, packet).replies, BatchOf(env, s, packet, handle);
      var id, r := RequestId(packet), env.results(|s.replies|);
      && |replies| == |s.replies| + 1
      && (replies[|s.replies|] == Status(id, FX_EOF) <==> o.offset == |o.entries|)
      && (replies[|s.replies|].Names? <==> o.offset < |o.entries| && Described(batch, r))
      && (replies[|s.replies|].Names? ==> 1 <= |batch| <= BATCH && replies[|s.replies|] == Names(id, |batch|, Kept(batch, r.present)))
      && (o.offset < |o.entries| && !Described(batch, r) ==> replies[|s.replies|] == Status(id, FX_FAILURE))
  {}

  // ----------------------------------------------------- what the operator is told

  // The names in the reply to a packet, if it is a READDIR of this handle.
  function ToldOf(env: Environment, s: Server, packet: bytes, handle: bytes): seq<bytes>
    requires !Raises(packet)
  {
    var t := Handled(env, s, packet);
    if Asks(env, packet, READDIR, handle) && |t.replies| == |s.replies| + 1 && t.replies[|s.replies|].Names?
    then t.replies[|s.replies|].names else []
  }

  function Told(env: Environment, s: Server, packets: seq<bytes>, handle: bytes): seq<bytes>
    requires AllReadable(packets)
    decreases packets
  {
    if packets == [] then [] else ToldOf(env, s, packets[0], handle) + Told(env, Handled(env, s, packets[0]), packets[1..], handle)
  }

  // Every name that a packet visits still exists then, and can be described.
  predicate NothingLost(env: Environment, s: Server, packet: bytes, handle: bytes)
    requires !Raises(packet)
  {
    forall name :: name in BatchOf(env, s, packet, handle) ==>
      env.results(|s.replies|).present(name) && env.results(|s.replies|).describable(name)
  }

  predicate NothingLostIn(env: Environment, s: Server, packets: seq<bytes>, handle: bytes)
    requires AllReadable(packets)
    decreases packets
  {
    packets == [] || (NothingLost(env, s, packets[0], handle) && NothingLostIn(env, Handled(env, s, packets[0]), packets[1..], handle))
  }

  // Of a batch, the names that exist are kept.
  lemma {:induction false} KeptAll(names: seq<bytes>, present: bytes -> bool)
    ensures Kept(names, present) == names <==> forall name :: name in names ==> present(name)
    ensures |Kept(names, present)| <= |names|
    ensures |Kept(names, present)| == |names| ==> Kept(names, present) == names
  {
    if names != [] {
      KeptAll(names[1..], present);
      assert names == [names[0]] + names[1..];
      if present(names[0]) {
        assert ([names[0]] + Kept(names[1..], present))[1..] == Kept(names[1..], present);
      }
    }
  }

  lemma StepTold(env: Environment, s: Server, packet: bytes, handle: bytes)
    requires !Raises(packet) && IsDirectory(s, handle)
    ensures var told, batch := ToldOf(env, s, packet, handle), BatchOf(env, s, packet, handle);
      && |told| <= |batch| && (|told| == |batch| <==> NothingLost(env, s, packet, handle)) && (|told| == |batch| ==> told == batch)
  {
    var batch, r := BatchOf(env, s, packet, handle), env.results(|s.replies|);
    if Asks(env, packet, READDIR, handle) {
      ReaddirReplies(env, s, packet, handle);
      KeptAll(batch, r.present);
      if batch != [] { assert batch[0] in batch; }
    }
  }

  // What the operator is told of a listing is all that was visited exactly when every name still
  // existed, and could be described, when its turn came.
  lemma {:induction false} ToldIsVisited(env: Environment, s: Server, packets: seq<bytes>, handle: bytes)
    requires AllReadable(packets) && Counted(s) && Placed(s) && s.nextHandle >= 1 && IsDirectory(s, handle)
    requires forall p :: p in packets ==> !Asks(env, p, CLOSE, handle)
    ensures Told(env, s, packets, handle) == Visited(env, s, packets, handle) <==> NothingLostIn(env, s, packets, handle)
    ensures |Told(env, s, packets, handle)| <= |Visited(env, s, packets, handle)|
    decreases packets
  {
    if packets != [] {
      var p, t := packets[0], Handled(env, s, packets[0]);
      OneMove(env, s, p, handle);
      HandledCounted(env, s, p);
      HandledPlaced(env, s, p);
      ToldIsVisited(env, t, packets[1..], handle);
      StepTold(env, s, p, handle);
      SameParts(ToldOf(env, s, p, handle), Told(env, t, packets[1..], handle), BatchOf(env, s, p, handle), Visited(env, t, packets[1..], handle));
    }
  }

  lemma SameParts(a: seq<bytes>, more: seq<bytes>, b: seq<bytes>, rest: seq<bytes>)
    requires |a| <= |b| && |more| <= |rest| && (|a| == |b| ==> a == b)
    ensures a + more == b + rest <==> a == b && more == rest
  {
    if a + more == b + rest {
      assert |a + more| == |b + rest|;
      assert (a + more)[|a|..] == more && (b + rest)[|b|..] == rest;
    }
  }

  // ------------------------------------------------------------ a whole listing

  // How many READDIR requests for the handle there are.
  function Asked(env: Environment, packets: seq<bytes>, handle: bytes): nat
    requires AllReadable(packets)
  {
    if packets == [] then 0 else (if Asks(env, packets[0], READDIR, handle) then 1 else 0) + Asked(env, packets[1..], handle)
  }

  // n READDIR requests move the position by 64 * n entries, or to the end, whatever else is
  // requested in between.
  lemma {:induction false} ReadingToTheEnd(env: Environment, s: Server, packets: seq<bytes>, handle: bytes)
    requires AllReadable(packets) && Counted(s) && Placed(s) && s.nextHandle >= 1 && IsDirectory(s, handle)
    requires forall p :: p in packets ==> !Asks(env, p, CLOSE, handle)
    ensures var o, t, n := s.handles[handle], HandleAll(env, s, packets).s, Asked(env, packets, handle);
      && IsDirectory(t, handle) && t.handles[handle].entries == o.entries
      && t.handles[handle].offset == if o.offset + BATCH * n < |o.entries| then o.offset + BATCH * n else |o.entries|
    decreases packets
  {
    if packets != [] {
      OneMove(env, s, packets[0], handle);
      HandledCounted(env, s, packets[0]);
      HandledPlaced(env, s, packets[0]);
      ReadingToTheEnd(env, Handled(env, s, packets[0]), packets[1..], handle);
    }
  }

  const FIRST := Server(1, map[], [])

  lemma {:induction false} StaysCounted(env: Environment, s: Server, packets: seq<bytes>)
    requires AllReadable(packets) && Counted(s) && Placed(s) && s.nextHandle >= 1
    ensures var t := HandleAll(env, s, packets).s; Counted(t) && Placed(t) && t.nextHandle >= 1
    decreases packets
  {
    if packets != [] {
      HandledCounted(env, s, packets[0]);
      HandledPlaced(env, s, packets[0]);
      StaysCounted(env, Handled(env, s, packets[0]), packets[1..]);
    }
  }

  // The packet opens a directory.
  predicate OpensDirectory(env: Environment, s: Server, packet: bytes) {
    !Raises(packet) && packet[0] == OPENDIR && RequestOf(env, OPENDIR, packet[5..]) == OnPath(OPENDIR)
    && env.results(|s.replies|).failure.None?
  }

  lemma OpenedDirectory(env: Environment, s: Server, packet: bytes)
    requires OpensDirectory(env, s, packet)
    ensures var t, handle := Handled(env, s, packet), HandleName(s.nextHandle);
      && t.replies == s.replies + [HandleIs(RequestId(packet), handle)]
      && IsDirectory(t, handle) && t.handles[handle] == Directory(Entries(env.results(|s.replies|)), 0)
  {}

  // From OPENDIR to the end: a directory is opened at any time, and not closed while packets of
  // any kind follow.  A READDIR behind them is told the end of the listing if and only if its
  // READDIR requests have visited every entry of the directory, each once and in order, and that
  // is the case if and only if there were enough of them.  The operator has been told every entry
  // if and only if each one still existed, and could be described, when its turn came.
  lemma WholeListing(env: Environment, before: seq<bytes>, opening: bytes, packets: seq<bytes>, last: bytes)
    requires AllReadable(before) && AllReadable(packets) && !Raises(last)
    requires OpensDirectory(env, HandleAll(env, FIRST, before).s, opening)
    requires var handle := HandleName(HandleAll(env, FIRST, before).s.nextHandle);
      (forall p :: p in packets ==> !Asks(env, p, CLOSE, handle)) && Asks(env, last, READDIR, handle)
    ensures var s := HandleAll(env, FIRST, before).s;
      var handle, entries, t := HandleName(s.nextHandle), Entries(env.results(|s.replies|)), Handled(env, s, opening);
      var u := HandleAll(env, t, packets).s;
      var replies := Handled(env, u, last).replies;
      && |replies| == |u.replies| + 1
      && (replies[|u.replies|] == Status(RequestId(last), FX_EOF) <==> Visited(env, t, packets, handle) == entries)
      && (replies[|u.replies|] == Status(RequestId(last), FX_EOF) <==> BATCH * Asked(env, packets, handle) >= |entries|)
      && (replies[|u.replies|] == Status(RequestId(last), FX_EOF) ==>
            (Told(env, t, packets, handle) == entries <==> NothingLostIn(env, t, packets, handle)))
  {
    var s := HandleAll(env, FIRST, before).s;
    var t, handle, entries := Handled(env, s, opening), HandleName(s.nextHandle), Entries(env.results(|s.replies|));
    StaysCounted(env, FIRST, before);
    OpenedDirectory(env, s, opening);
    HandledCounted(env, s, opening);
    HandledPlaced(env, s, opening);
    ListingIsComplete(env, t, packets, handle);
    ReadingToTheEnd(env, t, packets, handle);
    ToldIsVisited(env, t, packets, handle);
    var u := HandleAll(env, t, packets).s;
    ReaddirReplies(env, u, last, handle);
    WholePrefix(entries, u.handles[handle].offset);
  }

  lemma WholePrefix(entries: seq<bytes>, n: nat)
    requires n <= |entries|
    ensures entries[0..n] == entries <==> n == |entries|
  {
    if entries[0..n] == entries { assert |entries[0..n]| == |entries|; }
  }
}
