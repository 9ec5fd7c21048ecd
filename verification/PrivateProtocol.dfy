/** The messages between relay and reverse client, private_protocol.py: pack_* as functions,
    unpack_* as methods over a Reader, and frames. */
module PrivateProtocol {
  import opened Wrappers
  import opened NumberTheory
  import opened Bits
  import opened SshEncoding

  // ------------------------------------------------------- generic records

  datatype Kind = NumberKind | FlagKind | TextKind | BlobKind

  datatype Value = Number(n: nat) | Flag(b: bool) | Str(s: bytes)

  // The values a field of each kind can carry.
  predicate Fits(utf8: Utf8, k: Kind, v: Value) {
    match k
    case NumberKind => v.Number? && v.n < LIMIT_32
    case FlagKind => v.Flag?
    case TextKind => v.Str? && |v.s| < LIMIT_32 && utf8(v.s)
    case BlobKind => v.Str? && |v.s| < LIMIT_32
  }

  predicate FitsAll(utf8: Utf8, ks: seq<Kind>, vs: seq<Value>) {
    |ks| == |vs| && (ks == [] || (Fits(utf8, ks[0], vs[0]) && FitsAll(utf8, ks[1..], vs[1..])))
  }

  function PackValue(v: Value): Option<bytes> {
    match v
    case Number(n) => Uint32(n)
    case Flag(b) => Some(Boolean(b))
    case Str(s) => String(s)
  }

  function PackAll(vs: seq<Value>): Option<bytes> {
    if vs == [] then Some([]) else Join(PackValue(vs[0]), PackAll(vs[1..]))
  }

  function ParseValue(utf8: Utf8, k: Kind, s: bytes): Option<Parsed<Value>> {
    match k
    case NumberKind => (match ParseUint32(s) case None => None case Some(p) => Some(Parsed(Number(p.value), p.rest)))
    case FlagKind => (match ParseBoolean(s) case None => None case Some(p) => Some(Parsed(Flag(p.value), p.rest)))
    case TextKind => (match ParseText(utf8, s) case None => None case Some(p) => Some(Parsed(Str(p.value), p.rest)))
    case BlobKind => (match ParseString(s) case None => None case Some(p) => Some(Parsed(Str(p.value), p.rest)))
  }

  // All fields in order, and nothing behind them.
  function ParseAll(utf8: Utf8, ks: seq<Kind>, s: bytes): Option<seq<Value>>
    decreases ks
  {
    if ks == [] then if s == [] then Some([]) else None
    else match ParseValue(utf8, ks[0], s)
      case None => None
      case Some(p) =>
        match ParseAll(utf8, ks[1..], p.rest)
        case None => None
        case Some(vs) => Some([p.value] + vs)
  }

  lemma ValueRoundTrip(utf8: Utf8, k: Kind, v: Value, rest: bytes)
    requires Fits(utf8, k, v)
    ensures PackValue(v).Some?
    ensures ParseValue(utf8, k, PackValue(v).value + rest) == Some(Parsed(v, rest))
  {
    match v {
      case Number(n) =>
        Uint32Bytes(n);
        var s := ToBE(n, 4) + rest;
        assert s[..4] == ToBE(n, 4) && s[4..] == rest;
      case Flag(b) =>
        var s := Boolean(b) + rest;
        assert s[1..] == rest;
      case Str(s) =>
        StringRoundTrip(s, rest);
    }
  }

  lemma ValueReadBack(utf8: Utf8, k: Kind, s: bytes)
    requires ParseValue(utf8, k, s).Some?
    ensures var p := ParseValue(utf8, k, s).value;
      Fits(utf8, k, p.value) && PackValue(p.value).Some? && PackValue(p.value).value + p.rest == s
  {
    match k {
      case NumberKind => Uint32Back(s[..4]);
      case FlagKind => assert s == [s[0]] + s[1..];
      case TextKind => StringReadIsWritten(s);
      case BlobKind => StringReadIsWritten(s);
    }
    if k.TextKind? || k.BlobKind? { Uint32Back(s[..4]); }
  }

  // Parsing undoes packing, ...
  lemma {:induction false} RecordRoundTrip(utf8: Utf8, ks: seq<Kind>, vs: seq<Value>)
    requires FitsAll(utf8, ks, vs)
    ensures PackAll(vs).Some? && ParseAll(utf8, ks, PackAll(vs).value) == Some(vs)
    decreases ks
  {
    if ks != [] {
      RecordRoundTrip(utf8, ks[1..], vs[1..]);
      ValueRoundTrip(utf8, ks[0], vs[0], PackAll(vs[1..]).value);
      assert vs == [vs[0]] + vs[1..];
    }
  }

  // ... and packing undoes parsing: every accepted payload is the encoding of what it decodes to.
  lemma {:induction false} RecordReadBack(utf8: Utf8, ks: seq<Kind>, s: bytes)
    requires ParseAll(utf8, ks, s).Some?
    ensures var vs := ParseAll(utf8, ks, s).value; FitsAll(utf8, ks, vs) && PackAll(vs) == Some(s)
    decreases ks
  {
    if ks != [] {
      var p := ParseValue(utf8, ks[0], s).value;
      ValueReadBack(utf8, ks[0], s);
      RecordReadBack(utf8, ks[1..], p.rest);
      var vs := ParseAll(utf8, ks, s).value;
      assert vs[0] == p.value && vs[1..] == ParseAll(utf8, ks[1..], p.rest).value;
    }
  }

  lemma RecordInverse(utf8: Utf8, ks: seq<Kind>, vs: seq<Value>, s: bytes)
    ensures ParseAll(utf8, ks, s) == Some(vs) <==> FitsAll(utf8, ks, vs) && PackAll(vs) == Some(s)
  {
    if ParseAll(utf8, ks, s) == Some(vs) { RecordReadBack(utf8, ks, s); }
    if FitsAll(utf8, ks, vs) { RecordRoundTrip(utf8, ks, vs); }
  }

  // -------------------------------------------------------------- messages

  datatype Message =
    | Register(identifier: bytes)
    | RegisterResult(ok: bool, text: bytes)
    | AuthRequest(authId: nat, username: bytes, fingerprint: bytes, keyBlob: bytes)
    | AuthResponse(authId: nat, ok: bool, persist: bool)
    | OpenChannel(channelId: nat, kind: bytes, extraJson: bytes)
    | OpenConfirm(channelId: nat, ok: bool, text: bytes)
    | ChannelData(channelId: nat, data: bytes)
    | ChannelId(channelId: nat)
    | ChannelRequest(channelId: nat, request: bytes, wantReply: bool, payload: bytes)
    | ExtendedData(channelId: nat, dataType: nat, data: bytes)

  datatype Shape =
    | RegisterShape | RegisterResultShape | AuthRequestShape | AuthResponseShape | OpenChannelShape
    | OpenConfirmShape | ChannelDataShape | ChannelIdShape | ChannelRequestShape | ExtendedDataShape

  function ShapeOf(m: Message): Shape {
    match m
    case Register(_) => RegisterShape
    case RegisterResult(_, _) => RegisterResultShape
    case AuthRequest(_, _, _, _) => AuthRequestShape
    case AuthResponse(_, _, _) => AuthResponseShape
    case OpenChannel(_, _, _) => OpenChannelShape
    case OpenConfirm(_, _, _) => OpenConfirmShape
    case ChannelData(_, _) => ChannelDataShape
    case ChannelId(_) => ChannelIdShape
    case ChannelRequest(_, _, _, _) => ChannelRequestShape
    case ExtendedData(_, _, _) => ExtendedDataShape
  }

  // The payload each pack_* function builds; none when a number or a length is out of range.
  function Pack(m: Message): Option<bytes> {
    match m
    case Register(identifier) => String(identifier)
    case RegisterResult(ok, text) => Join(Some(Boolean(ok)), String(text))
    case AuthRequest(authId, username, fingerprint, keyBlob) =>
      Join(Uint32(authId), Join(String(username), Join(String(fingerprint), String(keyBlob))))
    case AuthResponse(authId, ok, persist) =>
      Join(Uint32(authId), Join(Some(Boolean(ok)), Some(Boolean(persist))))
    case OpenChannel(channelId, kind, extraJson) =>
      Join(Uint32(channelId), Join(String(kind), String(extraJson)))
    case OpenConfirm(channelId, ok, text) =>
      Join(Uint32(channelId), Join(Some(Boolean(ok)), String(text)))
    case ChannelData(channelId, data) => Join(Uint32(channelId), String(data))
    case ChannelId(channelId) => Uint32(channelId)
    case ChannelRequest(channelId, request, wantReply, payload) =>
      Join(Uint32(channelId), Join(String(request), Join(Some(Boolean(wantReply)), String(payload))))
    case ExtendedData(channelId, dataType, data) =>
      Join(Uint32(channelId), Join(Uint32(dataType), String(data)))
  }

  function Kinds(shape: Shape): seq<Kind> {
    match shape
    case RegisterShape => [TextKind]
    case RegisterResultShape => [FlagKind, TextKind]
    case AuthRequestShape => [NumberKind, TextKind, TextKind, BlobKind]
    case AuthResponseShape => [NumberKind, FlagKind, FlagKind]
    case OpenChannelShape => [NumberKind, TextKind, TextKind]
    case OpenConfirmShape => [NumberKind, FlagKind, TextKind]
    case ChannelDataShape => [NumberKind, BlobKind]
    case ChannelIdShape => [NumberKind]
    case ChannelRequestShape => [NumberKind, TextKind, FlagKind, BlobKind]
    case ExtendedDataShape => [NumberKind, NumberKind, BlobKind]
  }

  function Values(m: Message): seq<Value> {
    match m
    case Register(identifier) => [Str(identifier)]
    case RegisterResult(ok, text) => [Flag(ok), Str(text)]
    case AuthRequest(authId, username, fingerprint, keyBlob) => [Number(authId), Str(username), Str(fingerprint), Str(keyBlob)]
    case AuthResponse(authId, ok, persist) => [Number(authId), Flag(ok), Flag(persist)]
    case OpenChannel(channelId, kind, extraJson) => [Number(channelId), Str(kind), Str(extraJson)]
    case OpenConfirm(channelId, ok, text) => [Number(channelId), Flag(ok), Str(text)]
    case ChannelData(channelId, data) => [Number(channelId), Str(data)]
    case ChannelId(channelId) => [Number(channelId)]
    case ChannelRequest(channelId, request, wantReply, payload) => [Number(channelId), Str(request), Flag(wantReply), Str(payload)]
    case ExtendedData(channelId, dataType, data) => [Number(channelId), Number(dataType), Str(data)]
  }

  // Every str field is valid UTF-8.
  predicate TextsValid(utf8: Utf8, ks: seq<Kind>, vs: seq<Value>) {
    forall i :: 0 <= i < |ks| && i < |vs| && ks[i].TextKind? && vs[i].Str? ==> utf8(vs[i].s)
  }

  predicate Textual(utf8: Utf8, m: Message) {
    TextsValid(utf8, Kinds(ShapeOf(m)), Values(m))
  }

  predicate OfKind(k: Kind, v: Value) {
    match k
    case NumberKind => v.Number?
    case FlagKind => v.Flag?
    case TextKind => v.Str?
    case BlobKind => v.Str?
  }

  // Numbers, flags and strings stand where the kinds say.
  predicate Typed(ks: seq<Kind>, vs: seq<Value>) {
    |ks| == |vs| && forall i :: 0 <= i < |ks| ==> OfKind(ks[i], vs[i])
  }

  lemma ValuesTyped(m: Message)
    ensures Typed(Kinds(ShapeOf(m)), Values(m))
  {
  }

  lemma JoinNothing(a: Option<bytes>)
    ensures Join(a, Some([])) == a
  {
    if a.Some? { assert a.value + [] == a.value; }
  }

  lemma {:induction false} PackOne(v: Value)
    ensures PackAll([v]) == PackValue(v)
  {
    assert [v][1..] == [];
    JoinNothing(PackValue(v));
  }

  lemma {:induction false} PackMore(v: Value, vs: seq<Value>)
    ensures PackAll([v] + vs) == Join(PackValue(v), PackAll(vs))
  {
    assert ([v] + vs)[1..] == vs;
  }

  lemma Pack2(a: Value, b: Value)
    ensures PackAll([a, b]) == Join(PackValue(a), PackValue(b))
  {
    PackOne(b);
    PackMore(a, [b]);
    assert [a] + [b] == [a, b];
  }

  lemma Pack3(a: Value, b: Value, c: Value)
    ensures PackAll([a, b, c]) == Join(PackValue(a), Join(PackValue(b), PackValue(c)))
  {
    Pack2(b, c);
    PackMore(a, [b, c]);
    assert [a] + [b, c] == [a, b, c];
  }

  lemma Pack4(a: Value, b: Value, c: Value, d: Value)
    ensures PackAll([a, b, c, d]) == Join(PackValue(a), Join(PackValue(b), Join(PackValue(c), PackValue(d))))
  {
    Pack3(b, c, d);
    PackMore(a, [b, c, d]);
    assert [a] + [b, c, d] == [a, b, c, d];
  }

  // pack_* concatenates the encodings of the fields in order.
  lemma PackIsPackAll(m: Message)
    ensures Pack(m) == PackAll(Values(m))
  {
    var vs := Values(m);
    if |vs| == 1 {
      PackOne(vs[0]);
    } else if |vs| == 2 {
      Pack2(vs[0], vs[1]);
    } else if |vs| == 3 {
      Pack3(vs[0], vs[1], vs[2]);
    } else {
      Pack4(vs[0], vs[1], vs[2], vs[3]);
    }
  }

  // Typed values can be packed, with valid texts, exactly when they fit.
  lemma {:induction false} TypedFits(utf8: Utf8, ks: seq<Kind>, vs: seq<Value>)
    requires Typed(ks, vs)
    ensures TextsValid(utf8, ks, vs) && PackAll(vs).Some? <==> FitsAll(utf8, ks, vs)
  {
    if ks != [] {
      var ks', vs' := ks[1..], vs[1..];
      assert forall i :: 0 <= i < |ks'| ==> ks'[i] == ks[i + 1] && vs'[i] == vs[i + 1];
      TypedFits(utf8, ks', vs');
      if TextsValid(utf8, ks', vs') && (ks[0].TextKind? ==> utf8(vs[0].s)) {
        forall i | 0 <= i < |ks| && ks[i].TextKind?
          ensures utf8(vs[i].s)
        {
          if i > 0 { assert ks'[i - 1] == ks[i]; }
        }
      }
    }
  }

  lemma PackableIffFits(utf8: Utf8, m: Message)
    ensures Textual(utf8, m) && Pack(m).Some? <==> FitsAll(utf8, Kinds(ShapeOf(m)), Values(m))
  {
    ValuesTyped(m);
    PackIsPackAll(m);
    TypedFits(utf8, Kinds(ShapeOf(m)), Values(m));
  }

  // The message with these field values.
  function FromValues(shape: Shape, vs: seq<Value>): Option<Message> {
    match (shape, |vs|)
    case (RegisterShape, 1) => if vs[0].Str? then Some(Register(vs[0].s)) else None
    case (RegisterResultShape, 2) => if vs[0].Flag? && vs[1].Str? then Some(RegisterResult(vs[0].b, vs[1].s)) else None
    case (AuthRequestShape, 4) =>
      if vs[0].Number? && vs[1].Str? && vs[2].Str? && vs[3].Str?
      then Some(AuthRequest(vs[0].n, vs[1].s, vs[2].s, vs[3].s)) else None
    case (AuthResponseShape, 3) =>
      if vs[0].Number? && vs[1].Flag? && vs[2].Flag? then Some(AuthResponse(vs[0].n, vs[1].b, vs[2].b)) else None
    case (OpenChannelShape, 3) =>
      if vs[0].Number? && vs[1].Str? && vs[2].Str? then Some(OpenChannel(vs[0].n, vs[1].s, vs[2].s)) else None
    case (OpenConfirmShape, 3) =>
      if vs[0].Number? && vs[1].Flag? && vs[2].Str? then Some(OpenConfirm(vs[0].n, vs[1].b, vs[2].s)) else None
    case (ChannelDataShape, 2) => if vs[0].Number? && vs[1].Str? then Some(ChannelData(vs[0].n, vs[1].s)) else None
    case (ChannelIdShape, 1) => if vs[0].Number? then Some(ChannelId(vs[0].n)) else None
    case (ChannelRequestShape, 4) =>
      if vs[0].Number? && vs[1].Str? && vs[2].Flag? && vs[3].Str?
      then Some(ChannelRequest(vs[0].n, vs[1].s, vs[2].b, vs[3].s)) else None
    case (ExtendedDataShape, 3) =>
      if vs[0].Number? && vs[1].Number? && vs[2].Str? then Some(ExtendedData(vs[0].n, vs[1].n, vs[2].s)) else None
    case _ => None
  }

  // What unpack_* returns for a payload of the given shape; none stands for a decoding error.
  function Unpacked(utf8: Utf8, shape: Shape, payload: bytes): Option<Message> {
    match ParseAll(utf8, Kinds(shape), payload)
    case None => None
    case Some(vs) => FromValues(shape, vs)
  }

  lemma FromValuesInverse(shape: Shape, m: Message, vs: seq<Value>)
    ensures ShapeOf(m) == shape && vs == Values(m) ==> FromValues(shape, vs) == Some(m)
    ensures FromValues(shape, vs) == Some(m) ==> ShapeOf(m) == shape && vs == Values(m)
  {
  }

  // unpack_* is the exact two-sided inverse of pack_*: it returns a message exactly for the
  // payload that the message packs to.
  lemma UnpackedInverse(utf8: Utf8, shape: Shape, payload: bytes, m: Message)
    ensures Unpacked(utf8, shape, payload) == Some(m)
            <==> ShapeOf(m) == shape && Textual(utf8, m) && Pack(m) == Some(payload)
  {
    if Unpacked(utf8, shape, payload) == Some(m) {
      var vs := ParseAll(utf8, Kinds(shape), payload).value;
      FromValuesInverse(shape, m, vs);
      RecordInverse(utf8, Kinds(shape), vs, payload);
      PackIsPackAll(m);
      PackableIffFits(utf8, m);
    }
    if ShapeOf(m) == shape && Textual(utf8, m) && Pack(m) == Some(payload) {
      PackIsPackAll(m);
      PackableIffFits(utf8, m);
      RecordInverse(utf8, Kinds(shape), Values(m), payload);
      FromValuesInverse(shape, m, Values(m));
    }
  }

  // Two different messages of one shape never pack to the same payload.
  lemma PackInjective(utf8: Utf8, a: Message, b: Message)
    requires ShapeOf(a) == ShapeOf(b) && Textual(utf8, a) && Textual(utf8, b)
    requires Pack(a).Some? && Pack(a) == Pack(b)
    ensures a == b
  {
    PackIsPackAll(a);
    PackIsPackAll(b);
    PackableIffFits(utf8, a);
    PackableIffFits(utf8, b);
    RecordInverse(utf8, Kinds(ShapeOf(a)), Values(a), Pack(a).value);
    RecordInverse(utf8, Kinds(ShapeOf(a)), Values(b), Pack(a).value);
  }

  lemma ParseMore(utf8: Utf8, k: Kind, ks: seq<Kind>, s: bytes)
    ensures ParseAll(utf8, [k] + ks, s) ==
      match ParseValue(utf8, k, s)
      case None => None
      case Some(p) => Prepended(p.value, ParseAll(utf8, ks, p.rest))
  {
    assert ([k] + ks)[1..] == ks;
  }

  function Prepended(v: Value, vs: Option<seq<Value>>): Option<seq<Value>> {
    if vs.Some? then Some([v] + vs.value) else None
  }

  lemma Put(v: Value, vs: Option<seq<Value>>)
    requires vs.Some? && 2 <= |vs.value| <= 3
    ensures Prepended(v, vs) == Some(if |vs.value| == 2 then [v, vs.value[0], vs.value[1]] else [v, vs.value[0], vs.value[1], vs.value[2]])
  {
    var all := [v] + vs.value;
    assert |vs.value| == 2 ==> all == [v, vs.value[0], vs.value[1]];
    assert |vs.value| == 3 ==> all == [v, vs.value[0], vs.value[1], vs.value[2]];
  }

  lemma Parse1(utf8: Utf8, k1: Kind, s: bytes)
    ensures ParseAll(utf8, [k1], s) ==
      match ParseValue(utf8, k1, s)
      case None => None
      case Some(a) => if a.rest == [] then Some([a.value]) else None
  {
    ParseMore(utf8, k1, [], s);
    assert [k1] == [k1] + [];
    match ParseValue(utf8, k1, s) {
      case None =>
      case Some(a) => assert [a.value] + [] == [a.value];
    }
  }

  lemma Parse2(utf8: Utf8, k1: Kind, k2: Kind, s: bytes)
    ensures ParseAll(utf8, [k1, k2], s) ==
      match ParseValue(utf8, k1, s)
      case None => None
      case Some(a) =>
        match ParseValue(utf8, k2, a.rest)
        case None => None
        case Some(b) => if b.rest == [] then Some([a.value, b.value]) else None
  {
    ParseMore(utf8, k1, [k2], s);
    assert [k1, k2] == [k1] + [k2];
    match ParseValue(utf8, k1, s) {
      case None =>
      case Some(a) =>
        Parse1(utf8, k2, a.rest);
        match ParseValue(utf8, k2, a.rest) {
          case None =>
          case Some(b) => assert [a.value] + [b.value] == [a.value, b.value];
        }
    }
  }

  lemma Parse3(utf8: Utf8, k1: Kind, k2: Kind, k3: Kind, s: bytes)
    ensures ParseAll(utf8, [k1, k2, k3], s) ==
      match ParseValue(utf8, k1, s)
      case None => None
      case Some(a) =>
        match ParseValue(utf8, k2, a.rest)
        case None => None
        case Some(b) =>
          match ParseValue(utf8, k3, b.rest)
          case None => None
          case Some(c) => if c.rest == [] then Some([a.value, b.value, c.value]) else None
  {
    ParseMore(utf8, k1, [k2, k3], s);
    assert [k1, k2, k3] == [k1] + [k2, k3];
    match ParseValue(utf8, k1, s) {
      case None =>
      case Some(a) =>
        Parse2(utf8, k2, k3, a.rest);
        if ParseAll(utf8, [k2, k3], a.rest).Some? { Put(a.value, ParseAll(utf8, [k2, k3], a.rest)); }
    }
  }

  lemma Parse4(utf8: Utf8, k1: Kind, k2: Kind, k3: Kind, k4: Kind, s: bytes)
    ensures ParseAll(utf8, [k1, k2, k3, k4], s) ==
      match ParseValue(utf8, k1, s)
      case None => None
      case Some(a) =>
        match ParseValue(utf8, k2, a.rest)
        case None => None
        case Some(b) =>
          match ParseValue(utf8, k3, b.rest)
          case None => None
          case Some(c) =>
            match ParseValue(utf8, k4, c.rest)
            case None => None
            case Some(d) => if d.rest == [] then Some([a.value, b.value, c.value, d.value]) else None
  {
    ParseMore(utf8, k1, [k2, k3, k4], s);
    assert [k1, k2, k3, k4] == [k1] + [k2, k3, k4];
    match ParseValue(utf8, k1, s) {
      case None =>
      case Some(a) =>
        Parse3(utf8, k2, k3, k4, a.rest);
        if ParseAll(utf8, [k2, k3, k4], a.rest).Some? { Put(a.value, ParseAll(utf8, [k2, k3, k4], a.rest)); }
    }
  }

  // The same for the messages with this many fields.
  lemma Fields2(utf8: Utf8, shape: Shape, k1: Kind, k2: Kind, s: bytes)
    requires Kinds(shape) == [k1, k2]
    ensures Unpacked(utf8, shape, s) ==
      match ParseValue(utf8, k1, s)
      case None => None
      case Some(a) =>
        match ParseValue(utf8, k2, a.rest)
        case None => None
        case Some(b) => if b.rest == [] then FromValues(shape, [a.value, b.value]) else None
  {
    Parse2(utf8, k1, k2, s);
  }

  lemma Fields3(utf8: Utf8, shape: Shape, k1: Kind, k2: Kind, k3: Kind, s: bytes)
    requires Kinds(shape) == [k1, k2, k3]
    ensures Unpacked(utf8, shape, s) ==
      match ParseValue(utf8, k1, s)
      case None => None
      case Some(a) =>
        match ParseValue(utf8, k2, a.rest)
        case None => None
        case Some(b) =>
          match ParseValue(utf8, k3, b.rest)
          case None => None
          case Some(c) => if c.rest == [] then FromValues(shape, [a.value, b.value, c.value]) else None
  {
    Parse3(utf8, k1, k2, k3, s);
  }

  lemma Fields4(utf8: Utf8, shape: Shape, k1: Kind, k2: Kind, k3: Kind, k4: Kind, s: bytes)
    requires Kinds(shape) == [k1, k2, k3, k4]
    ensures Unpacked(utf8, shape, s) ==
      match ParseValue(utf8, k1, s)
      case None => None
      case Some(a) =>
        match ParseValue(utf8, k2, a.rest)
        case None => None
        case Some(b) =>
          match ParseValue(utf8, k3, b.rest)
          case None => None
          case Some(c) =>
            match ParseValue(utf8, k4, c.rest)
            case None => None
            case Some(d) => if d.rest == [] then FromValues(shape, [a.value, b.value, c.value, d.value]) else None
  {
    Parse4(utf8, k1, k2, k3, k4, s);
  }

  // Reading the fields one after the other, stopping at the first error, and asking for the
  // end of the payload is parsing the record.
  lemma RegisterSteps(utf8: Utf8, payload: bytes)
    ensures Unpacked(utf8, RegisterShape, payload) ==
      match ParseText(utf8, payload)
      case None => None
      case Some(a) =>
        if a.rest == [] then Some(Register(a.value)) else None
  {
    assert Kinds(RegisterShape) == [TextKind];
    Parse1(utf8, TextKind, payload);
  }

  method UnpackRegister(utf8: Utf8, payload: bytes) returns (r: Option<Message>)
    ensures r == Unpacked(utf8, RegisterShape, payload)
  {
    RegisterSteps(utf8, payload);
    var reader := new Reader(payload);
    var identifier := reader.Text(utf8);
    if identifier.None? { return None; }
    var end := reader.Eof();
    return if end then Some(Register(identifier.value)) else None;
  }

  lemma RegisterResultSteps(utf8: Utf8, payload: bytes)
    ensures Unpacked(utf8, RegisterResultShape, payload) ==
      match ParseBoolean(payload)
      case None => None
      case Some(a) =>
        match ParseText(utf8, a.rest)
        case None => None
        case Some(b) =>
          if b.rest == [] then Some(RegisterResult(a.value, b.value)) else None
  {
    Fields2(utf8, RegisterResultShape, FlagKind, TextKind, payload);
  }

  method UnpackRegisterResult(utf8: Utf8, payload: bytes) returns (r: Option<Message>)
    ensures r == Unpacked(utf8, RegisterResultShape, payload)
  {
    RegisterResultSteps(utf8, payload);
    var reader := new Reader(payload);
    var ok := reader.Boolean();
    if ok.None? { return None; }
    var text := reader.Text(utf8);
    if text.None? { return None; }
    var end := reader.Eof();
    return if end then Some(RegisterResult(ok.value, text.value)) else None;
  }

  lemma AuthRequestSteps(utf8: Utf8, payload: bytes)
    ensures Unpacked(utf8, AuthRequestShape, payload) ==
      match ParseUint32(payload)
      case None => None
      case Some(a) =>
        match ParseText(utf8, a.rest)
        case None => None
        case Some(b) =>
          match ParseText(utf8, b.rest)
          case None => None
          case Some(c) =>
            match ParseString(c.rest)
            case None => None
            case Some(d) =>
              if d.rest == [] then Some(AuthRequest(a.value, b.value, c.value, d.value)) else None
  {
    Fields4(utf8, AuthRequestShape, NumberKind, TextKind, TextKind, BlobKind, payload);
  }

  method UnpackAuthRequest(utf8: Utf8, payload: bytes) returns (r: Option<Message>)
    ensures r == Unpacked(utf8, AuthRequestShape, payload)
  {
    AuthRequestSteps(utf8, payload);
    var reader := new Reader(payload);
    var authId := reader.Uint32();
    if authId.None? { return None; }
    var username := reader.Text(utf8);
    if username.None? { return None; }
    var fingerprint := reader.Text(utf8);
    if fingerprint.None? { return None; }
    var keyBlob := reader.String();
    if keyBlob.None? { return None; }
    var end := reader.Eof();
    return if end then Some(AuthRequest(authId.value, username.value, fingerprint.value, keyBlob.value)) else None;
  }

  lemma AuthResponseSteps(utf8: Utf8, payload: bytes)
    ensures Unpacked(utf8, AuthResponseShape, payload) ==
      match ParseUint32(payload)
      case None => None
      case Some(a) =>
        match ParseBoolean(a.rest)
        case None => None
        case Some(b) =>
          match ParseBoolean(b.rest)
          case None => None
          case Some(c) =>
            if c.rest == [] then Some(AuthResponse(a.value, b.value, c.value)) else None
  {
    Fields3(utf8, AuthResponseShape, NumberKind, FlagKind, FlagKind, payload);
  }

  method UnpackAuthResponse(utf8: Utf8, payload: bytes) returns (r: Option<Message>)
    ensures r == Unpacked(utf8, AuthResponseShape, payload)
  {
    AuthResponseSteps(utf8, payload);
    var reader := new Reader(payload);
    var authId := reader.Uint32();
    if authId.None? { return None; }
    var ok := reader.Boolean();
    if ok.None? { return None; }
    var persist := reader.Boolean();
    if persist.None? { return None; }
    var end := reader.Eof();
    return if end then Some(AuthResponse(authId.value, ok.value, persist.value)) else None;
  }

  lemma OpenChannelSteps(utf8: Utf8, payload: bytes)
    ensures Unpacked(utf8, OpenChannelShape, payload) ==
      match ParseUint32(payload)
      case None => None
      case Some(a) =>
        match ParseText(utf8, a.rest)
        case None => None
        case Some(b) =>
          match ParseText(utf8, b.rest)
          case None => None
          case Some(c) =>
            if c.rest == [] then Some(OpenChannel(a.value, b.value, c.value)) else None
  {
    Fields3(utf8, OpenChannelShape, NumberKind, TextKind, TextKind, payload);
  }

  method UnpackOpenChannel(utf8: Utf8, payload: bytes) returns (r: Option<Message>)
    ensures r == Unpacked(utf8, OpenChannelShape, payload)
  {
    OpenChannelSteps(utf8, payload);
    var reader := new Reader(payload);
    var channelId := reader.Uint32();
    if channelId.None? { return None; }
    var kind := reader.Text(utf8);
    if kind.None? { return None; }
    var extraJson := reader.Text(utf8);
    if extraJson.None? { return None; }
    var end := reader.Eof();
    return if end then Some(OpenChannel(channelId.value, kind.value, extraJson.value)) else None;
  }

  lemma OpenConfirmSteps(utf8: Utf8, payload: bytes)
    ensures Unpacked(utf8, OpenConfirmShape, payload) ==
      match ParseUint32(payload)
      case None => None
      case Some(a) =>
        match ParseBoolean(a.rest)
        case None => None
        case Some(b) =>
          match ParseText(utf8, b.rest)
          case None => None
          case Some(c) =>
            if c.rest == [] then Some(OpenConfirm(a.value, b.value, c.value)) else None
  {
    Fields3(utf8, OpenConfirmShape, NumberKind, FlagKind, TextKind, payload);
  }

  method UnpackOpenConfirm(utf8: Utf8, payload: bytes) returns (r: Option<Message>)
    ensures r == Unpacked(utf8, OpenConfirmShape, payload)
  {
    OpenConfirmSteps(utf8, payload);
    var reader := new Reader(payload);
    var channelId := reader.Uint32();
    if channelId.None? { return None; }
    var ok := reader.Boolean();
    if ok.None? { return None; }
    var text := reader.Text(utf8);
    if text.None? { return None; }
    var end := reader.Eof();
    return if end then Some(OpenConfirm(channelId.value, ok.value, text.value)) else None;
  }

  lemma ChannelDataSteps(utf8: Utf8, payload: bytes)
    ensures Unpacked(utf8, ChannelDataShape, payload) ==
      match ParseUint32(payload)
      case None => None
      case Some(a) =>
        match ParseString(a.rest)
        case None => None
        case Some(b) =>
          if b.rest == [] then Some(ChannelData(a.value, b.value)) else None
  {
    Fields2(utf8, ChannelDataShape, NumberKind, BlobKind, payload);
  }

  method UnpackChannelData(utf8: Utf8, payload: bytes) returns (r: Option<Message>)
    ensures r == Unpacked(utf8, ChannelDataShape, payload)
  {
    ChannelDataSteps(utf8, payload);
    var reader := new Reader(payload);
    var channelId := reader.Uint32();
    if channelId.None? { return None; }
    var data := reader.String();
    if data.None? { return None; }
    var end := reader.Eof();
    return if end then Some(ChannelData(channelId.value, data.value)) else None;
  }

  lemma ChannelIdSteps(utf8: Utf8, payload: bytes)
    ensures Unpacked(utf8, ChannelIdShape, payload) ==
      match ParseUint32(payload)
      case None => None
      case Some(a) =>
        if a.rest == [] then Some(ChannelId(a.value)) else None
  {
    assert Kinds(ChannelIdShape) == [NumberKind];
    Parse1(utf8, NumberKind, payload);
  }

  method UnpackChannelId(utf8: Utf8, payload: bytes) returns (r: Option<Message>)
    ensures r == Unpacked(utf8, ChannelIdShape, payload)
  {
    ChannelIdSteps(utf8, payload);
    var reader := new Reader(payload);
    var channelId := reader.Uint32();
    if channelId.None? { return None; }
    var end := reader.Eof();
    return if end then Some(ChannelId(channelId.value)) else None;
  }

  lemma ChannelRequestSteps(utf8: Utf8, payload: bytes)
    ensures Unpacked(utf8, ChannelRequestShape, payload) ==
      match ParseUint32(payload)
      case None => None
      case Some(a) =>
        match ParseText(utf8, a.rest)
        case None => None
        case Some(b) =>
          match ParseBoolean(b.rest)
          case None => None
          case Some(c) =>
            match ParseString(c.rest)
            case None => None
            case Some(d) =>
              if d.rest == [] then Some(ChannelRequest(a.value, b.value, c.value, d.value)) else None
  {
    Fields4(utf8, ChannelRequestShape, NumberKind, TextKind, FlagKind, BlobKind, payload);
  }

  method UnpackChannelRequest(utf8: Utf8, payload: bytes) returns (r: Option<Message>)
    ensures r == Unpacked(utf8, ChannelRequestShape, payload)
  {
    ChannelRequestSteps(utf8, payload);
    var reader := new Reader(payload);
    var channelId := reader.Uint32();
    if channelId.None? { return None; }
    var request := reader.Text(utf8);
    if request.None? { return None; }
    var wantReply := reader.Boolean();
    if wantReply.None? { return None; }
    var requestPayload := reader.String();
    if requestPayload.None? { return None; }
    var end := reader.Eof();
    return if end then Some(ChannelRequest(channelId.value, request.value, wantReply.value, requestPayload.value)) else None;
  }

  lemma ExtendedDataSteps(utf8: Utf8, payload: bytes)
    ensures Unpacked(utf8, ExtendedDataShape, payload) ==
      match ParseUint32(payload)
      case None => None
      case Some(a) =>
        match ParseUint32(a.rest)
        case None => None
        case Some(b) =>
          match ParseString(b.rest)
          case None => None
          case Some(c) =>
            if c.rest == [] then Some(ExtendedData(a.value, b.value, c.value)) else None
  {
    Fields3(utf8, ExtendedDataShape, NumberKind, NumberKind, BlobKind, payload);
  }

  method UnpackExtendedData(utf8: Utf8, payload: bytes) returns (r: Option<Message>)
    ensures r == Unpacked(utf8, ExtendedDataShape, payload)
  {
    ExtendedDataSteps(utf8, payload);
    var reader := new Reader(payload);
    var channelId := reader.Uint32();
    if channelId.None? { return None; }
    var dataType := reader.Uint32();
    if dataType.None? { return None; }
    var data := reader.String();
    if data.None? { return None; }
    var end := reader.Eof();
    return if end then Some(ExtendedData(channelId.value, dataType.value, data.value)) else None;
  }

  // The unpack function for a shape: it returns the one message that packs to the payload, and
  // fails when there is none.
  method Unpack(utf8: Utf8, shape: Shape, payload: bytes) returns (r: Option<Message>)
    ensures r.Some? ==> ShapeOf(r.value) == shape && Textual(utf8, r.value) && Pack(r.value) == Some(payload)
    ensures r.None? ==> forall m :: ShapeOf(m) == shape && Textual(utf8, m) ==> Pack(m) != Some(payload)
  {
    match shape {
      case RegisterShape => r := UnpackRegister(utf8, payload);
      case RegisterResultShape => r := UnpackRegisterResult(utf8, payload);
      case AuthRequestShape => r := UnpackAuthRequest(utf8, payload);
      case AuthResponseShape => r := UnpackAuthResponse(utf8, payload);
      case OpenChannelShape => r := UnpackOpenChannel(utf8, payload);
      case OpenConfirmShape => r := UnpackOpenConfirm(utf8, payload);
      case ChannelDataShape => r := UnpackChannelData(utf8, payload);
      case ChannelIdShape => r := UnpackChannelId(utf8, payload);
      case ChannelRequestShape => r := UnpackChannelRequest(utf8, payload);
      case ExtendedDataShape => r := UnpackExtendedData(utf8, payload);
    }
    forall m: Message
      ensures r == Some(m) <==> ShapeOf(m) == shape && Textual(utf8, m) && Pack(m) == Some(payload)
    {
      UnpackedInverse(utf8, shape, payload, m);
    }
  }

  // ----------------------------------------------------------- OPEN_CHANNEL

  // unpack_open_channel, with the JSON reader as a parameter.
  function UnpackedOpening<X>(utf8: Utf8, loads: bytes -> Option<X>, payload: bytes): Option<(nat, bytes, X)> {
    match Unpacked(utf8, OpenChannelShape, payload)
    case Some(OpenChannel(channelId, kind, extra)) =>
      (match loads(extra)
       case Some(x) => Some((channelId, kind, x))
       case None => None)
    case _ => None
  }

  // Whatever the JSON reader and writer are, as long as the one undoes the other: what
  // pack_open_channel was given is what unpack_open_channel returns, and it returns nothing else.
  lemma OpeningInverse<X>(utf8: Utf8, dumps: X -> bytes, loads: bytes -> Option<X>, channelId: nat, kind: bytes, extra: X, payload: bytes)
    requires loads(dumps(extra)) == Some(extra) && utf8(kind) && utf8(dumps(extra))
    ensures Pack(OpenChannel(channelId, kind, dumps(extra))) == Some(payload) ==>
      UnpackedOpening(utf8, loads, payload) == Some((channelId, kind, extra))
    ensures UnpackedOpening(utf8, loads, payload) == Some((channelId, kind, extra)) ==>
      exists text :: loads(text) == Some(extra) && Pack(OpenChannel(channelId, kind, text)) == Some(payload)
  {
    UnpackedInverse(utf8, OpenChannelShape, payload, OpenChannel(channelId, kind, dumps(extra)));
    var m := Unpacked(utf8, OpenChannelShape, payload);
    if m.Some? { UnpackedInverse(utf8, OpenChannelShape, payload, m.value); }
  }
}
