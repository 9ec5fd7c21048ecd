/** The SSH wire encodings of ssh_encoding.py (section 5 of RFC 4251): encoders, the Reader
    class, and generic record formats whose packing and parsing undo each other.

    A Python str is represented by its UTF-8 bytes.  Which byte strings are valid UTF-8 is
    decided by a parameter `utf8`. */
module SshEncoding {
  import opened Wrappers
  import opened NumberTheory
  import opened Bits

  type Utf8 = bytes -> bool

  const LIMIT_32: nat := 0x1_0000_0000
  const LIMIT_64: nat := 0x1_0000_0000_0000_0000

  // -------------------------------------------------------------- encoders

  function Uint32(value: int): Option<bytes> {
    if 0 <= value < LIMIT_32 then Some(ToBE(value, 4)) else None
  }

  function Uint64(value: int): Option<bytes> {
    if 0 <= value < LIMIT_64 then Some(ToBE(value, 8)) else None
  }

  function Boolean(value: bool): bytes {
    if value then [1] else [0]
  }

  function String(value: bytes): Option<bytes> {
    match Uint32(|value|)
    case None => None
    case Some(length) => Some(length + value)
  }

  // Appending fields, any of which may be out of range.
  function Join(a: Option<bytes>, b: Option<bytes>): Option<bytes> {
    if a.Some? && b.Some? then Some(a.value + b.value) else None
  }

  function BitLength(n: nat): nat {
    if n == 0 then 0 else 1 + BitLength(n / 2)
  }

  function MpintBytes(value: nat): bytes
    requires value > 0
  {
    var raw := ToBE(value, (BitLength(value) + 7) / 8);
    if raw != [] && raw[0] >= 128 then [0] + raw else raw
  }

  function Mpint(value: int): Option<bytes> {
    if value == 0 then Uint32(0)
    else if value < 0 then None
    else String(MpintBytes(value))
  }

  function JoinNames(names: seq<bytes>): bytes {
    if names == [] then []
    else if |names| == 1 then names[0]
    else names[0] + [COMMA] + JoinNames(names[1..])
  }

  const COMMA: byte := 44

  function NameList(names: seq<bytes>): Option<bytes> {
    String(JoinNames(names))
  }

  // --------------------------------------------------------------- parsing

  // A value and what is left of the input behind it.
  datatype Parsed<+T> = Parsed(value: T, rest: bytes)

  function ParseTake(s: bytes, size: nat): Option<Parsed<bytes>> {
    if size <= |s| then Some(Parsed(s[..size], s[size..])) else None
  }

  function ParseByte(s: bytes): Option<Parsed<byte>> {
    if s == [] then None else Some(Parsed(s[0], s[1..]))
  }

  function ParseBoolean(s: bytes): Option<Parsed<bool>> {
    if s == [] || s[0] > 1 then None else Some(Parsed(s[0] == 1, s[1..]))
  }

  function ParseUint32(s: bytes): Option<Parsed<nat>> {
    if |s| < 4 then None else Some(Parsed(BE(s[..4]), s[4..]))
  }

  function ParseUint64(s: bytes): Option<Parsed<nat>> {
    if |s| < 8 then None else Some(Parsed(BE(s[..8]), s[8..]))
  }

  function ParseString(s: bytes): Option<Parsed<bytes>> {
    match ParseUint32(s)
    case None => None
    case Some(n) => ParseTake(n.rest, n.value)
  }

  function ParseText(utf8: Utf8, s: bytes): Option<Parsed<bytes>> {
    match ParseString(s)
    case None => None
    case Some(t) => if utf8(t.value) then Some(t) else None
  }

  function ParseMpint(s: bytes): Option<Parsed<nat>> {
    match ParseString(s)
    case None => None
    case Some(t) =>
      if t.value == [] then Some(Parsed(0, t.rest))
      else if t.value[0] >= 128 then None
      else Some(Parsed(BE(t.value), t.rest))
  }

  function SplitNames(s: bytes): (r: seq<bytes>)
    ensures |r| >= 1
  {
    if s == [] then [[]]
    else
      var r := SplitNames(s[1..]);
      if s[0] == COMMA then [[]] + r else [[s[0]] + r[0]] + r[1..]
  }

  function ParseNameList(utf8: Utf8, s: bytes): Option<Parsed<seq<bytes>>> {
    match ParseString(s)
    case None => None
    case Some(t) =>
      if t.value == [] then Some(Parsed([], t.rest))
      else if utf8(t.value) then Some(Parsed(SplitNames(t.value), t.rest))
      else None
  }

  // ---------------------------------------------------------------- Reader

  class Reader {
    const data: bytes
    var offset: nat

    ghost predicate Valid()
      reads this
    {
      offset <= |data|
    }

    // What has not been read yet.
    ghost function Rest(): bytes
      reads this
      requires Valid()
    {
      data[offset..]
    }

    constructor (data: bytes)
      ensures Valid() && Rest() == data && this.data == data
    {
      this.data := data;
      offset := 0;
    }

    // A successful read consumes exactly what its parser consumes.
    ghost predicate Reads<T>(parsed: Option<Parsed<T>>, result: Option<T>)
      reads this
    {
      && Valid()
      && match parsed {
           case None => result == None
           case Some(p) => result == Some(p.value) && Rest() == p.rest
         }
    }

    method Take(size: int) returns (out: Option<bytes>)
      requires Valid()
      modifies this
      ensures size >= 0 ==> Reads(ParseTake(old(Rest()), size), out)
      ensures size < 0 ==> out == None && Valid() && Rest() == old(Rest())
    {
      if size < 0 || offset + size > |data| {
        return None;
      }
      out := Some(data[offset..offset + size]);
      assert data[offset..][..size] == data[offset..offset + size];
      assert data[offset..][size..] == data[offset + size..];
      offset := offset + size;
    }

    method Byte() returns (value: Option<byte>)
      requires Valid()
      modifies this
      ensures Reads(ParseByte(old(Rest())), value)
    {
      var raw := Take(1);
      if raw.None? { return None; }
      return Some(raw.value[0]);
    }

    method Boolean() returns (value: Option<bool>)
      requires Valid()
      modifies this
      ensures Reads(ParseBoolean(old(Rest())), value)
    {
      var b := Byte();
      if b.None? { return None; }
      if b.value != 0 && b.value != 1 { return None; }
      return Some(b.value == 1);
    }

    method Uint32() returns (value: Option<nat>)
      requires Valid()
      modifies this
      ensures Reads(ParseUint32(old(Rest())), value)
    {
      var raw := Take(4);
      if raw.None? { return None; }
      return Some(BE(raw.value));
    }

    method Uint64() returns (value: Option<nat>)
      requires Valid()
      modifies this
      ensures Reads(ParseUint64(old(Rest())), value)
    {
      var raw := Take(8);
      if raw.None? { return None; }
      return Some(BE(raw.value));
    }

    method String() returns (value: Option<bytes>)
      requires Valid()
      modifies this
      ensures Reads(ParseString(old(Rest())), value)
    {
      var size := Uint32();
      if size.None? { return None; }
      value := Take(size.value);
    }

    method Text(utf8: Utf8) returns (value: Option<bytes>)
      requires Valid()
      modifies this
      ensures Reads(ParseText(utf8, old(Rest())), value)
    {
      var raw := String();
      if raw.None? || !utf8(raw.value) { return None; }
      return raw;
    }

    method NameList(utf8: Utf8) returns (value: Option<seq<bytes>>)
      requires Valid()
      modifies this
      ensures Reads(ParseNameList(utf8, old(Rest())), value)
    {
      var raw := String();
      if raw.None? { return None; }
      if raw.value == [] { return Some([]); }
      if !utf8(raw.value) { return None; }
      return Some(SplitNames(raw.value));
    }

    method Mpint() returns (value: Option<nat>)
      requires Valid()
      modifies this
      ensures Reads(ParseMpint(old(Rest())), value)
    {
      var raw := String();
      if raw.None? { return None; }
      if raw.value == [] { return Some(0); }
      if raw.value[0] >= 128 { return None; }
      return Some(BE(raw.value));
    }

    method Eof() returns (ok: bool)
      requires Valid()
      ensures ok <==> Rest() == []
    {
      ok := |data| - offset == 0;
    }
  }

  // --------------------------------------------------------- integers, names

  lemma Uint32Bytes(n: nat)
    requires n < LIMIT_32
    ensures BE(ToBE(n, 4)) == n
  {
    Pow2Sizes();
    BEToBE(n, 4);
  }

  // BE of four bytes is below 2^32, and encodes back to the same bytes.
  lemma Uint32Back(s: bytes)
    requires |s| == 4
    ensures BE(s) < LIMIT_32 && ToBE(BE(s), 4) == s
  {
    Pow2Sizes();
    ToBEBE(s);
  }

  lemma {:induction false} BitLengthBounds(n: nat)
    requires n > 0
    ensures BitLength(n) > 0 && Pow2(BitLength(n) - 1) <= n < Pow2(BitLength(n))
  {
    if n > 1 { BitLengthBounds(n / 2); }
  }

  // The number of bytes that mpint computes from the bit length is enough.
  lemma BytesSuffice(n: nat)
    requires n > 0
    ensures n < Pow2(8 * ((BitLength(n) + 7) / 8)) && (BitLength(n) + 7) / 8 > 0
  {
    BitLengthBounds(n);
    Pow2Mono(BitLength(n), 8 * ((BitLength(n) + 7) / 8));
  }

  lemma {:induction false} BELeadingZero(s: bytes)
    ensures BE([0] + s) == BE(s)
  {
    if s == [] {
      assert [0] + s == [0] && [0][..0] == [];
    } else {
      BELeadingZero(s[..|s| - 1]);
      assert ([0] + s)[..|s|] == [0] + s[..|s| - 1];
    }
  }

  lemma {:induction false} BELeadingByte(s: bytes)
    requires s != []
    ensures BE(s) >= s[0] * Pow2(8 * (|s| - 1))
  {
    if |s| == 1 {
      assert s[..0] == [];
      assert BE(s) == s[0];
    } else {
      BELeadingByte(s[..|s| - 1]);
      Pow256Step(|s| - 1);
      LeadRing(s[0], Pow2(8 * (|s| - 2)));
    }
  }

  lemma LeadRing(a: int, p: int)
    ensures 256 * (a * p) == a * (256 * p)
  {}

  // The minimal big-endian form: no leading zero byte unless the next byte has its top bit set.
  predicate Minimal(raw: bytes) {
    raw == [] || (raw[0] < 128 && (raw[0] == 0 ==> |raw| > 1 && raw[1] >= 128))
  }

  lemma MpintBytesMinimal(n: nat)
    requires n > 0
    ensures var raw := MpintBytes(n); raw != [] && Minimal(raw) && BE(raw) == n
  {
    var size := (BitLength(n) + 7) / 8;
    BytesSuffice(n);
    var raw := ToBE(n, size);
    BEToBE(n, size);
    BELeadingZero(raw);
    if raw[0] == 0 {
      LeadingZeroBound(raw);
      BitLengthBounds(n);
      Pow2Mono(8 * (size - 1), BitLength(n) - 1);
    }
  }

  lemma LeadingZeroBound(s: bytes)
    requires s != [] && s[0] == 0
    ensures BE(s) < Pow2(8 * (|s| - 1))
  {
    assert s == [0] + s[1..];
    BELeadingZero(s[1..]);
    ToBEBE(s[1..]);
  }

  // Reading what mpint wrote gives the number back, whatever follows.
  lemma MpintRoundTrip(n: nat, rest: bytes)
    requires Mpint(n).Some?
    ensures ParseMpint(Mpint(n).value + rest) == Some(Parsed(n, rest))
  {
    var raw := if n == 0 then [] else MpintBytes(n);
    if n == 0 {
      assert Mpint(0) == Uint32(0) && Uint32(0).value + [] == Uint32(0).value;
    } else {
      MpintBytesMinimal(n);
    }
    StringRoundTrip(raw, rest);
  }

  lemma StringRoundTrip(value: bytes, rest: bytes)
    requires |value| < LIMIT_32
    ensures String(value).Some?
    ensures ParseString(String(value).value + rest) == Some(Parsed(value, rest))
  {
    var head := ToBE(|value|, 4);
    Uint32Bytes(|value|);
    var s := head + value + rest;
    assert s[..4] == head && s[4..] == value + rest;
    assert (value + rest)[..|value|] == value && (value + rest)[|value|..] == rest;
  }

  // A string is read only from its own encoding.
  lemma StringReadIsWritten(s: bytes)
    requires ParseString(s).Some?
    ensures var p := ParseString(s).value; String(p.value).Some? && String(p.value).value + p.rest == s
  {
    var n := BE(s[..4]);
    Uint32Back(s[..4]);
    assert s == s[..4] + (s[4..][..n] + s[4..][n..]);
  }

  // mpint writes back a number that was read exactly when its bytes were minimal: the reader
  // also accepts padded forms.
  lemma MpintReadBack(raw: bytes)
    requires |raw| < LIMIT_32 && (raw == [] || raw[0] < 128)
    ensures Mpint(BE(raw)) == String(raw) <==> Minimal(raw)
  {
    if BE(raw) == 0 { ZeroReadBack(raw); } else { PositiveReadBack(raw, BE(raw)); }
  }

  lemma ZeroReadBack(raw: bytes)
    requires |raw| < LIMIT_32 && BE(raw) == 0
    ensures Uint32(0) == String(raw) <==> Minimal(raw)
  {
    if raw == [] {
      assert ToBE(0, 4) + [] == ToBE(0, 4);
    } else {
      ZeroIsNotMinimal(raw);
      assert |String(raw).value| == 4 + |raw|;
    }
  }

  lemma PositiveReadBack(raw: bytes, n: nat)
    requires |raw| < LIMIT_32 && n > 0 && n == BE(raw) && (raw == [] || raw[0] < 128)
    ensures String(MpintBytes(n)) == String(raw) <==> Minimal(raw)
  {
    MpintBytesMinimal(n);
    var raw' := MpintBytes(n);
    if Minimal(raw) { MinimalUnique(raw, raw'); }
    if String(raw') == String(raw) { StringInjective(raw, raw'); }
  }

  lemma ZeroIsNotMinimal(raw: bytes)
    requires raw != [] && BE(raw) == 0
    ensures !Minimal(raw)
  {
    BELeadingByte(raw);
    if raw[0] > 0 { PositiveProduct(raw[0], Pow2(8 * (|raw| - 1))); }
    if raw[0] == 0 && |raw| > 1 && raw[1] >= 128 { TwoByteLead(raw); }
  }

  lemma PositiveProduct(a: int, p: int)
    requires a > 0 && p > 0
    ensures a * p > 0
  {}

  lemma TwoByteLead(raw: bytes)
    requires |raw| > 1 && raw[0] == 0 && raw[1] >= 128
    ensures BE(raw) > 0
  {
    assert raw == [0] + raw[1..];
    BELeadingZero(raw[1..]);
    BELeadingByte(raw[1..]);
    PositiveProduct(raw[1], Pow2(8 * (|raw| - 2)));
  }

  lemma StringInjective(a: bytes, b: bytes)
    requires |a| < LIMIT_32 && String(a) == String(b)
    ensures a == b
  {
    assert |String(a).value| == 4 + |a| && |String(b).value| == 4 + |b|;
    StringRoundTrip(a, []);
    StringRoundTrip(b, []);
  }

  // The bytes of a minimal form without its sign byte.
  function Stripped(raw: bytes): bytes {
    if raw != [] && raw[0] == 0 then raw[1..] else raw
  }

  lemma MinimalUnique(a: bytes, b: bytes)
    requires Minimal(a) && Minimal(b) && BE(a) == BE(b) && a != [] && b != []
    ensures a == b
  {
    StrippedSame(a);
    StrippedSame(b);
    LeadingUnique(Stripped(a), Stripped(b));
    Restored(a);
    Restored(b);
  }

  lemma Restored(a: bytes)
    requires a != []
    ensures a == if a[0] == 0 then [0] + Stripped(a) else Stripped(a)
  {}

  lemma LeadingUnique(a: bytes, b: bytes)
    requires a != [] && b != [] && a[0] > 0 && b[0] > 0 && BE(a) == BE(b)
    ensures a == b
  {
    if |a| < |b| { ShorterIsSmaller(a, b); }
    if |b| < |a| { ShorterIsSmaller(b, a); }
    ToBEBE(a);
    ToBEBE(b);
  }

  lemma StrippedSame(a: bytes)
    requires Minimal(a) && a != []
    ensures Stripped(a) != [] && Stripped(a)[0] > 0 && BE(Stripped(a)) == BE(a)
    ensures a[0] == 0 <==> Stripped(a)[0] >= 128
  {
    if a[0] == 0 {
      assert a == [0] + a[1..];
      BELeadingZero(a[1..]);
    }
  }

  lemma ShorterIsSmaller(a: bytes, b: bytes)
    requires |a| < |b| && b[0] > 0
    ensures BE(a) < BE(b)
  {
    ToBEBE(a);
    BELeadingByte(b);
    Pow2Mono(8 * |a|, 8 * (|b| - 1));
    MulMono(Pow2(8 * (|b| - 1)), 1, b[0]);
  }

  // No name contains a comma, and the list is not the one-element list of the empty name.
  predicate Listable(names: seq<bytes>) {
    && (forall k :: 0 <= k < |names| ==> COMMA !in names[k])
    && names != [[]]
  }

  lemma {:induction false} SplitPlain(name: bytes, tail: bytes)
    requires COMMA !in name
    ensures var r := SplitNames(tail); SplitNames(name + tail) == [name + r[0]] + r[1..]
  {
    var r := SplitNames(tail);
    if name == [] {
      assert name + tail == tail && name + r[0] == r[0];
    } else {
      SplitPlain(name[1..], tail);
      assert (name + tail)[1..] == name[1..] + tail;
      assert COMMA !in name[1..];
      assert [name[0]] + (name[1..] + r[0]) == name + r[0];
    }
  }

  lemma {:induction false} SplitJoined(names: seq<bytes>)
    requires names != [] && forall k :: 0 <= k < |names| ==> COMMA !in names[k]
    ensures SplitNames(JoinNames(names)) == names
  {
    if |names| == 1 {
      SplitPlain(names[0], []);
      assert names[0] + [] == names[0];
    } else {
      SplitJoined(names[1..]);
      var tail := JoinNames(names[1..]);
      var behind := [COMMA] + tail;
      assert behind[1..] == tail;
      SplitPlain(names[0], behind);
      assert names[0] + [COMMA] + tail == names[0] + behind;
      assert names[0] + [] == names[0];
    }
  }

  lemma {:induction false} SplitsHaveNoComma(s: bytes)
    ensures forall k :: 0 <= k < |SplitNames(s)| ==> COMMA !in SplitNames(s)[k]
  {
    if s != [] { SplitsHaveNoComma(s[1..]); }
  }

  // A name list comes back exactly when it is listable.
  lemma NameListRoundTrip(utf8: Utf8, names: seq<bytes>, rest: bytes)
    requires NameList(names).Some? && utf8(JoinNames(names))
    ensures ParseNameList(utf8, NameList(names).value + rest) == Some(Parsed(names, rest)) <==> Listable(names)
  {
    var joined := JoinNames(names);
    StringRoundTrip(joined, rest);
    SplitsHaveNoComma(joined);
    if Listable(names) && names != [] {
      SplitJoined(names);
    }
  }
}
