/** Cutting a byte stream into items, one after the other, for any function that cuts off the
    first item.  Used for WebSocket frames, private protocol frames and SFTP packets. */
module Framing {
  import opened Wrappers
  import opened Bits

  datatype Cut<+T> = Cut(item: T, rest: bytes)

  type Cutter<T> = bytes -> Option<Cut<T>>

  // Every item takes at least one byte.
  ghost predicate Shrinks<T>(first: Cutter<T>) {
    forall w: bytes {:trigger first(w)} :: first(w).Some? ==> |first(w).value.rest| < |w|
  }

  // A complete first item is not changed by what arrives behind it.
  ghost predicate Stable<T>(first: Cutter<T>) {
    forall w: bytes, more: bytes {:trigger first(w + more)} ::
      first(w).Some? ==> first(w + more) == Some(Cut(first(w).value.item, first(w).value.rest + more))
  }

  // The complete items, ...
  ghost function Items<T>(first: Cutter<T>, w: bytes): seq<T>
    requires Shrinks(first)
    decreases |w|
  {
    match first(w)
    case None => []
    case Some(cut) => [cut.item] + Items(first, cut.rest)
  }

  // ... and the bytes behind the last of them.
  ghost function Leftover<T>(first: Cutter<T>, w: bytes): bytes
    requires Shrinks(first)
    decreases |w|
  {
    match first(w)
    case None => w
    case Some(cut) => Leftover(first, cut.rest)
  }

  // Cutting in two steps: what arrives later continues from the leftover of what came before.
  lemma {:induction false} ItemsAppend<T>(first: Cutter<T>, w: bytes, more: bytes)
    requires Shrinks(first) && Stable(first)
    ensures Items(first, w + more) == Items(first, w) + Items(first, Leftover(first, w) + more)
    ensures Leftover(first, w + more) == Leftover(first, Leftover(first, w) + more)
    decreases |w|
  {
    match first(w) {
      case None =>
      case Some(cut) =>
        assert first(w + more) == Some(Cut(cut.item, cut.rest + more));
        ItemsAppend(first, cut.rest, more);
    }
  }

  // Adding one complete item behind complete items.
  lemma ItemsSnoc<T>(first: Cutter<T>, w: bytes, last: bytes, item: T)
    requires Shrinks(first) && Stable(first)
    requires Leftover(first, w) == [] && first(last) == Some(Cut(item, [])) && first([]) == None
    ensures Items(first, w + last) == Items(first, w) + [item] && Leftover(first, w + last) == []
  {
    ItemsAppend(first, w, last);
    assert [] + last == last;
    assert Items(first, []) == [] && Leftover(first, []) == [];
  }

  // These items, cut off one after the other, leave this rest.
  ghost predicate CutsTo<T(!new)>(first: Cutter<T>, w: bytes, items: seq<T>, rest: bytes)
    decreases items
  {
    if items == [] then w == rest
    else first(w).Some? && first(w).value.item == items[0] && CutsTo(first, first(w).value.rest, items[1..], rest)
  }

  lemma {:induction false} CutsSnoc<T(!new)>(first: Cutter<T>, w: bytes, items: seq<T>, mid: bytes, item: T, rest: bytes)
    requires CutsTo(first, w, items, mid) && first(mid) == Some(Cut(item, rest))
    ensures CutsTo(first, w, items + [item], rest)
    decreases items
  {
    if items == [] {
      assert ([] + [item])[1..] == [];
    } else {
      assert (items + [item])[1..] == items[1..] + [item];
      CutsSnoc(first, first(w).value.rest, items[1..], mid, item, rest);
    }
  }

  // What is cut off encoded items is their beginning, and the rest are the others.
  lemma {:induction false} CutsOfEncoded<T(!new)>(first: Cutter<T>, encode: T -> bytes, items: seq<T>, got: seq<T>, rest: bytes)
    requires first([]) == None && forall i :: 0 <= i < |items| ==> Undoes(first, encode, items[i])
    requires CutsTo(first, EncodeAll(encode, items), got, rest)
    ensures got <= items && rest == EncodeAll(encode, items[|got|..])
    decreases items
  {
    if got == [] {
      assert items[0..] == items;
    } else {
      var more := EncodeAll(encode, items[1..]);
      assert Undoes(first, encode, items[0]);
      assert first(encode(items[0]) + more) == Some(Cut(items[0], more));
      CutsOfEncoded(first, encode, items[1..], got[1..], rest);
      assert items == [items[0]] + items[1..] && got == [got[0]] + got[1..];
      assert items[1..][|got[1..]|..] == items[|got|..];
    }
  }

  // The cutter gives back an encoded item, whatever stands behind it.
  ghost predicate Undoes<T>(first: Cutter<T>, encode: T -> bytes, item: T) {
    forall more: bytes {:trigger first(encode(item) + more)} :: first(encode(item) + more) == Some(Cut(item, more))
  }

  // Encodings that the cutter undoes survive concatenation: the items come back in order.
  lemma {:induction false} ItemsOfEncoded<T>(first: Cutter<T>, encode: T -> bytes, items: seq<T>, rest: bytes)
    requires Shrinks(first) && forall i :: 0 <= i < |items| ==> Undoes(first, encode, items[i])
    ensures Items(first, EncodeAll(encode, items) + rest) == items + Items(first, rest)
    ensures Leftover(first, EncodeAll(encode, items) + rest) == Leftover(first, rest)
    decreases |items|
  {
    if items == [] {
      assert [] + rest == rest;
    } else {
      var tail := items[1..];
      ItemsOfEncoded(first, encode, tail, rest);
      var more := EncodeAll(encode, tail) + rest;
      assert EncodeAll(encode, items) + rest == encode(items[0]) + more;
      assert Undoes(first, encode, items[0]);
      assert first(encode(items[0]) + more) == Some(Cut(items[0], more));
      assert items == [items[0]] + tail;
    }
  }

  function EncodeAll<T>(encode: T -> bytes, items: seq<T>): bytes {
    if items == [] then [] else encode(items[0]) + EncodeAll(encode, items[1..])
  }

  lemma {:induction false} EncodeAllSnoc<T>(encode: T -> bytes, items: seq<T>, item: T)
    ensures EncodeAll(encode, items + [item]) == EncodeAll(encode, items) + encode(item)
  {
    if items == [] {
      assert ([item])[1..] == [];
      assert items + [item] == [item];
    } else {
      EncodeAllSnoc(encode, items[1..], item);
      assert (items + [item])[1..] == items[1..] + [item];
    }
  }

  // Pieces of a byte stream, put together.
  function Concat(pieces: seq<bytes>): bytes {
    if pieces == [] then [] else pieces[0] + Concat(pieces[1..])
  }

  lemma {:induction false} ConcatSnoc(pieces: seq<bytes>, last: bytes)
    ensures Concat(pieces + [last]) == Concat(pieces) + last
  {
    if pieces == [] {
      assert [last][1..] == [] && pieces + [last] == [last];
    } else {
      ConcatSnoc(pieces[1..], last);
      assert (pieces + [last])[1..] == pieces[1..] + [last];
    }
  }

  lemma ConcatCons(piece: bytes, pieces: seq<bytes>)
    ensures Concat([piece] + pieces) == piece + Concat(pieces)
  {
    assert ([piece] + pieces)[1..] == pieces;
  }

  lemma {:induction false} ConcatAppend(a: seq<bytes>, b: seq<bytes>)
    ensures Concat(a + b) == Concat(a) + Concat(b)
    decreases a
  {
    if a == [] {
      assert a + b == b && [] + Concat(b) == Concat(b);
    } else {
      var piece, tail := a[0], a[1..];
      ConcatAppend(tail, b);
      assert a + b == [piece] + (tail + b) && a == [piece] + tail;
      ConcatCons(piece, tail + b);
      ConcatCons(piece, tail);
    }
  }
}
