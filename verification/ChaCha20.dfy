/** ChaCha20 with the 64-bit nonce and counter of OpenSSH, as in chacha.py. */
module ChaCha20 {
  import opened Wrappers
  import opened NumberTheory
  import opened Bits

  const WORD: int := 0x1_0000_0000

  type word = x: int | 0 <= x < WORD

  // `x & 0xFFFFFFFF`
  function Mask32(x: nat): (r: word)
    ensures r == x % WORD
  {
    MaskIsMod(x);
    And(x, 0xFFFFFFFF)
  }

  lemma MaskIsMod(x: nat)
    ensures And(x, 0xFFFFFFFF) == x % WORD
  {
    Pow2Sizes();
    AndLowMask(x, 32);
  }

  function XorWord(a: word, b: word): word {
    Pow2Sizes();
    XorBound(a, b, 32);
    Xor(a, b)
  }

  // `((value << shift) & 0xFFFFFFFF) | (value >> (32 - shift))`
  function Rotl32(value: word, shift: nat): word
    requires 0 < shift < 32
  {
    RotlValue(value, shift);
    Or(And(Shl(value, shift), 0xFFFFFFFF), Shr(value, 32 - shift))
  }

  lemma PowProduct(shift: nat)
    requires 0 < shift < 32
    ensures Pow2(32 - shift) * Pow2(shift) == WORD
  {
    Pow2Sizes();
    Pow2Add(32 - shift, shift);
  }

  lemma RotlRing(value: int, hi: int, lo: int, m: int, n: int)
    requires n > 0 && m > 0 && m * n == WORD && value == m * hi + lo && 0 <= lo < m && 0 <= hi < n
    ensures value * n == WORD * hi + lo * n && 0 <= lo * n < WORD && 0 <= lo * n + hi < WORD
  {
    assert (m * hi) * n == (m * n) * hi;
    assert lo * n <= (m - 1) * n by { MulMono(n, lo, m - 1); }
    assert (m - 1) * n == m * n - n;
  }

  // Rotating moves the high `shift` bits below the low ones.
  lemma RotlValue(value: word, shift: nat)
    requires 0 < shift < 32
    ensures var m, n := Pow2(32 - shift), Pow2(shift);
      Or(And(Shl(value, shift), 0xFFFFFFFF), Shr(value, 32 - shift)) == (value % m) * n + value / m
    ensures var m, n := Pow2(32 - shift), Pow2(shift);
      0 <= value / m < n && 0 <= (value % m) * n + value / m < WORD
  {
    var m, n := Pow2(32 - shift), Pow2(shift);
    var hi, lo := DivMod(value, m);
    PowProduct(shift);
    HighPart(value, hi, m, n);
    RotlRing(value, hi, lo, m, n);
    MaskIsMod(Shl(value, shift));
    DivModUnique(Shl(value, shift), WORD, hi, lo * n);
    OrDisjoint(lo, hi, shift);
  }

  lemma DivMod(value: nat, m: nat) returns (hi: nat, lo: nat)
    requires m > 0
    ensures hi == value / m && lo == value % m && value == m * hi + lo && lo < m
  {
    hi, lo := value / m, value % m;
  }

  lemma HighPart(value: nat, hi: nat, m: nat, n: nat)
    requires m > 0 && m * n == WORD && value < WORD && m * hi <= value
    ensures hi < n
  {
    if hi >= n { MulMono(m, n, hi); }
  }

  lemma RotlIs(value: word, shift: nat)
    requires 0 < shift < 32
    ensures Rotl32(value, shift) == (value % Pow2(32 - shift)) * Pow2(shift) + value / Pow2(32 - shift)
    ensures value / Pow2(32 - shift) < Pow2(shift)
  {
    RotlValue(value, shift);
  }

  // Rotating back by 32 - shift undoes rotating by shift.
  lemma RotlInverse(value: word, shift: nat)
    requires 0 < shift < 32
    ensures Rotl32(Rotl32(value, shift), 32 - shift) == value
  {
    RotlIs(value, shift);
    var r := Rotl32(value, shift);
    RotlIs(r, 32 - shift);
    assert 32 - (32 - shift) == shift;
    RotlBack(value, r, Pow2(32 - shift), Pow2(shift));
  }

  lemma RotlBack(value: nat, r: nat, m: nat, n: nat)
    requires m > 0 && n > 0 && value / m < n && r == (value % m) * n + value / m
    ensures (r % n) * m + r / n == value
  {
    var hi, lo := DivMod(value, m);
    MulCommutes(lo, n);
    DivModUnique(r, n, lo, hi);
    MulCommutes(hi, m);
  }

  // --------------------------------------------------------- quarter round

  datatype Quarter = Quarter(a: word, b: word, c: word, d: word)

  // One of the four add-xor-rotate steps: a += b; d = rotl(d ^ a, shift).
  function Mix(a: word, b: word, d: word, shift: nat): (word, word)
    requires 0 < shift < 32
  {
    var a' := Mask32(a + b);
    (a', Rotl32(XorWord(d, a'), shift))
  }

  function Unmix(a: word, b: word, d: word, shift: nat): (word, word)
    requires 0 < shift < 32
  {
    (Mask32(a + WORD - b), XorWord(Rotl32(d, 32 - shift), a))
  }

  lemma UnmixMix(a: word, b: word, d: word, shift: nat)
    requires 0 < shift < 32
    ensures var m := Mix(a, b, d, shift); Unmix(m.0, b, m.1, shift) == (a, d)
  {
    var a' := Mask32(a + b);
    var x := XorWord(d, a');
    RotlInverse(x, shift);
    XorInvolution(d, a');
    WrapBack(a, b);
    assert Rotl32(Rotl32(x, shift), 32 - shift) == x && XorWord(x, a') == d;
  }

  lemma WrapBack(a: word, b: word)
    ensures ((a + b) % WORD + WORD - b) % WORD == a
    ensures ((a + WORD - b) % WORD + b) % WORD == a
  {
  }

  lemma MixUnmix(a: word, b: word, d: word, shift: nat)
    requires 0 < shift < 32
    ensures var u := Unmix(a, b, d, shift); Mix(u.0, b, u.1, shift) == (a, d)
  {
    WrapBack(a, b);
    var u := Unmix(a, b, d, shift);
    XorInvolution(Rotl32(d, 32 - shift), a);
    assert 32 - (32 - shift) == shift;
    RotlInverse(d, 32 - shift);
  }

  function QuarterRoundOf(q: Quarter): Quarter {
    var (a1, d1) := Mix(q.a, q.b, q.d, 16);
    var (c1, b1) := Mix(q.c, d1, q.b, 12);
    var (a2, d2) := Mix(a1, b1, d1, 8);
    var (c2, b2) := Mix(c1, d2, b1, 7);
    Quarter(a2, b2, c2, d2)
  }

  function InverseQuarterRound(q: Quarter): Quarter {
    var (c1, b1) := Unmix(q.c, q.d, q.b, 7);
    var (a1, d1) := Unmix(q.a, b1, q.d, 8);
    var (c0, b0) := Unmix(c1, d1, b1, 12);
    var (a0, d0) := Unmix(a1, b0, d1, 16);
    Quarter(a0, b0, c0, d0)
  }

  // The quarter round is a bijection on four words.
  lemma QuarterRoundBijective(q: Quarter)
    ensures InverseQuarterRound(QuarterRoundOf(q)) == q
    ensures QuarterRoundOf(InverseQuarterRound(q)) == q
  {
    QuarterRoundUndone(q);
    QuarterRoundRedone(q);
  }

  lemma QuarterRoundUndone(q: Quarter)
    ensures InverseQuarterRound(QuarterRoundOf(q)) == q
  {
    var (a1, d1) := Mix(q.a, q.b, q.d, 16);
    UnmixMix(q.a, q.b, q.d, 16);
    var (c1, b1) := Mix(q.c, d1, q.b, 12);
    UnmixMix(q.c, d1, q.b, 12);
    var (a2, d2) := Mix(a1, b1, d1, 8);
    UnmixMix(a1, b1, d1, 8);
    UnmixMix(c1, d2, b1, 7);
  }

  lemma QuarterRoundRedone(q: Quarter)
    ensures QuarterRoundOf(InverseQuarterRound(q)) == q
  {
    var (c1, b1) := Unmix(q.c, q.d, q.b, 7);
    MixUnmix(q.c, q.d, q.b, 7);
    var (a1, d1) := Unmix(q.a, b1, q.d, 8);
    MixUnmix(q.a, b1, q.d, 8);
    var (c0, b0) := Unmix(c1, d1, b1, 12);
    MixUnmix(c1, d1, b1, 12);
    MixUnmix(a1, b0, d1, 16);
  }

  // ------------------------------------------------------------- the state

  type State = s: seq<word> | |s| == 16 witness seq(16, _ => 0)

  datatype Index = Index(a: nat, b: nat, c: nat, d: nat) {
    predicate Proper() {
      a < 16 && b < 16 && c < 16 && d < 16 && a != b && a != c && a != d && b != c && b != d && c != d
    }
  }

  function Pick(s: State, i: Index): Quarter
    requires i.Proper()
  {
    Quarter(s[i.a], s[i.b], s[i.c], s[i.d])
  }

  function Put(s: State, i: Index, q: Quarter): State
    requires i.Proper()
  {
    s[i.a := q.a][i.b := q.b][i.c := q.c][i.d := q.d]
  }

  lemma PickPut(s: State, i: Index, q: Quarter, r: Quarter)
    requires i.Proper()
    ensures Pick(Put(s, i, q), i) == q
    ensures Put(Put(s, i, q), i, r) == Put(s, i, r)
    ensures Put(s, i, Pick(s, i)) == s
  {
  }

  // The eight quarter rounds of a double round: four columns, then four diagonals.
  const SCHEDULE: seq<Index> := [
    Index(0, 4, 8, 12), Index(1, 5, 9, 13), Index(2, 6, 10, 14), Index(3, 7, 11, 15),
    Index(0, 5, 10, 15), Index(1, 6, 11, 12), Index(2, 7, 8, 13), Index(3, 4, 9, 14)]

  predicate AllProper(plan: seq<Index>) {
    forall k :: 0 <= k < |plan| ==> plan[k].Proper()
  }

  // The rounds are stated for any map f on quarters, so that a schedule can be reasoned
  // about without looking into the quarter round.
  function RoundsWith(f: Quarter -> Quarter, s: State, plan: seq<Index>): State
    requires AllProper(plan)
    decreases plan, s
  {
    if plan == [] then s else RoundsWith(f, Put(s, plan[0], f(Pick(s, plan[0]))), plan[1..])
  }

  function UndoneWith(g: Quarter -> Quarter, s: State, plan: seq<Index>): State
    requires AllProper(plan)
    decreases plan, s
  {
    if plan == [] then s
    else
      var t := UndoneWith(g, s, plan[1..]);
      Put(t, plan[0], g(Pick(t, plan[0])))
  }

  ghost predicate Inverses(f: Quarter -> Quarter, g: Quarter -> Quarter) {
    (forall q :: g(f(q)) == q) && (forall q :: f(g(q)) == q)
  }

  lemma PutCancels(f: Quarter -> Quarter, g: Quarter -> Quarter, s: State, i: Index)
    requires Inverses(f, g) && i.Proper()
    ensures var t := Put(s, i, f(Pick(s, i))); Put(t, i, g(Pick(t, i))) == s
    ensures var t := Put(s, i, g(Pick(s, i))); Put(t, i, f(Pick(t, i))) == s
  {
    var q := Pick(s, i);
    PickPut(s, i, f(q), q);
    PickPut(s, i, g(q), q);
  }

  // Any schedule of quarter rounds is a bijection on states.
  lemma {:induction false} RoundsBijective(f: Quarter -> Quarter, g: Quarter -> Quarter, s: State, plan: seq<Index>)
    requires AllProper(plan) && Inverses(f, g)
    ensures UndoneWith(g, RoundsWith(f, s, plan), plan) == s
    ensures RoundsWith(f, UndoneWith(g, s, plan), plan) == s
    decreases plan
  {
    if plan != [] {
      RoundsBijective(f, g, Put(s, plan[0], f(Pick(s, plan[0]))), plan[1..]);
      PutCancels(f, g, s, plan[0]);
      RoundsBijective(f, g, s, plan[1..]);
      PutCancels(f, g, UndoneWith(g, s, plan[1..]), plan[0]);
    }
  }

  function RepeatedWith(f: Quarter -> Quarter, s: State, plan: seq<Index>, n: nat): State
    requires AllProper(plan)
    decreases n, s
  {
    if n == 0 then s else RoundsWith(f, RepeatedWith(f, s, plan, n - 1), plan)
  }

  function UnrepeatedWith(g: Quarter -> Quarter, s: State, plan: seq<Index>, n: nat): State
    requires AllProper(plan)
    decreases n, s
  {
    if n == 0 then s else UnrepeatedWith(g, UndoneWith(g, s, plan), plan, n - 1)
  }

  lemma {:induction false} RepeatedUndone(f: Quarter -> Quarter, g: Quarter -> Quarter, s: State, plan: seq<Index>, n: nat)
    requires AllProper(plan) && Inverses(f, g)
    ensures UnrepeatedWith(g, RepeatedWith(f, s, plan, n), plan, n) == s
    decreases n
  {
    if n > 0 {
      RoundsBijective(f, g, RepeatedWith(f, s, plan, n - 1), plan);
      RepeatedUndone(f, g, s, plan, n - 1);
    }
  }

  lemma {:induction false} RepeatedRedone(f: Quarter -> Quarter, g: Quarter -> Quarter, s: State, plan: seq<Index>, n: nat)
    requires AllProper(plan) && Inverses(f, g)
    ensures RepeatedWith(f, UnrepeatedWith(g, s, plan, n), plan, n) == s
    decreases n
  {
    if n > 0 {
      RepeatedRedone(f, g, UndoneWith(g, s, plan), plan, n - 1);
      RoundsBijective(f, g, s, plan);
    }
  }

  lemma QuarterInverses()
    ensures Inverses(QuarterRoundOf, InverseQuarterRound)
  {
    forall q: Quarter
      ensures InverseQuarterRound(QuarterRoundOf(q)) == q && QuarterRoundOf(InverseQuarterRound(q)) == q
    {
      QuarterRoundBijective(q);
    }
  }

  // n double rounds, and their inverse.
  function DoubleRounds(s: State, n: nat): State {
    RepeatedWith(QuarterRoundOf, s, SCHEDULE, n)
  }

  function InverseDoubleRounds(s: State, n: nat): State {
    UnrepeatedWith(InverseQuarterRound, s, SCHEDULE, n)
  }

  // Any number of double rounds, in particular the ten of a block, is a bijection on states.
  lemma DoubleRoundsBijective(s: State, n: nat)
    ensures InverseDoubleRounds(DoubleRounds(s, n), n) == s
    ensures DoubleRounds(InverseDoubleRounds(s, n), n) == s
  {
    QuarterInverses();
    RepeatedUndone(QuarterRoundOf, InverseQuarterRound, s, SCHEDULE, n);
    RepeatedRedone(QuarterRoundOf, InverseQuarterRound, s, SCHEDULE, n);
  }

  // ------------------------------------------------------- imperative rounds

  // state[x] += state[y]; state[z] = rotl(state[z] ^ state[x], shift)
  method MixInPlace(state: array<word>, x: nat, y: nat, z: nat, shift: nat)
    requires state.Length == 16 && x < 16 && y < 16 && z < 16 && x != y && x != z && y != z && 0 < shift < 32
    modifies state
    ensures var m := Mix(old(state[x]), old(state[y]), old(state[z]), shift);
      state[..] == old(state[..])[x := m.0][z := m.1]
  {
    var augend: int, addend: int := state[x], state[y];
    state[x] := Mask32(augend + addend);
    state[z] := Rotl32(XorWord(state[z], state[x]), shift);
  }

  lemma FourMixes(s: State, i: Index)
    requires i.Proper()
    ensures var m1 := Mix(s[i.a], s[i.b], s[i.d], 16); var s1: State := s[i.a := m1.0][i.d := m1.1];
      var m2 := Mix(s1[i.c], s1[i.d], s1[i.b], 12); var s2: State := s1[i.c := m2.0][i.b := m2.1];
      var m3 := Mix(s2[i.a], s2[i.b], s2[i.d], 8); var s3: State := s2[i.a := m3.0][i.d := m3.1];
      var m4 := Mix(s3[i.c], s3[i.d], s3[i.b], 7); var s4: State := s3[i.c := m4.0][i.b := m4.1];
      s4 == Put(s, i, QuarterRoundOf(Pick(s, i)))
  {
  }

  method QuarterRound(state: array<word>, a: nat, b: nat, c: nat, d: nat)
    requires state.Length == 16 && Index(a, b, c, d).Proper()
    modifies state
    ensures state[..] == Put(old(state[..]), Index(a, b, c, d), QuarterRoundOf(Pick(old(state[..]), Index(a, b, c, d))))
  {
    FourMixes(state[..], Index(a, b, c, d));
    MixInPlace(state, a, b, d, 16);
    MixInPlace(state, c, d, b, 12);
    MixInPlace(state, a, b, d, 8);
    MixInPlace(state, c, d, b, 7);
  }

  // --------------------------------------------------------------- blocks

  // struct.unpack("<nI", s)
  function Words(s: bytes): (w: seq<word>)
    requires |s| % 4 == 0
    ensures |w| == |s| / 4
  {
    if s == [] then [] else [Word(s[..4])] + Words(s[4..])
  }

  function Word(s: bytes): word
    requires |s| == 4
  {
    Pow2Sizes();
    LEBound(s);
    LE(s)
  }

  // The words as little endian bytes, four each.
  function Packed(w: seq<word>): (s: bytes)
    ensures |s| == 4 * |w|
  {
    if w == [] then [] else ToLE(w[0], 4) + Packed(w[1..])
  }

  // The ASCII text "expand 32-byte k" as four little-endian words.
  const SIGMA: seq<word> := [0x61707865, 0x3320646e, 0x79622d32, 0x6b206574]

  // The key, the nonce, and a counter of any size of which 64 bits are used.
  function InitialState(key: bytes, nonce: bytes, counter: nat): State
    requires |key| == 32 && |nonce| == 8
  {
    SIGMA + Words(key) + [Mask32(counter), Mask32(Shr(counter, 32))] + Words(nonce)
  }

  // Word by word sum of two states.
  function Sum(a: State, b: State): State {
    seq(16, i requires 0 <= i < 16 => Mask32(Plus(a[i], b[i])))
  }

  function Plus(a: word, b: word): nat {
    a + b
  }

  // Ten double rounds added to the initial state, as 64 bytes.
  function Block(key: bytes, nonce: bytes, counter: nat): (r: bytes)
    requires |key| == 32 && |nonce| == 8
    ensures |r| == 64
  {
    var s := InitialState(key, nonce, counter);
    Packed(Sum(DoubleRounds(s, 10), s))
  }

  // The sixteen words that a block starts from: the text, the key, the low 64 bits of the counter,
  // and the nonce, four bytes each.
  predicate StartsFrom(key: bytes, nonce: bytes, counter: nat, w: State)
    requires |key| == 32 && |nonce| == 8
  {
    && w[0] == 0x61707865 && w[1] == 0x3320646e && w[2] == 0x79622d32 && w[3] == 0x6b206574
    && (forall i :: 4 <= i < 12 ==> w[i] == LE(key[4 * i - 16..4 * i - 12]))
    && w[12] == counter % 0x1_0000_0000 && w[13] == counter / 0x1_0000_0000 % 0x1_0000_0000
    && w[14] == LE(nonce[..4]) && w[15] == LE(nonce[4..])
  }

  // The sums of two states, word by word, as 64 bytes.
  predicate AddsUp(rounds: State, w: State, out: bytes) {
    |out| == 64 && forall i :: 0 <= i < 16 ==> LE(out[4 * i..4 * i + 4]) == (rounds[i] as int + w[i] as int) % 0x1_0000_0000
  }

  // Section 2.3 of RFC 8439: the words that a block starts from plus what ten double rounds make of
  // them.
  ghost predicate IsBlock(w: State, out: bytes) {
    AddsUp(DoubleRounds(w, 10), w, out)
  }

  lemma SumAddsUp(rounds: State, w: State)
    ensures AddsUp(rounds, w, Packed(Sum(rounds, w)))
  {
    forall i | 0 <= i < 16
      ensures LE(Packed(Sum(rounds, w))[4 * i..4 * i + 4]) == (rounds[i] as int + w[i] as int) % 0x1_0000_0000
    {
      PackedAt(Sum(rounds, w), i);
    }
  }

  lemma {:induction false} WordAt(s: bytes, i: nat)
    requires |s| % 4 == 0 && 4 * i + 4 <= |s|
    ensures Words(s)[i] == LE(s[4 * i..4 * i + 4])
  {
    if i > 0 {
      WordAt(s[4..], i - 1);
      var low := 4 * (i - 1);
      assert s[4..][low..low + 4] == s[low + 4..low + 8];
    }
  }

  lemma {:induction false} PackedAt(w: seq<word>, i: nat)
    requires i < |w|
    ensures LE(Packed(w)[4 * i..4 * i + 4]) == w[i]
  {
    var first, more := ToLE(w[0], 4), Packed(w[1..]);
    if i == 0 {
      assert (first + more)[..4] == first;
      Pow2Sizes();
      LEToLE(w[0], 4);
    } else {
      PackedAt(w[1..], i - 1);
      assert (first + more)[4 * i..4 * i + 4] == more[4 * (i - 1)..4 * (i - 1) + 4];
    }
  }

  lemma Pow2Of32()
    ensures Pow2(32) == 0x1_0000_0000
  {
    Pow2Sizes();
  }

  lemma InitialStateIs(key: bytes, nonce: bytes, counter: nat)
    requires |key| == 32 && |nonce| == 8
    ensures StartsFrom(key, nonce, counter, InitialState(key, nonce, counter))
  {
    var w := InitialState(key, nonce, counter);
    Pow2Of32();
    forall i | 4 <= i < 12
      ensures w[i] == LE(key[4 * i - 16..4 * i - 12])
    {
      WordAt(key, i - 4);
    }
    WordAt(nonce, 0);
    WordAt(nonce, 1);
    assert nonce[4..8] == nonce[4..];
  }

  lemma OneStart(key: bytes, nonce: bytes, counter: nat, v: State, w: State)
    requires |key| == 32 && |nonce| == 8 && StartsFrom(key, nonce, counter, v) && StartsFrom(key, nonce, counter, w)
    ensures v == w
  {
    forall i | 0 <= i < 16
      ensures v[i] == w[i]
    {}
  }

  lemma BlockIs(key: bytes, nonce: bytes, counter: nat, w: State)
    requires |key| == 32 && |nonce| == 8 && StartsFrom(key, nonce, counter, w)
    ensures IsBlock(w, Block(key, nonce, counter))
  {
    InitialStateIs(key, nonce, counter);
    OneStart(key, nonce, counter, w, InitialState(key, nonce, counter));
    SumAddsUp(DoubleRounds(w, 10), w);
  }

  lemma {:induction false} RoundsAppend(f: Quarter -> Quarter, s: State, plan: seq<Index>, i: Index)
    requires AllProper(plan) && i.Proper() && AllProper(plan + [i])
    ensures var t := RoundsWith(f, s, plan); RoundsWith(f, s, plan + [i]) == Put(t, i, f(Pick(t, i)))
    decreases plan
  {
    if plan == [] {
      assert plan + [i] == [i];
      assert RoundsWith(f, Put(s, i, f(Pick(s, i))), [i][1..]) == Put(s, i, f(Pick(s, i)));
    } else {
      assert (plan + [i])[1..] == plan[1..] + [i];
      RoundsAppend(f, Put(s, plan[0], f(Pick(s, plan[0]))), plan[1..], i);
    }
  }

  lemma ScheduleStep(f: Quarter -> Quarter, s: State, plan: seq<Index>, k: nat)
    requires AllProper(plan) && k < |plan|
    ensures AllProper(plan[..k]) && AllProper(plan[..k + 1])
    ensures var t := RoundsWith(f, s, plan[..k]);
      RoundsWith(f, s, plan[..k + 1]) == Put(t, plan[k], f(Pick(t, plan[k])))
  {
    assert plan[..k + 1] == plan[..k] + [plan[k]];
    RoundsAppend(f, s, plan[..k], plan[k]);
  }

  // The quarter rounds of a schedule, one after the other, in place.
  method RunSchedule(working: array<word>, plan: seq<Index>)
    requires working.Length == 16 && AllProper(plan)
    modifies working
    ensures working[..] == RoundsWith(QuarterRoundOf, old(working[..]), plan)
  {
    ghost var s := working[..];
    assert plan[..0] == [];
    for k := 0 to |plan|
      invariant working[..] == RoundsWith(QuarterRoundOf, s, plan[..k])
    {
      ScheduleStep(QuarterRoundOf, s, plan, k);
      var i := plan[k];
      QuarterRound(working, i.a, i.b, i.c, i.d);
    }
    assert plan[..|plan|] == plan;
  }

  method RunDoubleRounds(working: array<word>, n: nat)
    requires working.Length == 16
    modifies working
    ensures working[..] == DoubleRounds(old(working[..]), n)
  {
    RepeatSchedule(working, SCHEDULE, n);
  }

  method RepeatSchedule(working: array<word>, plan: seq<Index>, n: nat)
    requires working.Length == 16 && AllProper(plan)
    modifies working
    ensures working[..] == RepeatedWith(QuarterRoundOf, old(working[..]), plan, n)
  {
    for i := 0 to n
      invariant working[..] == RepeatedWith(QuarterRoundOf, old(working[..]), plan, i)
    {
      RunSchedule(working, plan);
    }
  }

  method ChaCha20Block(key: bytes, nonce: bytes, counter: nat) returns (result: Option<bytes>)
    ensures result == if |key| == 32 && |nonce| == 8 then Some(Block(key, nonce, counter)) else None
    ensures result.Some? ==> forall w: State :: StartsFrom(key, nonce, counter, w) ==> IsBlock(w, result.value)
  {
    if |key| != 32 {
      return None;
    }
    if |nonce| != 8 {
      return None;
    }
    var state := InitialState(key, nonce, counter);
    var working := new word[16](i requires 0 <= i < 16 => state[i]);
    assert working[..] == state;
    RunDoubleRounds(working, 10);
    var rounds: State := working[..];
    var out := Sum(rounds, state);
    forall w: State | StartsFrom(key, nonce, counter, w)
      ensures IsBlock(w, Block(key, nonce, counter))
    {
      BlockIs(key, nonce, counter, w);
    }
    return Some(Packed(out));
  }

  // ---------------------------------------------------------- stream cipher

  const TWO_64: nat := 0x1_0000_0000_0000_0000

  type Block64 = b: bytes | |b| == 64 witness seq(64, _ => 0)

  // The counter of the block that byte i of the data falls into.
  function BlockCounter(counter: nat, i: nat): nat {
    (counter + i / 64) % TWO_64
  }

  // Byte i of the data is combined with byte i % 64 of that block of the key stream.
  function Ciphered(ks: nat -> Block64, counter: nat, data: bytes): (r: bytes)
    ensures |r| == |data|
  {
    seq<byte>(|data|, i requires 0 <= i < |data| => XorByte(data[i], ks(BlockCounter(counter, i))[i % 64]))
  }

  lemma CipherByte(ks: nat -> Block64, counter: nat, data: bytes, i: nat)
    requires i < |data|
    ensures Ciphered(ks, counter, data)[i] == XorByte(data[i], ks(BlockCounter(counter, i))[i % 64])
  {}

  function Keystream(key: bytes, nonce: bytes): nat -> Block64
    requires |key| == 32 && |nonce| == 8
  {
    (c: nat) => Block(key, nonce, c)
  }

  // Only an empty input hides a key or nonce of the wrong length.
  function Xored(key: bytes, nonce: bytes, counter: nat, data: bytes): Option<bytes> {
    if data == [] then Some([])
    else if |key| == 32 && |nonce| == 8 then Some(Ciphered(Keystream(key, nonce), counter, data))
    else None
  }

  lemma CounterWords(c: nat)
    ensures (c % TWO_64) % WORD == c % WORD && ((c % TWO_64) / WORD) % WORD == (c / WORD) % WORD
  {
    var q, m := c / TWO_64, c % TWO_64;
    var h, l := m / WORD, m % WORD;
    assert c == (q * WORD + h) * WORD + l;
    DivModUnique(c, WORD, q * WORD + h, l);
    DivModUnique(q * WORD + h, WORD, q, h);
    DivModUnique(h, WORD, 0, h);
  }

  lemma CounterWraps(c: nat)
    ensures var m := c % TWO_64; Mask32(m) == Mask32(c) && Mask32(Shr(m, 32)) == Mask32(Shr(c, 32))
  {
    Pow2Sizes();
    CounterWords(c);
  }

  // A block uses the counter modulo 2^64.
  lemma BlockWraps(key: bytes, nonce: bytes, c: nat, counter: nat, pos: nat)
    requires |key| == 32 && |nonce| == 8 && c % TWO_64 == (counter + pos / 64) % TWO_64
    ensures Keystream(key, nonce)(BlockCounter(counter, pos)) == Block(key, nonce, c)
  {
    CounterWraps(c);
    assert InitialState(key, nonce, BlockCounter(counter, pos)) == InitialState(key, nonce, c);
  }

  // zip(chunk, block): exclusive or up to the shorter of the two
  function ZipXor(chunk: bytes, block: bytes): (r: bytes)
    requires |chunk| <= |block|
    ensures |r| == |chunk|
  {
    seq<byte>(|chunk|, i requires 0 <= i < |chunk| => XorByte(chunk[i], block[i]))
  }

  // What the loop has produced, and its block counter, when it reaches position pos.
  ghost function Produced(key: bytes, nonce: bytes, counter: nat, data: bytes, pos: nat): bytes {
    if pos == 0 || |key| != 32 || |nonce| != 8 then []
    else Ciphered(Keystream(key, nonce), counter, data)[..Least(pos, |data|)]
  }

  ghost predicate CounterAt(c: nat, counter: nat, pos: nat) {
    c % TWO_64 == (counter + pos / 64) % TWO_64
  }

  lemma ProducedStep(key: bytes, nonce: bytes, counter: nat, data: bytes, pos: nat, c: nat, block: bytes)
    requires |key| == 32 && |nonce| == 8 && pos % 64 == 0 && pos < |data| && CounterAt(c, counter, pos)
    requires block == Block(key, nonce, c)
    ensures |block| == 64
    ensures var chunk := data[pos..Least(pos + 64, |data|)];
      Produced(key, nonce, counter, data, pos) + ZipXor(chunk, block) == Produced(key, nonce, counter, data, pos + 64)
    ensures CounterAt((c + 1) % TWO_64, counter, pos + 64)
  {
    BlockWraps(key, nonce, c, counter, pos);
    ChunkOfCipher(Keystream(key, nonce), counter, data, pos, Least(pos + 64, |data|), block);
    NextCounter(c, counter, pos);
  }

  lemma ProducedAll(key: bytes, nonce: bytes, counter: nat, data: bytes, pos: nat)
    requires |data| <= pos && (pos > 0 ==> |key| == 32 && |nonce| == 8) && (pos > 0 ==> data != [])
    ensures Some(Produced(key, nonce, counter, data, pos)) == Xored(key, nonce, counter, data)
  {
    if data != [] {
      var c := Ciphered(Keystream(key, nonce), counter, data);
      assert c[..|data|] == c;
    }
  }

  method ChaCha20Xor(key: bytes, nonce: bytes, counter: nat, data: bytes) returns (result: Option<bytes>)
    ensures result == Xored(key, nonce, counter, data)
  {
    var out: bytes := [];
    var blockCounter: nat := counter;
    var pos: nat := 0;
    while pos < |data|
      invariant pos % 64 == 0
      invariant pos > 0 ==> |key| == 32 && |nonce| == 8 && data != []
      invariant out == Produced(key, nonce, counter, data, pos)
      invariant CounterAt(blockCounter, counter, pos)
      decreases |data| - pos
    {
      var block := ChaCha20Block(key, nonce, blockCounter);
      if block.None? {
        return None;
      }
      ProducedStep(key, nonce, counter, data, pos, blockCounter, block.value);
      var chunk := data[pos..Least(pos + 64, |data|)];
      out := out + ZipXor(chunk, block.value);
      blockCounter := (blockCounter + 1) % TWO_64;
      pos := pos + 64;
    }
    ProducedAll(key, nonce, counter, data, pos);
    return Some(out);
  }

  lemma NextCounter(c: nat, counter: nat, pos: nat)
    requires c % TWO_64 == (counter + pos / 64) % TWO_64
    ensures ((c + 1) % TWO_64) % TWO_64 == (counter + (pos + 64) / 64) % TWO_64
  {
    assert (pos + 64) / 64 == pos / 64 + 1;
    AddModReduce(c, 1, TWO_64);
    AddModReduce(counter + pos / 64, 1, TWO_64);
    ModTwice(c + 1);
  }

  lemma ModTwice(c: nat)
    ensures (c % TWO_64) % TWO_64 == c % TWO_64
  {}

  function Least(a: nat, b: nat): nat {
    if a < b then a else b
  }

  lemma ChunkOfCipher(ks: nat -> Block64, counter: nat, data: bytes, pos: nat, end: nat, block: bytes)
    requires pos % 64 == 0 && pos < end <= |data| && end <= pos + 64
    requires block == ks(BlockCounter(counter, pos))
    ensures var c := Ciphered(ks, counter, data); c[..pos] + ZipXor(data[pos..end], block) == c[..end]
  {
    var c := Ciphered(ks, counter, data);
    forall i: nat | pos <= i < end
      ensures c[i] == ZipXor(data[pos..end], block)[i - pos]
    {
      CipherByte(ks, counter, data, i);
      SameBlock(pos, i);
    }
  }

  lemma SameBlock(pos: nat, i: nat)
    requires pos % 64 == 0 && pos <= i < pos + 64
    ensures i / 64 == pos / 64 && i % 64 == i - pos
  {}

  lemma CipheredInvolution(ks: nat -> Block64, counter: nat, data: bytes)
    ensures Ciphered(ks, counter, Ciphered(ks, counter, data)) == data
  {
    var c := Ciphered(ks, counter, data);
    forall i: nat | i < |data|
      ensures Ciphered(ks, counter, c)[i] == data[i]
    {
      CipherByte(ks, counter, data, i);
      CipherByte(ks, counter, c, i);
      XorInvolution(data[i], ks(BlockCounter(counter, i))[i % 64]);
    }
  }

  // Applying the stream twice gives the data back.
  lemma XoredInvolution(key: bytes, nonce: bytes, counter: nat, data: bytes)
    requires Xored(key, nonce, counter, data).Some?
    ensures Xored(key, nonce, counter, Xored(key, nonce, counter, data).value) == Some(data)
  {
    if data != [] {
      CipheredInvolution(Keystream(key, nonce), counter, data);
    }
  }

  // The stream may be cut at any multiple of 64 bytes, the counter moving along.
  lemma CipheredSplits(ks: nat -> Block64, counter: nat, a: bytes, b: bytes)
    requires |a| % 64 == 0
    ensures Ciphered(ks, counter, a + b) == Ciphered(ks, counter, a) + Ciphered(ks, counter + |a| / 64, b)
  {
    var l, r := Ciphered(ks, counter, a + b), Ciphered(ks, counter, a) + Ciphered(ks, counter + |a| / 64, b);
    forall i: nat | i < |a + b|
      ensures l[i] == r[i]
    {
      CipherByte(ks, counter, a + b, i);
      if i < |a| {
        CipherByte(ks, counter, a, i);
      } else {
        CipherByte(ks, counter + |a| / 64, b, i - |a|);
        SplitIndex(|a|, i);
      }
    }
  }

  lemma SplitIndex(n: nat, i: nat)
    requires n % 64 == 0 && i >= n
    ensures i / 64 == n / 64 + (i - n) / 64 && i % 64 == (i - n) % 64
  {}
}
