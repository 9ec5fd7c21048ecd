/** The rounds of ChaCha20 as section 2.1 to 2.3 of RFC 8439 write them down: sums modulo 2^32,
    exclusive or, and rotations by 16, 12, 8 and 7 bits, on columns and then on diagonals. */
module ChaCha20Rounds {
  import opened Wrappers
  import opened NumberTheory
  import opened Bits
  import opened ChaCha20

  lemma Rotations(x: word)
    ensures Rotl32(x, 16) == (x % 0x1_0000) * 0x1_0000 + x / 0x1_0000
    ensures Rotl32(x, 12) == (x % 0x10_0000) * 0x1000 + x / 0x10_0000
    ensures Rotl32(x, 8) == (x % 0x100_0000) * 0x100 + x / 0x100_0000
    ensures Rotl32(x, 7) == (x % 0x200_0000) * 0x80 + x / 0x200_0000
  {
    Pow2Sizes();
    Pow2Small();
    Pow2Add(4, 8);
    Pow2Add(12, 8);
    Pow2Add(16, 8);
    Pow2Add(24, 1);
    RotlIs(x, 16);
    RotlIs(x, 12);
    RotlIs(x, 8);
    RotlIs(x, 7);
  }

  // b is a plus c, and e is d exclusive or b, rotated left: high is 2 to the number of bits.
  ghost predicate Adds(a: word, c: word, b: word, d: word, high: nat, e: word)
    requires 0 < high < WORD
  {
    b == (a + c) % WORD && var x := Xor(d, b); e == (x % (WORD / high)) * high + x / (WORD / high)
  }

  lemma MixAdds(a: word, b: word, d: word)
    ensures var m := Mix(a, b, d, 16); Adds(a, b, m.0, d, 0x1_0000, m.1)
    ensures var m := Mix(a, b, d, 12); Adds(a, b, m.0, d, 0x1000, m.1)
    ensures var m := Mix(a, b, d, 8); Adds(a, b, m.0, d, 0x100, m.1)
    ensures var m := Mix(a, b, d, 7); Adds(a, b, m.0, d, 0x80, m.1)
  {
    Rotations(XorWord(d, Mask32(a + b)));
  }

  // The four steps of a quarter round, from (a, b, c, d) to (a2, b2, c2, d2).
  ghost predicate FourSteps(q: Quarter, a1: word, b1: word, c1: word, d1: word, r: Quarter) {
    && Adds(q.a, q.b, a1, q.d, 0x1_0000, d1)
    && Adds(q.c, d1, c1, q.b, 0x1000, b1)
    && Adds(a1, b1, r.a, d1, 0x100, r.d)
    && Adds(c1, r.d, r.c, b1, 0x80, r.b)
  }

  lemma QuarterRoundIs(q: Quarter)
    ensures exists a1, b1, c1, d1 :: FourSteps(q, a1, b1, c1, d1, QuarterRoundOf(q))
  {
    var (a1, d1) := Mix(q.a, q.b, q.d, 16);
    var (c1, b1) := Mix(q.c, d1, q.b, 12);
    var (a2, d2) := Mix(a1, b1, d1, 8);
    MixAdds(q.a, q.b, q.d);
    MixAdds(q.c, d1, q.b);
    MixAdds(a1, b1, d1);
    MixAdds(c1, d2, b1);
    assert FourSteps(q, a1, b1, c1, d1, QuarterRoundOf(q));
  }

  // One quarter round takes these four words of s to those of t.
  ghost predicate Rounded(s: State, t: State, a: nat, b: nat, c: nat, d: nat)
    requires a < 16 && b < 16 && c < 16 && d < 16
  {
    Quarter(t[a], t[b], t[c], t[d]) == QuarterRoundOf(Quarter(s[a], s[b], s[c], s[d]))
  }

  ghost predicate Columns(s: State, t: State) {
    Rounded(s, t, 0, 4, 8, 12) && Rounded(s, t, 1, 5, 9, 13) && Rounded(s, t, 2, 6, 10, 14) && Rounded(s, t, 3, 7, 11, 15)
  }

  ghost predicate Diagonals(s: State, t: State) {
    Rounded(s, t, 0, 5, 10, 15) && Rounded(s, t, 1, 6, 11, 12) && Rounded(s, t, 2, 7, 8, 13) && Rounded(s, t, 3, 4, 9, 14)
  }

  predicate Disjoint(i: Index, j: Index) {
    && i.a != j.a && i.a != j.b && i.a != j.c && i.a != j.d && i.b != j.a && i.b != j.b && i.b != j.c && i.b != j.d
    && i.c != j.a && i.c != j.b && i.c != j.c && i.c != j.d && i.d != j.a && i.d != j.b && i.d != j.c && i.d != j.d
  }

  predicate Apart(plan: seq<Index>) {
    AllProper(plan) && forall k, l :: 0 <= k < l < |plan| ==> Disjoint(plan[k], plan[l])
  }

  lemma Untouched(s: State, i: Index, j: Index, q: Quarter)
    requires i.Proper() && j.Proper() && Disjoint(i, j)
    ensures Pick(Put(s, i, q), j) == Pick(s, j)
  {}

  lemma {:induction false} RoundsKeep(f: Quarter -> Quarter, s: State, plan: seq<Index>, j: Index)
    requires AllProper(plan) && j.Proper() && forall k :: 0 <= k < |plan| ==> Disjoint(plan[k], j)
    ensures Pick(RoundsWith(f, s, plan), j) == Pick(s, j)
    decreases |plan|
  {
    if plan != [] {
      Untouched(s, plan[0], j, f(Pick(s, plan[0])));
      RoundsKeep(f, Put(s, plan[0], f(Pick(s, plan[0]))), plan[1..], j);
    }
  }

  // Rounds on disjoint quarters do not see each other.
  lemma {:induction false} RoundsApart(f: Quarter -> Quarter, s: State, plan: seq<Index>, k: nat)
    requires Apart(plan) && k < |plan|
    ensures Pick(RoundsWith(f, s, plan), plan[k]) == f(Pick(s, plan[k]))
    decreases |plan|
  {
    var t := Put(s, plan[0], f(Pick(s, plan[0])));
    if k == 0 {
      PickPut(s, plan[0], f(Pick(s, plan[0])), f(Pick(s, plan[0])));
      forall l | 0 <= l < |plan[1..]|
        ensures Disjoint(plan[1..][l], plan[0])
      {
        assert Disjoint(plan[0], plan[l + 1]);
      }
      RoundsKeep(f, t, plan[1..], plan[0]);
    } else {
      assert Disjoint(plan[0], plan[k]);
      Untouched(s, plan[0], plan[k], f(Pick(s, plan[0])));
      RoundsApart(f, t, plan[1..], k - 1);
    }
  }

  lemma {:induction false} RoundsInTwo(f: Quarter -> Quarter, s: State, a: seq<Index>, b: seq<Index>)
    requires AllProper(a) && AllProper(b)
    ensures AllProper(a + b) && RoundsWith(f, s, a + b) == RoundsWith(f, RoundsWith(f, s, a), b)
    decreases |a|
  {
    if a == [] {
      assert a + b == b;
    } else {
      assert (a + b)[1..] == a[1..] + b;
      RoundsInTwo(f, Put(s, a[0], f(Pick(s, a[0]))), a[1..], b);
    }
  }

  function ColumnPlan(): seq<Index> {
    [Index(0, 4, 8, 12), Index(1, 5, 9, 13), Index(2, 6, 10, 14), Index(3, 7, 11, 15)]
  }

  function DiagonalPlan(): seq<Index> {
    [Index(0, 5, 10, 15), Index(1, 6, 11, 12), Index(2, 7, 8, 13), Index(3, 4, 9, 14)]
  }

  lemma ColumnsDone(s: State, plan: seq<Index>)
    requires plan == ColumnPlan() && AllProper(plan)
    ensures Columns(s, RoundsWith(QuarterRoundOf, s, plan))
  {
    RoundsApart(QuarterRoundOf, s, plan, 0);
    RoundsApart(QuarterRoundOf, s, plan, 1);
    RoundsApart(QuarterRoundOf, s, plan, 2);
    RoundsApart(QuarterRoundOf, s, plan, 3);
  }

  lemma DiagonalsDone(s: State, plan: seq<Index>)
    requires plan == DiagonalPlan() && AllProper(plan)
    ensures Diagonals(s, RoundsWith(QuarterRoundOf, s, plan))
  {
    RoundsApart(QuarterRoundOf, s, plan, 0);
    RoundsApart(QuarterRoundOf, s, plan, 1);
    RoundsApart(QuarterRoundOf, s, plan, 2);
    RoundsApart(QuarterRoundOf, s, plan, 3);
  }

  lemma PlanHalves(plan: seq<Index>)
    requires plan == SCHEDULE
    ensures plan == ColumnPlan() + DiagonalPlan()
  {}

  lemma OneMore(f: Quarter -> Quarter, s: State, plan: seq<Index>, n: nat)
    requires AllProper(plan)
    ensures RepeatedWith(f, s, plan, n + 1) == RoundsWith(f, RepeatedWith(f, s, plan, n), plan)
  {}

  lemma PlanRound(start: State, plan: seq<Index>) returns (t: State)
    requires AllProper(plan) && plan == ColumnPlan() + DiagonalPlan()
    ensures Columns(start, t) && Diagonals(t, RoundsWith(QuarterRoundOf, start, plan))
  {
    var columns, diagonals := ColumnPlan(), DiagonalPlan();
    RoundsInTwo(QuarterRoundOf, start, columns, diagonals);
    t := RoundsWith(QuarterRoundOf, start, columns);
    ColumnsDone(start, columns);
    DiagonalsDone(t, diagonals);
  }

  lemma RepeatedPlan(s: State, plan: seq<Index>, n: nat) returns (t: State)
    requires AllProper(plan) && plan == ColumnPlan() + DiagonalPlan()
    ensures Columns(RepeatedWith(QuarterRoundOf, s, plan, n), t) && Diagonals(t, RepeatedWith(QuarterRoundOf, s, plan, n + 1))
  {
    OneMore(QuarterRoundOf, s, plan, n);
    t := PlanRound(RepeatedWith(QuarterRoundOf, s, plan, n), plan);
  }

  // One more double round: all columns, and then all diagonals.
  lemma DoubleRoundIs(s: State, n: nat) returns (t: State)
    ensures Columns(DoubleRounds(s, n), t) && Diagonals(t, DoubleRounds(s, n + 1))
  {
    PlanHalves(SCHEDULE);
    t := RepeatedPlan(s, SCHEDULE, n);
  }

  lemma NoRounds(s: State)
    ensures DoubleRounds(s, 0) == s
  {}

  // A byte of a cipher text: the byte of the data, exclusive or the byte at the same place of the
  // block that is 64 times as far from the counter.
  lemma CipherTextIs(key: bytes, nonce: bytes, counter: nat, data: bytes, i: nat)
    requires |key| == 32 && |nonce| == 8 && i < |data|
    ensures var out := Xored(key, nonce, counter, data);
      out.Some? && |out.value| == |data|
      && out.value[i] == Xor(data[i], Block(key, nonce, (counter + i / 64) % 0x1_0000_0000_0000_0000)[i % 64])
  {
    CipherByte(Keystream(key, nonce), counter, data, i);
  }
}
