/** Multiples of a curve point, under the one assumed group law, associativity. */
module EdwardsMultiples {
  import opened NumberTheory
  import opened Bits
  import opened Edwards
  import opened EdwardsDenominators
  import opened EdwardsClosure
  import opened EdwardsRecovery

  // a + a + ... + a, n times, starting from the identity
  ghost function Multiple(c: Curve, n: nat, a: Point): Point
    requires c.p > 2
  {
    if n == 0 then IDENTITY else Add(c, Multiple(c, n - 1, a), a)
  }

  ghost predicate Group(c: Curve) {
    Complete(c) && c.p > 2 && Associative(c)
  }

  lemma {:induction false} MultipleClosed(c: Curve, n: nat, a: Point)
    requires Group(c) && OnCurve(c, a)
    ensures OnCurve(c, Multiple(c, n, a)) && Reduced(c, Multiple(c, n, a))
  {
    if n == 0 {
      IdentityOnCurve(c);
    } else {
      MultipleClosed(c, n - 1, a);
      AddClosed(c, Multiple(c, n - 1, a), a);
    }
  }

  // Adding multiples adds their counts.
  lemma {:induction false} MultipleAdd(c: Curve, m: nat, n: nat, a: Point)
    requires Group(c) && OnCurve(c, a)
    ensures Multiple(c, m + n, a) == Add(c, Multiple(c, m, a), Multiple(c, n, a))
  {
    MultipleClosed(c, m, a);
    if n == 0 {
      AddIdentity(c, Multiple(c, m, a));
    } else {
      MultipleAdd(c, m, n - 1, a);
      MultipleClosed(c, n - 1, a);
      assert AssociativeAt(c, Multiple(c, m, a), Multiple(c, n - 1, a), a);
    }
  }

  lemma OneLess(k: nat, n: nat) returns (m: nat)
    requires k > 0
    ensures m == (k - 1) * n && k * n == m + n
  {
    m := (k - 1) * n;
  }

  // A multiple of a multiple multiplies the counts.
  lemma {:induction false} MultipleOfMultiple(c: Curve, k: nat, n: nat, a: Point)
    requires Group(c) && OnCurve(c, a)
    ensures Multiple(c, k, Multiple(c, n, a)) == Multiple(c, k * n, a)
  {
    if k > 0 {
      MultipleOfMultiple(c, k - 1, n, a);
      var m := OneLess(k, n);
      MultipleAdd(c, m, n, a);
    }
  }

  lemma {:induction false} MultipleOfIdentity(c: Curve, k: nat)
    requires c.p > 2
    ensures Multiple(c, k, IDENTITY) == IDENTITY
  {
    if k > 0 {
      MultipleOfIdentity(c, k - 1);
      IdentityOnCurve(c);
      AddIdentity(c, IDENTITY);
    }
  }

  lemma MultipleOfOrder(c: Curve, q: nat, order: nat, r: nat, n: nat, a: Point)
    requires Group(c) && OnCurve(c, a) && Multiple(c, order, a) == IDENTITY
    requires n - r == q * order && n >= r
    ensures Multiple(c, n, a) == Multiple(c, r, a)
  {
    var m: nat := n - r;
    MultipleAdd(c, m, r, a);
    MultipleOfMultiple(c, q, order, a);
    MultipleOfIdentity(c, q);
    MultipleClosed(c, r, a);
    AddIdentity(c, Multiple(c, r, a));
  }

  lemma QuotientRemainder(n: nat, m: nat) returns (q: nat, r: nat)
    requires m > 0
    ensures n - r == q * m && r == n % m && n >= r
  {
    q, r := n / m, n % m;
  }

  // Counts only matter modulo the order of the point.
  lemma MultipleModOrder(c: Curve, n: nat, order: nat, a: Point)
    requires Group(c) && OnCurve(c, a) && order > 0 && Multiple(c, order, a) == IDENTITY
    ensures Multiple(c, n, a) == Multiple(c, n % order, a)
  {
    var q, r := QuotientRemainder(n, order);
    MultipleOfOrder(c, q, order, r, n, a);
  }

  lemma MultipleDouble(c: Curve, n: nat, a: Point)
    requires Group(c) && OnCurve(c, a)
    ensures Multiple(c, n, Add(c, a, a)) == Multiple(c, 2 * n, a)
    decreases n
  {
    if n > 0 {
      MultipleDouble(c, n - 1, a);
      MultipleClosed(c, 2 * n - 2, a);
      assert AssociativeAt(c, Multiple(c, 2 * n - 2, a), a, a);
      assert Multiple(c, 2 * n, a) == Add(c, Multiple(c, 2 * n - 1, a), a);
      assert Multiple(c, 2 * n - 1, a) == Add(c, Multiple(c, 2 * n - 2, a), a);
    }
  }

  // ------------------------------------------------- scalar multiplication

  // What the loop of _scalar_mult leaves in q, from its state (q, s, p).
  function DoubleAndAdd(c: Curve, q: Point, s: nat, p: Point): (r: Point)
    requires c.p > 2 && Reduced(c, q)
    ensures Reduced(c, r)
    decreases s
  {
    if s == 0 then q
    else DoubleAndAdd(c, if And(s, 1) == 1 then Add(c, q, p) else q, Shr(s, 1), Add(c, p, p))
  }

  method ScalarMult(c: Curve, scalar: nat, point: Point) returns (q: Point)
    requires c.p > 2
    ensures q == DoubleAndAdd(c, IDENTITY, scalar, point)
  {
    q := IDENTITY;
    var p, s := point, scalar;
    while s != 0
      invariant Reduced(c, q)
      invariant DoubleAndAdd(c, q, s, p) == DoubleAndAdd(c, IDENTITY, scalar, point)
    {
      LowBit(s);
      if And(s, 1) == 1 {
        q := Add(c, q, p);
      }
      p := Add(c, p, p);
      s := Shr(s, 1);
    }
  }

  lemma LowBit(s: nat)
    ensures And(s, 1) == s % 2 && Shr(s, 1) == s / 2
  {
    Pow2Small();
    AndLowMask(s, 1);
  }

  // Double-and-add started at q computes q plus the s-fold sum of p.
  lemma {:induction false} DoubleAndAddIsSum(c: Curve, q: Point, s: nat, p: Point)
    requires Group(c) && OnCurve(c, q) && Reduced(c, q) && OnCurve(c, p)
    ensures DoubleAndAdd(c, q, s, p) == Add(c, q, Multiple(c, s, p))
    decreases s
  {
    if s == 0 {
      AddIdentity(c, q);
    } else {
      LowBit(s);
      var h, p2 := s / 2, Add(c, p, p);
      AddClosed(c, p, p);
      AddClosed(c, q, p);
      MultipleDouble(c, h, p);
      if s % 2 == 1 {
        DoubleAndAddIsSum(c, Add(c, q, p), h, p2);
        MultipleClosed(c, 2 * h, p);
        assert AssociativeAt(c, q, p, Multiple(c, 2 * h, p));
        AddCommutes(c, p, Multiple(c, 2 * h, p));
        assert Multiple(c, s, p) == Add(c, Multiple(c, 2 * h, p), p);
      } else {
        DoubleAndAddIsSum(c, q, h, p2);
        assert 2 * h == s;
      }
    }
  }

  // _scalar_mult(s, p) is p + ... + p, s times, for every s and every curve point.
  lemma ScalarMultIsMultiple(c: Curve, s: nat, p: Point)
    requires Group(c) && OnCurve(c, p)
    ensures DoubleAndAdd(c, IDENTITY, s, p) == Multiple(c, s, p)
  {
    IdentityOnCurve(c);
    DoubleAndAddIsSum(c, IDENTITY, s, p);
    MultipleClosed(c, s, p);
    AddIdentity(c, Multiple(c, s, p));
  }

  // Hence it is additive in the scalar ...
  lemma ScalarMultAdditive(c: Curve, m: nat, n: nat, p: Point)
    requires Group(c) && OnCurve(c, p)
    ensures DoubleAndAdd(c, IDENTITY, m + n, p)
         == Add(c, DoubleAndAdd(c, IDENTITY, m, p), DoubleAndAdd(c, IDENTITY, n, p))
  {
    ScalarMultIsMultiple(c, m, p);
    ScalarMultIsMultiple(c, n, p);
    ScalarMultIsMultiple(c, m + n, p);
    MultipleAdd(c, m, n, p);
  }

  // ... and two scalar multiplications compose by multiplying the scalars.
  lemma ScalarMultComposes(c: Curve, k: nat, n: nat, p: Point)
    requires Group(c) && OnCurve(c, p)
    ensures 0 <= k * n
    ensures DoubleAndAdd(c, IDENTITY, k, DoubleAndAdd(c, IDENTITY, n, p)) == DoubleAndAdd(c, IDENTITY, k * n, p)
  {
    MultipleClosed(c, n, p);
    ScalarMultIsMultiple(c, n, p);
    ScalarMultIsMultiple(c, k, Multiple(c, n, p));
    MultipleOfMultiple(c, k, n, p);
    ScalarMultIsMultiple(c, k * n, p);
  }
}
