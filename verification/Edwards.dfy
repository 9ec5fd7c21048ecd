/** The twisted Edwards curve -x^2 + y^2 = 1 + d x^2 y^2 over the integers modulo p,
    with affine points and the addition formula of ed25519.py.

    From "p is prime, p % 8 == 5 and d has no square root" the modules EdwardsDenominators and
    EdwardsClosure prove that the addition formula never divides by zero on the curve, stays on
    the curve, commutes and has (0, 1) as its unit.  Associativity is the one group law taken as
    a hypothesis. */
module Edwards {
  import opened Wrappers
  import opened NumberTheory
  import opened SquareRoots

  datatype Curve = Curve(p: int, d: int)

  datatype Point = Point(x: int, y: int)

  const IDENTITY := Point(0, 1)

  function Inv(c: Curve, v: int): int
    requires c.p > 2
  {
    PowMod(v, c.p - 2, c.p)
  }

  function Add(c: Curve, a: Point, b: Point): Point
    requires c.p > 2
  {
    var den := (c.d * a.x * b.x * a.y * b.y) % c.p;
    Point(((a.x * b.y + b.x * a.y) * Inv(c, 1 + den)) % c.p,
          ((a.y * b.y + a.x * b.x) * Inv(c, 1 - den)) % c.p)
  }

  // The left side of the curve equation minus its right side.
  ghost function Residue(d: int, a: Point): int {
    a.y * a.y - a.x * a.x - 1 - d * ((a.x * a.y) * (a.x * a.y))
  }

  ghost predicate OnCurve(c: Curve, a: Point)
    requires c.p > 2
  {
    Z(Residue(c.d, a), c.p)
  }

  predicate Reduced(c: Curve, a: Point) {
    0 <= a.x < c.p && 0 <= a.y < c.p
  }

  ghost predicate NonSquare(d: int, p: int)
    requires p > 0
  {
    forall w: int {:trigger IsRoot(w, d, p)} :: !IsRoot(w, d, p)
  }

  ghost predicate IsRoot(w: int, d: int, p: int)
    requires p > 0
  {
    Z(w * w - d, p)
  }

  ghost predicate Complete(c: Curve) {
    Prime(c.p) && c.p % 8 == 5 && NonSquare(c.d, c.p)
  }

  ghost predicate AssociativeAt(c: Curve, a: Point, b: Point, e: Point)
    requires c.p > 2
  {
    Add(c, Add(c, a, b), e) == Add(c, a, Add(c, b, e))
  }

  ghost predicate Associative(c: Curve)
    requires c.p > 2
  {
    forall a, b, e {:trigger AssociativeAt(c, a, b, e)} ::
      OnCurve(c, a) && OnCurve(c, b) && OnCurve(c, e) ==> AssociativeAt(c, a, b, e)
  }

  lemma ModulusAtLeastFive(c: Curve)
    requires Prime(c.p) && c.p % 8 == 5
    ensures c.p >= 5
  {}

  lemma InverseZ(c: Curve, v: int)
    requires c.p > 2 && Prime(c.p) && !Z(v, c.p)
    ensures Z(v * Inv(c, v) - 1, c.p)
  {
    InverseByPower(v, c.p);
    ModBasics(1, c.p);
    ZIffEq(v * Inv(c, v), 1, c.p);
  }
}
