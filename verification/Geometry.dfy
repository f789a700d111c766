/** Dot products and distances over the exact reals, in any dimension. */
module Geometry {
  function Product(x: real, y: real): real {
    x * y
  }

  function Dot(a: seq<real>, b: seq<real>): real
    requires |a| == |b|
  {
    if a == [] then 0.0 else Product(a[0], b[0]) + Dot(a[1..], b[1..])
  }

  /** The square of the Euclidean distance. */
  function DistanceSquared(a: seq<real>, b: seq<real>): real
    requires |a| == |b|
  {
    if a == [] then 0.0 else Product(a[0] - b[0], a[0] - b[0]) + DistanceSquared(a[1..], b[1..])
  }

  predicate Unit(a: seq<real>) {
    Dot(a, a) == 1.0
  }

  lemma ProductPositive(x: real, y: real)
    requires x > 0.0 && y > 0.0
    ensures Product(x, y) > 0.0
  {}

  lemma ProductOfOpposites(x: real, y: real)
    ensures Product(-x, -y) == Product(x, y)
  {}

  lemma SquarePositive(d: real)
    ensures if d == 0.0 then Product(d, d) == 0.0 else Product(d, d) > 0.0
  {
    if d < 0.0 {
      ProductPositive(-d, -d);
      ProductOfOpposites(d, d);
    } else if d > 0.0 {
      ProductPositive(d, d);
    }
  }

  lemma SquareOfDifference(x: real, y: real)
    ensures Product(x - y, x - y) == Product(x, x) + Product(y, y) - 2.0 * Product(x, y)
  {}

  /** The law of cosines. */
  lemma {:induction false} DistanceIsDot(a: seq<real>, b: seq<real>)
    requires |a| == |b|
    ensures DistanceSquared(a, b) == Dot(a, a) + Dot(b, b) - 2.0 * Dot(a, b)
  {
    if a != [] {
      SquareOfDifference(a[0], b[0]);
      DistanceIsDot(a[1..], b[1..]);
    }
  }

  lemma {:induction false} DistancePositive(a: seq<real>, b: seq<real>)
    requires |a| == |b|
    ensures DistanceSquared(a, b) >= 0.0
    ensures DistanceSquared(a, b) == 0.0 ==> a == b
  {
    if a != [] {
      SquarePositive(a[0] - b[0]);
      DistancePositive(a[1..], b[1..]);
      assert a == [a[0]] + a[1..] && b == [b[0]] + b[1..];
    }
  }

  /** Cauchy-Schwarz for unit vectors, with its case of equality. */
  lemma UnitDot(a: seq<real>, b: seq<real>)
    requires |a| == |b| && Unit(a) && Unit(b)
    ensures Dot(a, b) <= 1.0
    ensures Dot(a, b) == 1.0 <==> a == b
  {
    DistanceIsDot(a, b);
    DistancePositive(a, b);
  }

  /** Among unit vectors a higher dot product is a smaller distance. */
  lemma CloserIsHigher(q: seq<real>, a: seq<real>, b: seq<real>)
    requires |q| == |a| == |b| && Unit(q) && Unit(a) && Unit(b)
    ensures Dot(a, q) > Dot(b, q) <==> DistanceSquared(a, q) < DistanceSquared(b, q)
    ensures Dot(a, q) == Dot(b, q) <==> DistanceSquared(a, q) == DistanceSquared(b, q)
  {
    DistanceIsDot(a, q);
    DistanceIsDot(b, q);
  }
}
