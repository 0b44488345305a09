/**
 * Vectors, the rotation about the vertical axis that paste, undo and preview share, and the
 * boxes and spheres capture and undo search.  Floats are modelled as reals.  A rotation is the
 * pair (cosine, sine) of its angle, constrained to the unit circle.  A sphere carries the square
 * of its radius, so that no square root is needed to say which points it covers.
 */
module Geometry {

  datatype Vec = Vec(x: real, y: real, z: real)

  datatype Rot = Rot(pitch: real, yaw: real, roll: real)

  datatype CosSin = CosSin(c: real, s: real)

  type Turn = t: CosSin | t.c * t.c + t.s * t.s == 1.0 witness CosSin(1.0, 0.0)

  datatype Sphere = Sphere(center: Vec, radiusSq: real)

  const NO_TURN: Turn := CosSin(1.0, 0.0)

  function Add(a: Vec, b: Vec): Vec {
    Vec(a.x + b.x, a.y + b.y, a.z + b.z)
  }

  function Sub(a: Vec, b: Vec): Vec {
    Vec(a.x - b.x, a.y - b.y, a.z - b.z)
  }

  function Min(a: real, b: real): real {
    if a <= b then a else b
  }

  function Max(a: real, b: real): real {
    if a >= b then a else b
  }

  function RotateAroundZ(v: Vec, t: Turn): Vec {
    Vec(v.x * t.c - v.y * t.s, v.x * t.s + v.y * t.c, v.z)
  }

  function Square(x: real): real {
    x * x
  }

  function DistSq(a: Vec, b: Vec): real {
    Square(a.x - b.x) + Square(a.y - b.y) + Square(a.z - b.z)
  }

  predicate InBox(p: Vec, lo: Vec, hi: Vec) {
    lo.x <= p.x <= hi.x && lo.y <= p.y <= hi.y && lo.z <= p.z <= hi.z
  }

  predicate InSphere(p: Vec, s: Sphere) {
    DistSq(p, s.center) <= s.radiusSq
  }

  /** Centre at the middle of the box, radius half of its diagonal. */
  function EnclosingSphere(lo: Vec, hi: Vec): Sphere {
    Sphere(Vec((lo.x + hi.x) * 0.5, (lo.y + hi.y) * 0.5, (lo.z + hi.z) * 0.5),
           0.25 * (Square(hi.x - lo.x) + Square(hi.y - lo.y) + Square(hi.z - lo.z)))
  }

  lemma SquareIsNotNegative(x: real)
    ensures Square(x) >= 0.0
  {
  }

  lemma SquareMonotone(a: real, b: real)
    requires -b <= a <= b
    ensures Square(a) <= Square(b)
  {
    assert (b - a) * (b + a) >= 0.0;
    assert (b - a) * (b + a) == b * b - a * a;
  }

  lemma ProductPositive(a: real, b: real)
    requires a > 0.0 && b > 0.0
    ensures a * b > 0.0
  {
  }

  lemma SquareStrict(a: real, b: real)
    requires 0.0 <= a < b
    ensures Square(a) < Square(b)
  {
    ProductPositive(b - a, b + a);
    assert (b - a) * (b + a) == b * b - a * a;
  }

  lemma BoundedBySquare(a: real, h: real)
    requires h >= 0.0 && Square(a) <= Square(h)
    ensures -h <= a <= h
  {
    if a > h { SquareStrict(h, a); }
    if -a > h { SquareStrict(h, -a); }
  }

  lemma SquareHalf(b: real)
    ensures Square(b * 0.5) == 0.25 * Square(b)
  {
  }

  lemma MidpointReach(p: real, lo: real, hi: real)
    requires lo <= p <= hi
    ensures Square(p - (lo + hi) * 0.5) <= 0.25 * Square(hi - lo)
  {
    SquareMonotone(p - (lo + hi) * 0.5, (hi - lo) * 0.5);
    SquareHalf(hi - lo);
  }

  /** The octree query over the enclosing sphere cannot miss a point of the box. */
  lemma SphereCoversBox(p: Vec, lo: Vec, hi: Vec)
    requires InBox(p, lo, hi)
    ensures InSphere(p, EnclosingSphere(lo, hi))
  {
    MidpointReach(p.x, lo.x, hi.x);
    MidpointReach(p.y, lo.y, hi.y);
    MidpointReach(p.z, lo.z, hi.z);
  }

  lemma SquareOfSum(a: real, b: real)
    ensures Square(a + b) == Square(a) + 2.0 * (a * b) + Square(b)
    ensures Square(a - b) == Square(a) - 2.0 * (a * b) + Square(b)
  {
  }

  lemma SquareOfProduct(a: real, b: real)
    ensures Square(a * b) == Square(a) * Square(b)
  {
    calc {
      Square(a * b);
      (a * b) * (a * b);
      a * (b * (a * b));
      a * ((b * a) * b);
      a * ((a * b) * b);
      (a * a) * (b * b);
    }
  }

  /** Rotation keeps the horizontal length of every vector and does not touch its height. */
  lemma RotationIsIsometry(v: Vec, t: Turn)
    ensures var r := RotateAroundZ(v, t);
            Square(r.x) + Square(r.y) == Square(v.x) + Square(v.y) && r.z == v.z
  {
    var xc, ys, xs, yc := v.x * t.c, v.y * t.s, v.x * t.s, v.y * t.c;
    SquareOfSum(xc, ys);
    SquareOfSum(xs, yc);
    CrossTerms(v, t);
    Components(v.x, t);
    Components(v.y, t);
  }

  lemma CrossTerms(v: Vec, t: Turn)
    ensures (v.x * t.c) * (v.y * t.s) == (v.x * t.s) * (v.y * t.c)
  {
    Reorder(v.x, t.c, v.y, t.s);
    Reorder(v.x, t.s, v.y, t.c);
    assert t.c * t.s == t.s * t.c;
  }

  lemma Components(a: real, t: Turn)
    ensures Square(a * t.c) + Square(a * t.s) == Square(a)
  {
    SquareOfProduct(a, t.c);
    SquareOfProduct(a, t.s);
    Distribute(Square(a), Square(t.c), Square(t.s));
    assert Square(t.c) + Square(t.s) == 1.0;
  }

  lemma Distribute(a: real, b: real, c: real)
    ensures a * b + a * c == a * (b + c)
  {
  }

  lemma Reorder(a: real, b: real, c: real, d: real)
    ensures (a * b) * (c * d) == (a * c) * (b * d)
  {
    calc {
      (a * b) * (c * d);
      a * (b * (c * d));
      a * ((b * c) * d);
      a * ((c * b) * d);
      a * (c * (b * d));
      (a * c) * (b * d);
    }
  }

  lemma NoTurnKeeps(v: Vec)
    ensures RotateAroundZ(v, NO_TURN) == v
  {
  }

  /** The product of a factor in [0, size] with `f` lies between 0 and `size * f`. */
  lemma ScaledBetween(p: real, size: real, f: real)
    requires 0.0 <= p <= size
    ensures Min(0.0, size * f) <= p * f <= Max(0.0, size * f)
  {
    if f >= 0.0 {
      assert p * f >= 0.0;
      assert (size - p) * f >= 0.0;
      assert (size - p) * f == size * f - p * f;
    } else {
      assert p * (-f) >= 0.0;
      assert (size - p) * (-f) >= 0.0;
      assert (size - p) * (-f) == p * f - size * f;
      assert p * (-f) == -(p * f);
    }
  }
}
