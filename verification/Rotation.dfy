/** Vectors over the reals, and their rotation about an axis by an angle given by its cosine and sine. */
module Rotation {

  datatype Vec = Vec(x: real, y: real, z: real)

  const ZERO := Vec(0.0, 0.0, 0.0)

  function Dot(u: Vec, v: Vec): real {
    u.x * v.x + u.y * v.y + u.z * v.z
  }

  function Cross(u: Vec, v: Vec): Vec {
    Vec(u.y * v.z - v.y * u.z, u.z * v.x - v.z * u.x, u.x * v.y - v.x * u.y)
  }

  function Plus(u: Vec, v: Vec): Vec {
    Vec(u.x + v.x, u.y + v.y, u.z + v.z)
  }

  function Times(a: real, v: Vec): Vec {
    Vec(a * v.x, a * v.y, a * v.z)
  }

  /** Rodrigues' formula: a part along the vector, a part across it, and a part along the axis. */
  function Rotate(v: Vec, k: Vec, c: real, s: real): Vec {
    Plus(Plus(Times(c, v), Times(s, Cross(k, v))), Times((1.0 - c) * Dot(k, v), k))
  }

  function RotateX(v: Vec, c: real, s: real): Vec {
    Vec(v.x, c * v.y - s * v.z, s * v.y + c * v.z)
  }

  function RotateY(v: Vec, c: real, s: real): Vec {
    Vec(c * v.x + s * v.z, v.y, -s * v.x + c * v.z)
  }

  function RotateZ(v: Vec, c: real, s: real): Vec {
    Vec(c * v.x - s * v.y, s * v.x + c * v.y, v.z)
  }

  // ----- the class

  class Vector {
    var x: real
    var y: real
    var z: real

    ghost function Value(): Vec
      reads this
    {
      Vec(x, y, z)
    }

    constructor (x: real, y: real, z: real)
      ensures Value() == Vec(x, y, z)
    {
      this.x, this.y, this.z := x, y, z;
    }

    method DotWith(other: Vector) returns (r: real)
      ensures r == Dot(Value(), other.Value())
    {
      r := x * other.x + y * other.y + z * other.z;
    }

    method LengthSquared() returns (r: real)
      ensures r == Dot(Value(), Value())
    {
      r := x * x + y * y + z * z;
    }

    /** `other` may be the vector itself. */
    method CrossProduct(other: Vector)
      modifies this
      ensures Value() == Cross(old(Value()), old(other.Value()))
    {
      var newX := y * other.z - other.y * z;
      var newY := z * other.x - other.z * x;
      var newZ := x * other.y - other.x * y;
      x := newX;
      y := newY;
      z := newZ;
    }

    method RotateAroundX(c: real, s: real)
      modifies this
      ensures Value() == Rotate(old(Value()), Vec(1.0, 0.0, 0.0), c, s)
    {
      XIsInstance(Value(), c, s);
      var newY := c * y - s * z;
      var newZ := s * y + c * z;
      y := newY;
      z := newZ;
    }

    method RotateAroundY(c: real, s: real)
      modifies this
      ensures Value() == Rotate(old(Value()), Vec(0.0, 1.0, 0.0), c, s)
    {
      YIsInstance(Value(), c, s);
      var newX := c * x + s * z;
      var newZ := -s * x + c * z;
      x := newX;
      z := newZ;
    }

    method RotateAroundZ(c: real, s: real)
      modifies this
      ensures Value() == Rotate(old(Value()), Vec(0.0, 0.0, 1.0), c, s)
    {
      ZIsInstance(Value(), c, s);
      var newX := c * x - s * y;
      var newY := s * x + c * y;
      x := newX;
      y := newY;
    }

    /** The axis may be the vector itself. */
    method RotateAroundNonUnitAxis(axis: Vector, c: real, s: real)
      modifies this
      ensures Value() == Rotate(old(Value()), old(axis.Value()), c, s)
    {
      var x1, y1, z1 := x, y, z;
      var x2, y2, z2 := axis.x, axis.y, axis.z;
      var dotProduct := DotWith(axis);
      Expanded(Value(), axis.Value(), c, s);
      var xPrime := x2 * dotProduct * (1.0 - c) + x1 * c + (-z2 * y1 + y2 * z1) * s;
      var yPrime := y2 * dotProduct * (1.0 - c) + y1 * c + (z2 * x1 - x2 * z1) * s;
      var zPrime := z2 * dotProduct * (1.0 - c) + z1 * c + (-y2 * x1 + x2 * y1) * s;
      ghost var r := Rotate(Value(), axis.Value(), c, s);
      assert xPrime == r.x && yPrime == r.y && zPrime == r.z;
      x := xPrime;
      y := yPrime;
      z := zPrime;
    }
  }

  lemma XIsInstance(v: Vec, c: real, s: real)
    ensures Rotate(v, Vec(1.0, 0.0, 0.0), c, s) == RotateX(v, c, s)
  {
  }

  lemma YIsInstance(v: Vec, c: real, s: real)
    ensures Rotate(v, Vec(0.0, 1.0, 0.0), c, s) == RotateY(v, c, s)
  {
  }

  lemma ZIsInstance(v: Vec, c: real, s: real)
    ensures Rotate(v, Vec(0.0, 0.0, 1.0), c, s) == RotateZ(v, c, s)
  {
  }

  /** The three components as the program computes them. */
  lemma Expanded(v: Vec, k: Vec, c: real, s: real)
    ensures var d, r := Dot(v, k), Rotate(v, k, c, s);
            && r.x == k.x * d * (1.0 - c) + v.x * c + (-k.z * v.y + k.y * v.z) * s
            && r.y == k.y * d * (1.0 - c) + v.y * c + (k.z * v.x - k.x * v.z) * s
            && r.z == k.z * d * (1.0 - c) + v.z * c + (-k.y * v.x + k.x * v.y) * s
  {
    var d := Dot(k, v);
    assert d == Dot(v, k);
    assert Cross(k, v).x == -k.z * v.y + k.y * v.z && Cross(k, v).y == k.z * v.x - k.x * v.z
        && Cross(k, v).z == -k.y * v.x + k.x * v.y;
    Reordered(k.x, d, 1.0 - c);
    Reordered(k.y, d, 1.0 - c);
    Reordered(k.z, d, 1.0 - c);
  }

  lemma Reordered(a: real, b: real, c: real)
    ensures a * b * c == (c * b) * a
  {
  }

  // ----- vector algebra

  lemma DotPlus(u: Vec, v: Vec, w: Vec)
    ensures Dot(Plus(u, v), w) == Dot(u, w) + Dot(v, w) && Dot(w, Plus(u, v)) == Dot(w, u) + Dot(w, v)
  {
  }

  lemma DotTimes(a: real, u: Vec, v: Vec)
    ensures Dot(Times(a, u), v) == a * Dot(u, v) && Dot(v, Times(a, u)) == a * Dot(v, u)
  {
  }

  lemma DotCross(k: Vec, u: Vec, v: Vec)
    ensures Dot(u, Cross(k, v)) == -Dot(Cross(k, u), v)
    ensures Dot(k, Cross(k, v)) == 0.0 && Dot(Cross(k, v), k) == 0.0
  {
  }

  lemma Lagrange(k: Vec, u: Vec, v: Vec, kk: real, uv: real, ku: real, kv: real)
    requires kk == Dot(k, k) && uv == Dot(u, v) && ku == Dot(k, u) && kv == Dot(k, v)
    ensures Dot(Cross(k, u), Cross(k, v)) == kk * uv - ku * kv
  {
    LagrangeOfReals(k.x, k.y, k.z, u.x, u.y, u.z, v.x, v.y, v.z, kk, uv, ku, kv);
    DotIs(Cross(k, u), Cross(k, v),
          (k.y * u.z - u.y * k.z) * (k.y * v.z - v.y * k.z) + (k.z * u.x - u.z * k.x) * (k.z * v.x - v.z * k.x)
          + (k.x * u.y - u.x * k.y) * (k.x * v.y - v.x * k.y));
  }

  lemma DotIs(u: Vec, v: Vec, r: real)
    requires r == u.x * v.x + u.y * v.y + u.z * v.z
    ensures Dot(u, v) == r
  {
  }

  lemma LagrangeOfReals(k1: real, k2: real, k3: real, u1: real, u2: real, u3: real, v1: real, v2: real, v3: real,
                        kk: real, uv: real, ku: real, kv: real)
    requires kk == k1 * k1 + k2 * k2 + k3 * k3 && uv == u1 * v1 + u2 * v2 + u3 * v3
    requires ku == k1 * u1 + k2 * u2 + k3 * u3 && kv == k1 * v1 + k2 * v2 + k3 * v3
    ensures (k2 * u3 - u2 * k3) * (k2 * v3 - v2 * k3) + (k3 * u1 - u3 * k1) * (k3 * v1 - v3 * k1)
            + (k1 * u2 - u1 * k2) * (k1 * v2 - v1 * k2)
            == kk * uv - ku * kv
  {
    LagrangeIdentity(k1, k2, k3, u1, u2, u3, v1, v2, v3);
  }

  lemma LagrangeIdentity(k1: real, k2: real, k3: real, u1: real, u2: real, u3: real,
                                v1: real, v2: real, v3: real)
    ensures (k2 * u3 - u2 * k3) * (k2 * v3 - v2 * k3) + (k3 * u1 - u3 * k1) * (k3 * v1 - v3 * k1)
            + (k1 * u2 - u1 * k2) * (k1 * v2 - v1 * k2)
            == (k1 * k1 + k2 * k2 + k3 * k3) * (u1 * v1 + u2 * v2 + u3 * v3)
               - (k1 * u1 + k2 * u2 + k3 * u3) * (k1 * v1 + k2 * v2 + k3 * v3)
  {
  }

  lemma Same(a: real, b: real, c: real, d: real)
    requires a == c && b == d
    ensures a * b == c * d
  {
  }

  // ----- lengths and angles

  /** The dot product with a rotated vector, term by term. */
  lemma DotRotate(w: Vec, v: Vec, k: Vec, c: real, s: real)
    ensures Dot(w, Rotate(v, k, c, s))
            == c * Dot(w, v) + s * Dot(w, Cross(k, v)) + (1.0 - c) * Dot(k, v) * Dot(w, k)
  {
    var a, b, e := Times(c, v), Times(s, Cross(k, v)), Times((1.0 - c) * Dot(k, v), k);
    DotPlus(Plus(a, b), e, w);
    DotPlus(a, b, w);
    DotTimes(c, v, w);
    DotTimes(s, Cross(k, v), w);
    DotTimes((1.0 - c) * Dot(k, v), k, w);
  }

  lemma DotCommutes(u: Vec, v: Vec)
    ensures Dot(u, v) == Dot(v, u)
  {
  }

  /** What a rotation adds to a dot product `d`, for dot products `a` and `b` with the axis and its square `q`. */
  function Defect(d: real, a: real, b: real, q: real, c: real, s: real): real {
    (q - 1.0) * (s * s * d + (1.0 - c) * (1.0 - c) * (a * b))
  }

  /** The dot product with a rotated vector, from the dot products it is made of. */
  lemma RotateDot(w: Vec, u: Vec, k: Vec, c: real, s: real, p: real, x: real, y: real, z: real)
    requires p == Dot(k, u) && x == Dot(w, u) && y == Dot(w, Cross(k, u)) && z == Dot(w, k)
    ensures Dot(Rotate(u, k, c, s), w) == Combine(c, s, p, x, y, z)
    ensures Dot(w, Rotate(u, k, c, s)) == Combine(c, s, p, x, y, z)
  {
    DotRotate(w, u, k, c, s);
    DotCommutes(w, Rotate(u, k, c, s));
  }

  function Combine(c: real, s: real, p: real, x: real, y: real, z: real): real {
    c * x + s * y + (1.0 - c) * p * z
  }

  /** The dot products of `v`, of the cross product and of the axis with those of `u`. */
  lemma CrossParts(u: Vec, v: Vec, k: Vec, d: real, a: real, b: real, q: real, t: real)
    requires d == Dot(u, v) && a == Dot(k, u) && b == Dot(k, v) && q == Dot(k, k) && t == Dot(u, Cross(k, v))
    ensures Dot(v, u) == d && Dot(v, Cross(k, u)) == -t && Dot(v, k) == b
    ensures Dot(Cross(k, v), u) == t && Dot(Cross(k, v), Cross(k, u)) == q * d - a * b && Dot(Cross(k, v), k) == 0.0
    ensures Dot(k, Cross(k, u)) == 0.0
  {
    DotCommutes(u, v);
    DotCommutes(k, v);
    DotCommutes(v, Cross(k, u));
    DotCross(k, u, v);
    DotCommutes(u, Cross(k, v));
    DotCross(k, v, v);
    DotCross(k, u, u);
    Lagrange(k, u, v, q, d, a, b);
    DotCommutes(Cross(k, v), Cross(k, u));
  }

  lemma DotOfRotated(u: Vec, v: Vec, k: Vec, c: real, s: real, d: real, a: real, b: real, q: real)
    requires d == Dot(u, v) && a == Dot(k, u) && b == Dot(k, v) && q == Dot(k, k)
    requires c * c + s * s == 1.0
    ensures Dot(Rotate(u, k, c, s), Rotate(v, k, c, s)) == d + Defect(d, a, b, q, c, s)
  {
    var r, w := Rotate(u, k, c, s), Cross(k, v);
    var t := Dot(u, w);
    CrossParts(u, v, k, d, a, b, q, t);
    RotateDot(v, u, k, c, s, a, d, -t, b);
    RotateDot(w, u, k, c, s, a, t, q * d - a * b, 0.0);
    RotateDot(k, u, k, c, s, a, a, 0.0, q);
    RotateDot(r, v, k, c, s, b, Dot(r, v), Dot(r, w), Dot(r, k));
    Combined(Dot(r, v), Dot(r, w), Dot(r, k), d, a, b, q, c, s, t);
  }

  lemma Combined(x: real, y: real, z: real, d: real, a: real, b: real, q: real, c: real, s: real, t: real)
    requires x == Combine(c, s, a, d, -t, b)
    requires y == Combine(c, s, a, t, q * d - a * b, 0.0)
    requires z == Combine(c, s, a, a, 0.0, q)
    requires c * c + s * s == 1.0
    ensures Combine(c, s, b, x, y, z) == d + Defect(d, a, b, q, c, s)
  {
    DefectIdentity(d, a, b, q, c, s, t, a * b, c * c, s * s);
  }

  lemma DefectIdentity(d: real, a: real, b: real, q: real, c: real, s: real, t: real, e: real, cc: real, ss: real)
    requires e == a * b && cc == c * c && ss == s * s && cc + ss == 1.0
    ensures c * (c * d + s * -t + (1.0 - c) * a * b)
            + s * (c * t + s * (q * d - a * b) + (1.0 - c) * a * 0.0)
            + (1.0 - c) * b * (c * a + s * 0.0 + (1.0 - c) * a * q)
            == d + (q - 1.0) * (ss * d + (1.0 - c) * (1.0 - c) * e)
  {
    Collected(d, a, b, q, c, s, t);
    Expansion(d, e, q, c, s);
    Same(cc + ss, d, c * c + s * s, d);
    Same(cc + ss, e, c * c + s * s, e);
    Same(cc + ss, d, 1.0, d);
    Same(cc + ss, e, 1.0, e);
  }

  lemma Expansion(d: real, e: real, q: real, c: real, s: real)
    ensures c * c * d + s * s * (q * d - e) + 2.0 * (c * (1.0 - c) * e) + (1.0 - c) * (1.0 - c) * e * q
            == d + (q - 1.0) * (s * s * d + (1.0 - c) * (1.0 - c) * e)
               + ((c * c + s * s) * d - d) - ((c * c + s * s) * e - e)
  {
  }

  lemma Collected(d: real, a: real, b: real, q: real, c: real, s: real, t: real)
    ensures c * (c * d + s * -t + (1.0 - c) * a * b)
            + s * (c * t + s * (q * d - a * b) + (1.0 - c) * a * 0.0)
            + (1.0 - c) * b * (c * a + s * 0.0 + (1.0 - c) * a * q)
            == c * c * d + s * s * (q * d - (a * b)) + 2.0 * (c * (1.0 - c) * (a * b))
               + (1.0 - c) * (1.0 - c) * (a * b) * q
  {
  }

  /** About a unit axis, a rotation keeps every dot product, and with it every length and angle. */
  lemma RotationIsIsometry(u: Vec, v: Vec, k: Vec, c: real, s: real)
    requires Dot(k, k) == 1.0 && c * c + s * s == 1.0
    ensures Dot(Rotate(u, k, c, s), Rotate(v, k, c, s)) == Dot(u, v)
  {
    DotOfRotated(u, v, k, c, s, Dot(u, v), Dot(k, u), Dot(k, v), Dot(k, k));
  }

  // ----- axes of any length

  lemma Signs(a: real, b: real)
    ensures a > 0.0 && b > 0.0 ==> a * b > 0.0
    ensures a < 0.0 && b < 0.0 ==> a * b > 0.0
    ensures a == 0.0 ==> a * b == 0.0
  {
  }

  lemma NoSquareRoot(a: real, b: real)
    requires a == b && a * b <= 0.0
    ensures a == 0.0
  {
    Signs(a, b);
  }

  lemma SquareIsZero(a: real, q: real)
    requires q == a * a
    ensures q >= 0.0
    ensures q == 0.0 <==> a == 0.0
  {
    if q == 0.0 { NoSquareRoot(a, a); }
  }

  lemma ProductIsZero(a: real, b: real, p: real)
    requires p == a * b
    ensures p == 0.0 <==> a == 0.0 || b == 0.0
  {
    if p == 0.0 && a != 0.0 {
      if a > 0.0 && b > 0.0 { Signs(a, b); }
      if a < 0.0 && b < 0.0 { Signs(a, b); }
      if a > 0.0 && b < 0.0 { Signs(a, -b); }
      if a < 0.0 && b > 0.0 { Signs(-a, b); }
    }
  }

  lemma SquareOfVector(v: Vec, d: real)
    requires d == Dot(v, v)
    ensures d >= 0.0
    ensures d == 0.0 <==> v == ZERO
  {
    var p, q, r := v.x * v.x, v.y * v.y, v.z * v.z;
    SquareIsZero(v.x, p);
    SquareIsZero(v.y, q);
    SquareIsZero(v.z, r);
  }

  lemma DefectIsZero(d: real, a: real, q: real, c: real, s: real)
    requires d >= 0.0
    ensures Defect(d, a, a, q, c, s) == 0.0
            <==> q == 1.0 || ((s == 0.0 || d == 0.0) && (c == 1.0 || a == 0.0))
  {
    var ss, cc, aa := s * s, (1.0 - c) * (1.0 - c), a * a;
    var m, n := ss * d, cc * aa;
    SquareIsZero(s, ss);
    SquareIsZero(1.0 - c, cc);
    SquareIsZero(a, aa);
    ProductIsZero(ss, d, m);
    ProductIsZero(cc, aa, n);
    NonNegative(ss, d, m);
    NonNegative(cc, aa, n);
    ProductIsZero(q - 1.0, m + n, Defect(d, a, a, q, c, s));
  }

  lemma NonNegative(a: real, b: real, p: real)
    requires a >= 0.0 && b >= 0.0 && p == a * b
    ensures p >= 0.0
  {
  }

  /**
   * Exactly when a rotation about an axis of any length keeps a vector's length: the axis is a unit vector, or
   * the rotation leaves the vector alone anyhow (no sine part, and no part along the axis to be scaled).
   */
  lemma LengthKeptExactly(v: Vec, k: Vec, c: real, s: real)
    requires c * c + s * s == 1.0
    ensures var r := Rotate(v, k, c, s);
            Dot(r, r) == Dot(v, v)
            <==> Dot(k, k) == 1.0 || ((s == 0.0 || v == ZERO) && (c == 1.0 || Dot(k, v) == 0.0))
  {
    LengthKept(v, k, c, s, Dot(v, v), Dot(k, v), Dot(k, k));
  }

  lemma LengthKept(v: Vec, k: Vec, c: real, s: real, d: real, a: real, q: real)
    requires d == Dot(v, v) && a == Dot(k, v) && q == Dot(k, k)
    requires c * c + s * s == 1.0
    ensures var r := Rotate(v, k, c, s);
            Dot(r, r) == d <==> q == 1.0 || ((s == 0.0 || v == ZERO) && (c == 1.0 || a == 0.0))
  {
    DotOfRotated(v, v, k, c, s, d, a, a, q);
    SquareOfVector(v, d);
    DefectIsZero(d, a, q, c, s);
  }

  // ----- turning on, and turning back

  lemma CrossPlus(k: Vec, u: Vec, v: Vec)
    ensures Cross(k, Plus(u, v)) == Plus(Cross(k, u), Cross(k, v))
  {
  }

  lemma CrossTimes(k: Vec, a: real, v: Vec, w: Vec)
    requires w == Cross(k, v)
    ensures Cross(k, Times(a, v)) == Times(a, w)
  {
    TakeOut(a, k.y, v.z, v.y, k.z, w.x);
    TakeOut(a, k.z, v.x, v.z, k.x, w.y);
    TakeOut(a, k.x, v.y, v.x, k.y, w.z);
  }

  lemma TakeOut(a: real, p: real, q: real, r: real, s: real, w: real)
    requires w == p * q - r * s
    ensures p * (a * q) - (a * r) * s == a * w
  {
  }

  lemma DoubleCross(k: Vec, v: Vec, a: real, q: real)
    requires a == Dot(k, v) && q == Dot(k, k)
    ensures Cross(k, Cross(k, v)) == Plus(Times(a, k), Times(-q, v))
  {
    DoubleCrossOfReals(k.x, k.y, k.z, v.x, v.y, v.z, a, q);
    DoubleCrossOfReals(k.y, k.z, k.x, v.y, v.z, v.x, a, q);
    DoubleCrossOfReals(k.z, k.x, k.y, v.z, v.x, v.y, a, q);
  }

  lemma DoubleCrossOfReals(k1: real, k2: real, k3: real, v1: real, v2: real, v3: real, a: real, q: real)
    requires a == k1 * v1 + k2 * v2 + k3 * v3 && q == k1 * k1 + k2 * k2 + k3 * k3
    ensures k2 * (k1 * v2 - v1 * k2) - (k3 * v1 - v3 * k1) * k3 == a * k1 + -q * v1
  {
  }

  lemma CrossRotate(v: Vec, k: Vec, c: real, s: real, a: real, q: real)
    requires a == Dot(k, v) && q == Dot(k, k)
    ensures Cross(k, Rotate(v, k, c, s))
            == Plus(Times(c, Cross(k, v)), Times(s, Plus(Times(a, k), Times(-q, v))))
  {
    DoubleCross(k, v, a, q);
    CrossRotateTwice(v, k, c, s, Cross(k, v), Plus(Times(a, k), Times(-q, v)));
  }

  lemma CrossRotateTwice(v: Vec, k: Vec, c: real, s: real, w: Vec, d: Vec)
    requires w == Cross(k, v) && d == Cross(k, w)
    ensures Cross(k, Rotate(v, k, c, s)) == Plus(Times(c, w), Times(s, d))
  {
    var t := (1.0 - c) * Dot(k, v);
    var p, r, e := Times(c, v), Times(s, w), Times(t, k);
    CrossPlus(k, Plus(p, r), e);
    CrossPlus(k, p, r);
    CrossTimes(k, c, v, w);
    CrossTimes(k, s, w, d);
    CrossSelf(k);
    CrossTimes(k, t, k, ZERO);
    TimesZero(t);
    PlusZero(Plus(Times(c, w), Times(s, d)));
  }

  lemma CrossSelf(k: Vec)
    ensures Cross(k, k) == ZERO
  {
  }

  lemma PlusZero(v: Vec)
    ensures Plus(v, ZERO) == v
  {
  }

  lemma TimesZero(a: real)
    ensures Times(a, ZERO) == ZERO
  {
  }

  /** One component of a rotated vector. */
  function Turn(c: real, s: real, a: real, v: real, w: real, k: real): real {
    c * v + s * w + (1.0 - c) * a * k
  }

  function TurnAll(c: real, s: real, a: real, v: Vec, w: Vec, k: Vec): Vec {
    Vec(Turn(c, s, a, v.x, w.x, k.x), Turn(c, s, a, v.y, w.y, k.y), Turn(c, s, a, v.z, w.z, k.z))
  }

  lemma RotateIsTurn(v: Vec, k: Vec, c: real, s: real, a: real, w: Vec)
    requires a == Dot(k, v) && w == Cross(k, v)
    ensures Rotate(v, k, c, s) == TurnAll(c, s, a, v, w, k)
  {
  }

  lemma TurnsAdd(v: real, w: real, k: real, a: real, c1: real, s1: real, c2: real, s2: real, v2: real, w2: real)
    requires v2 == Turn(c1, s1, a, v, w, k) && w2 == c1 * w + s1 * (a * k + -1.0 * v)
    ensures Turn(c2, s2, a, v2, w2, k) == Turn(c1 * c2 - s1 * s2, s1 * c2 + c1 * s2, a, v, w, k)
  {
  }

  lemma TurnAllAdds(v: Vec, w: Vec, k: Vec, a: real, c1: real, s1: real, c2: real, s2: real, r: Vec, x: Vec)
    requires r == TurnAll(c1, s1, a, v, w, k)
    requires x == Plus(Times(c1, w), Times(s1, Plus(Times(a, k), Times(-1.0, v))))
    ensures TurnAll(c2, s2, a, r, x, k) == TurnAll(c1 * c2 - s1 * s2, s1 * c2 + c1 * s2, a, v, w, k)
  {
    TurnsAdd(v.x, w.x, k.x, a, c1, s1, c2, s2, r.x, x.x);
    TurnsAdd(v.y, w.y, k.y, a, c1, s1, c2, s2, r.y, x.y);
    TurnsAdd(v.z, w.z, k.z, a, c1, s1, c2, s2, r.z, x.z);
  }

  lemma AxisPartKept(v: Vec, k: Vec, c: real, s: real, a: real)
    requires Dot(k, k) == 1.0 && a == Dot(k, v)
    ensures Dot(k, Rotate(v, k, c, s)) == a
  {
    DotCross(k, v, v);
    RotateDot(k, v, k, c, s, a, a, 0.0, 1.0);
  }

  /** Two rotations about a unit axis are one, by the sum of the angles. */
  lemma RotationsAdd(v: Vec, k: Vec, c1: real, s1: real, c2: real, s2: real)
    requires Dot(k, k) == 1.0
    ensures Rotate(Rotate(v, k, c1, s1), k, c2, s2) == Rotate(v, k, c1 * c2 - s1 * s2, s1 * c2 + c1 * s2)
  {
    var a, w, r := Dot(k, v), Cross(k, v), Rotate(v, k, c1, s1);
    AxisPartKept(v, k, c1, s1, a);
    CrossRotate(v, k, c1, s1, a, Dot(k, k));
    RotateIsTurn(v, k, c1, s1, a, w);
    TurnAllAdds(v, w, k, a, c1, s1, c2, s2, r, Cross(k, r));
    RotateIsTurn(r, k, c2, s2, a, Cross(k, r));
    RotateIsTurn(v, k, c1 * c2 - s1 * s2, s1 * c2 + c1 * s2, a, w);
  }

  /** Turning back by the same angle gives the vector back. */
  lemma RotationUndone(v: Vec, k: Vec, c: real, s: real)
    requires Dot(k, k) == 1.0 && c * c + s * s == 1.0
    ensures Rotate(Rotate(v, k, c, s), k, c, -s) == v
  {
    RotationsAdd(v, k, c, s, c, -s);
    assert s * -s == -(s * s);
    NoTurn(v, k);
  }

  lemma NoTurn(v: Vec, k: Vec)
    ensures Rotate(v, k, 1.0, 0.0) == v
  {
  }

  lemma AxisScaled(k: Vec, c: real, s: real, q: real)
    requires q == Dot(k, k)
    ensures Rotate(k, k, c, s) == Times(1.0 + (1.0 - c) * (q - 1.0), k)
  {
    CrossSelf(k);
    RotateIsTurn(k, k, c, s, q, ZERO);
    AxisTurns(k, c, s, q);
  }

  lemma AxisTurns(k: Vec, c: real, s: real, q: real)
    ensures TurnAll(c, s, q, k, ZERO, k) == Times(1.0 + (1.0 - c) * (q - 1.0), k)
  {
    AxisTurn(k.x, c, s, q);
    AxisTurn(k.y, c, s, q);
    AxisTurn(k.z, c, s, q);
  }

  lemma AxisTurn(x: real, c: real, s: real, q: real)
    ensures Turn(c, s, q, x, 0.0, x) == (1.0 + (1.0 - c) * (q - 1.0)) * x
  {
  }

  /** Scaling leaves a number alone when it scales by 1 or the number is 0. */
  lemma Scaled(e: real, x: real)
    ensures (1.0 + e) * x == x <==> e == 0.0 || x == 0.0
  {
    ProductIsZero(e, x, e * x);
  }

  lemma ScaledVector(e: real, k: Vec)
    ensures Times(1.0 + e, k) == k <==> e == 0.0 || k == ZERO
  {
    Scaled(e, k.x);
    Scaled(e, k.y);
    Scaled(e, k.z);
  }

  /** The axis stays where it is exactly when it is a unit vector, zero, or there is no turn to scale it. */
  lemma AxisStays(k: Vec, c: real, s: real, q: real)
    requires q == Dot(k, k)
    ensures Rotate(k, k, c, s) == k <==> q == 1.0 || c == 1.0 || k == ZERO
  {
    AxisScaled(k, c, s, q);
    ScaledVector((1.0 - c) * (q - 1.0), k);
    ProductIsZero(1.0 - c, q - 1.0, (1.0 - c) * (q - 1.0));
  }

  // ----- which way it turns

  /** The axes are right-handed, and swapping the factors turns a cross product round. */
  lemma CrossOfAxes(u: Vec, v: Vec, a: real, b: real, o: real)
    requires o == 0.0
    ensures Cross(Vec(a, o, o), Vec(o, b, o)) == Vec(o, o, a * b)
    ensures Cross(Vec(o, a, o), Vec(o, o, b)) == Vec(a * b, o, o)
    ensures Cross(Vec(o, o, a), Vec(b, o, o)) == Vec(o, a * b, o)
    ensures Plus(Cross(u, v), Cross(v, u)) == Vec(o, o, o)
  {
  }

  /**
   * By the right-hand rule: a vector across a unit axis turns towards the cross product of the axis with it, by
   * the angle of the cosine and sine given.
   */
  lemma TurnsRightHanded(v: Vec, k: Vec, c: real, s: real, d: real)
    requires Dot(k, k) == 1.0 && Dot(k, v) == 0.0 && d == Dot(v, v)
    ensures Dot(v, Rotate(v, k, c, s)) == c * d && Dot(Cross(k, v), Rotate(v, k, c, s)) == s * d
  {
    var w := Cross(k, v);
    DotCross(k, v, v);
    VectorCrossesItself(k, v);
    RotateDot(v, v, k, c, s, 0.0, d, 0.0, Dot(v, k));
    Lagrange(k, v, v, 1.0, d, 0.0, 0.0);
    DotCommutes(w, v);
    RotateDot(w, v, k, c, s, 0.0, 0.0, d, Dot(w, k));
  }

  lemma VectorCrossesItself(k: Vec, v: Vec)
    ensures Dot(v, Cross(k, v)) == 0.0 && Dot(Cross(k, v), v) == 0.0
  {
  }

  /** About each coordinate axis, the next axis turns towards the one after it. */
  lemma AxesTurn(a: real, c: real, s: real, o: real)
    requires o == 0.0
    ensures RotateX(Vec(o, a, o), c, s) == Vec(o, c * a, s * a)
    ensures RotateY(Vec(o, o, a), c, s) == Vec(s * a, o, c * a)
    ensures RotateZ(Vec(a, o, o), c, s) == Vec(c * a, s * a, o)
  {
  }
}
