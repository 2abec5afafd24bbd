/** Points of y^2 = x^3 + b in Jacobian coordinates, as crypto/curve.go computes
    with them, modulo an arbitrary positive modulus. */
module Curve {
  import opened ModArith

  /** Stands for the affine point (x / z^2, y / z^3). */
  datatype Jac = Jac(x: int, y: int, z: int)

  /** A difference brought back above zero. */
  function Lift(v: int, p: int): int {
    if v < 0 then v + p else v
  }

  /** `addJacobian`. */
  function AddJacobian(p: int, a: Jac, b: Jac): Jac
    requires p > 0
  {
    var z1z1 := (a.z * a.z) % p;
    var z2z2 := (b.z * b.z) % p;
    var u1 := (a.x * z2z2) % p;
    var u2 := (b.x * z1z1) % p;
    var h := Lift(u2 - u1, p);
    var i := (2 * h) * (2 * h);
    var j := h * i;
    var s1 := (a.y * b.z * z2z2) % p;
    var s2 := (b.y * a.z * z1z1) % p;
    var r := 2 * Lift(s2 - s1, p);
    var v := u1 * i;
    var x3 := (r * r - j - v - v) % p;
    var y3 := (r * (v - x3) - 2 * (s1 * j)) % p;
    var zz := (a.z + b.z) * (a.z + b.z);
    var z3 := (Lift(Lift(zz - z1z1, p) - z2z2, p) * h) % p;
    Jac(x3, y3, z3)
  }

  /** `doubleJacobian`. */
  function DoubleJacobian(p: int, a: Jac): Jac
    requires p > 0
  {
    var aa := a.x * a.x;
    var bb := a.y * a.y;
    var c := bb * bb;
    var d := ((a.x + bb) * (a.x + bb) - aa - c) * 2;
    var e := 3 * aa;
    var f := e * e;
    var x3 := (f - 2 * d) % p;
    var y3 := (e * (d - x3) - 8 * c) % p;
    var z3 := (2 * (a.y * a.z)) % p;
    Jac(x3, y3, z3)
  }

  function Cube(a: int): int {
    a * a * a
  }

  function Sixth(a: int): int {
    Cube(a * a)
  }

  /** The curve equation Y^2 = X^3 + b Z^6 modulo `p`. */
  predicate OnCurve(p: int, b: int, a: Jac)
    requires p > 0
  {
    Cong(a.y * a.y, Cube(a.x) + b * Sixth(a.z), p)
  }

  predicate CongJac(p: int, a: Jac, b: Jac)
    requires p > 0
  {
    Cong(a.x, b.x, p) && Cong(a.y, b.y, p) && Cong(a.z, b.z, p)
  }

  // ---------- the formulas without reduction ----------

  /** Doubling over the integers. */
  function Doubled(a: Jac): Jac {
    var m, s := 3 * (a.x * a.x), 4 * (a.x * (a.y * a.y));
    var x3 := m * m - 2 * s;
    Jac(x3, m * (s - x3) - 8 * ((a.y * a.y) * (a.y * a.y)), 2 * (a.y * a.z))
  }

  /** Addition over the integers from U1, S1, H = U2 - U1, R = S2 - S1 and
      W = Z1 Z2: four, eight and two times these are the coordinates. */
  function Chord(u: int, s: int, h: int, r: int, w: int): Jac {
    var x := r * r - h * h * h - 2 * (u * (h * h));
    Jac(4 * x, 8 * (r * (u * (h * h) - x) - s * (h * h * h)), 2 * (w * h))
  }

  lemma CongCube(a: int, b: int, p: int)
    requires p > 0 && Cong(a, b, p)
    ensures Cong(a * a, b * b, p) && Cong(Cube(a), Cube(b), p)
  {
    CongMul(a, b, a, b, p);
    CongMul(a * a, b * b, a, b, p);
  }

  lemma CongSixth(a: int, b: int, p: int)
    requires p > 0 && Cong(a, b, p)
    ensures Cong(Sixth(a), Sixth(b), p)
  {
    CongCube(a, b, p);
    CongCube(a * a, b * b, p);
  }

  /** The curve equation does not depend on representatives. */
  lemma OnCurveCong(p: int, b: int, a: Jac, c: Jac)
    requires p > 0 && CongJac(p, a, c) && OnCurve(p, b, c)
    ensures OnCurve(p, b, a)
  {
    CongCube(a.y, c.y, p);
    CongCube(a.x, c.x, p);
    CongSixth(a.z, c.z, p);
    CongMul(b, b, Sixth(a.z), Sixth(c.z), p);
    CongAdd(Cube(a.x), Cube(c.x), b * Sixth(a.z), b * Sixth(c.z), p);
  }

  // ---------- doubling ----------

  lemma CrossTerm(x: int, bb: int)
    ensures ((x + bb) * (x + bb) - x * x - bb * bb) * 2 == 4 * (x * bb)
  {
  }

  lemma SlopeReduces(p: int, e: int, d: int, x3: int, c: int)
    requires p > 0
    ensures Cong((e * (d - x3 % p) - 8 * c) % p, e * (d - x3) - 8 * c, p)
  {
    CongMod(x3, p);
    CongAdd(d, d, x3 % p, x3, p);
    CongMul(e, e, d - x3 % p, d - x3, p);
    CongAdd(e * (d - x3 % p), e * (d - x3), 8 * c, 8 * c, p);
    CongMod(e * (d - x3 % p) - 8 * c, p);
  }

  /** `doubleJacobian` reduces the integer formulas. */
  lemma DoubleReduces(p: int, a: Jac)
    requires p > 0
    ensures CongJac(p, DoubleJacobian(p, a), Doubled(a))
  {
    var bb := a.y * a.y;
    var c, e, d := bb * bb, 3 * (a.x * a.x), 4 * (a.x * bb);
    CrossTerm(a.x, bb);
    CongMod(e * e - 2 * d, p);
    SlopeReduces(p, e, d, e * e - 2 * d, c);
    CongMod(2 * (a.y * a.z), p);
  }

  /** Doubling multiplies the defect Y^2 - X^3 by (2 Y)^6. */
  lemma DoubledDefect(a: Jac)
    ensures var d := Doubled(a);
            d.y * d.y - Cube(d.x) == Sixth(2 * a.y) * (a.y * a.y - Cube(a.x))
  {
    var m, s, q := 3 * (a.x * a.x), 4 * (a.x * (a.y * a.y)), (a.y * a.y) * (a.y * a.y);
    var t := 3 * s - m * m;
    var d := Doubled(a);
    assert d.x == s - t && d.y == m * t - 8 * q;
    DefectAlgebra(m, s, t, q);
    DefectValues(a.x, a.y * a.y);
    SixthOfTwice(a.y);
  }

  lemma DefectAlgebra(m: int, s: int, t: int, q: int)
    requires t == 3 * s - m * m
    ensures (m * t - 8 * q) * (m * t - 8 * q) - Cube(s - t) == 64 * (q * q) - Cube(s) + t * (3 * (s * s) - 16 * (m * q))
  {
    assert (m * t - 8 * q) * (m * t - 8 * q) == (m * m) * (t * t) - 16 * (m * q) * t + 64 * (q * q);
    assert Cube(s - t) == Cube(s) - 3 * (s * s) * t + 3 * s * (t * t) - t * (t * t);
    assert (m * m) * (t * t) - 3 * s * (t * t) + t * (t * t) == (m * m - 3 * s + t) * (t * t);
  }

  lemma DefectValues(x: int, yy: int)
    ensures var m, s, q := 3 * (x * x), 4 * (x * yy), yy * yy;
            && 3 * (s * s) == 16 * (m * q)
            && 64 * (q * q) - Cube(s) == 64 * Cube(yy) * (yy - Cube(x))
  {
    var s := 4 * (x * yy);
    assert s * s == 16 * ((x * x) * (yy * yy));
    assert Cube(s) == 64 * (Cube(x) * Cube(yy)) by {
      assert Cube(s) == (16 * ((x * x) * (yy * yy))) * (4 * (x * yy));
      assert ((x * x) * (yy * yy)) * (x * yy) == (x * x * x) * (yy * yy * yy);
    }
    assert (yy * yy) * (yy * yy) == Cube(yy) * yy;
  }

  lemma SixthOfTwice(y: int)
    ensures Sixth(2 * y) == 64 * Cube(y * y)
  {
    assert (2 * y) * (2 * y) == 4 * (y * y);
  }

  lemma SixthOfProduct(a: int, b: int)
    ensures Sixth(a * b) == Sixth(a) * Sixth(b)
  {
    var x, y := a * a, b * b;
    assert (a * b) * (a * b) == x * y;
    assert (x * y) * (x * y) * (x * y) == (x * x * x) * (y * y * y);
  }

  /** Doubling stays on the curve, for every modulus. */
  lemma DoubleOnCurve(p: int, b: int, a: Jac)
    requires p > 0 && OnCurve(p, b, a)
    ensures OnCurve(p, b, DoubleJacobian(p, a))
  {
    var d, k := Doubled(a), Sixth(2 * a.y);
    DoubledDefect(a);
    // Y^2 - X^3 is congruent to b Z^6; scale by k = (2 Y)^6.
    CongAdd(a.y * a.y, Cube(a.x) + b * Sixth(a.z), Cube(a.x), Cube(a.x), p);
    CongMul(k, k, a.y * a.y - Cube(a.x), b * Sixth(a.z), p);
    SixthOfProduct(2 * a.y, a.z);
    assert d.z == (2 * a.y) * a.z;
    assert k * (b * Sixth(a.z)) == b * (k * Sixth(a.z));
    CongAdd(d.y * d.y - Cube(d.x), b * Sixth(d.z), Cube(d.x), Cube(d.x), p);
    DoubleReduces(p, a);
    OnCurveCong(p, b, DoubleJacobian(p, a), d);
  }

  // ---------- addition ----------

  lemma LiftCong(v: int, w: int, p: int)
    requires p > 0 && Cong(v, w, p)
    ensures Cong(Lift(v, p), w, p)
  {
    CongByMultiple(v + p, v, 1, p);
  }

  /** The two points of an addition brought to a common denominator. */
  function U(a: Jac, b: Jac): int {
    a.x * (b.z * b.z)
  }

  function S(a: Jac, b: Jac): int {
    a.y * Cube(b.z)
  }

  function ChordOf(a: Jac, b: Jac): Jac {
    Chord(U(a, b), S(a, b), U(b, a) - U(a, b), S(b, a) - S(a, b), a.z * b.z)
  }

  lemma CommonReduces(p: int, a: Jac, b: Jac)
    requires p > 0
    ensures var zz := (b.z * b.z) % p;
            && Cong(zz, b.z * b.z, p)
            && Cong((a.x * zz) % p, U(a, b), p)
            && Cong((a.y * b.z * zz) % p, S(a, b), p)
  {
    var zz := (b.z * b.z) % p;
    CongMod(b.z * b.z, p);
    CongMul(a.x, a.x, zz, b.z * b.z, p);
    CongMod(a.x * zz, p);
    CongMul(a.y * b.z, a.y * b.z, zz, b.z * b.z, p);
    CongMod(a.y * b.z * zz, p);
    assert a.y * b.z * (b.z * b.z) == S(a, b);
  }

  /** The products of the addition formulas, reduced operand by operand. */
  lemma ChordReduces(p: int, u1: int, s1: int, h1: int, r1: int, u: int, s: int, h: int, r: int)
    requires p > 0 && Cong(u1, u, p) && Cong(s1, s, p) && Cong(h1, h, p) && Cong(r1, r, p)
    ensures var i, rr := (2 * h1) * (2 * h1), 2 * r1;
            var j, v := h1 * i, u1 * i;
            var x3 := (rr * rr - j - v - v) % p;
            && Cong(x3, Chord(u, s, h, r, 0).x, p)
            && Cong((rr * (v - x3) - 2 * (s1 * j)) % p, Chord(u, s, h, r, 0).y, p)
  {
    var i1, i := (2 * h1) * (2 * h1), (2 * h) * (2 * h);
    var rr1, rr := 2 * r1, 2 * r;
    CongMul(2, 2, h1, h, p);
    CongMul(2, 2, r1, r, p);
    CongMul(2 * h1, 2 * h, 2 * h1, 2 * h, p);
    CongMul(h1, h, i1, i, p);
    CongMul(u1, u, i1, i, p);
    var j1, j, v1, v := h1 * i1, h * i, u1 * i1, u * i;
    CongMul(rr1, rr, rr1, rr, p);
    CongAdd(rr1 * rr1, rr * rr, j1, j, p);
    CongAdd(rr1 * rr1 - j1, rr * rr - j, v1, v, p);
    CongAdd(rr1 * rr1 - j1 - v1, rr * rr - j - v, v1, v, p);
    var x1, x := rr1 * rr1 - j1 - v1 - v1, rr * rr - j - v - v;
    CongMod(x1, p);
    CongAdd(v1, v, x1 % p, x, p);
    CongMul(rr1, rr, v1 - x1 % p, v - x, p);
    CongMul(s1, s, j1, j, p);
    CongMul(2, 2, s1 * j1, s * j, p);
    CongAdd(rr1 * (v1 - x1 % p), rr * (v - x), 2 * (s1 * j1), 2 * (s * j), p);
    CongMod(rr1 * (v1 - x1 % p) - 2 * (s1 * j1), p);
    ChordScaled(u, s, h, r);
  }

  lemma ChordScaled(u: int, s: int, h: int, r: int)
    ensures var i, rr := (2 * h) * (2 * h), 2 * r;
            var j, v := h * i, u * i;
            var x := rr * rr - j - v - v;
            && x == Chord(u, s, h, r, 0).x
            && rr * (v - x) - 2 * (s * j) == Chord(u, s, h, r, 0).y
  {
    var i := (2 * h) * (2 * h);
    assert i == 4 * (h * h) && h * i == 4 * (h * h * h) && u * i == 4 * (u * (h * h));
    var x := r * r - h * h * h - 2 * (u * (h * h));
    assert (2 * r) * (4 * (u * (h * h)) - 4 * x) == 8 * (r * (u * (h * h) - x));
    assert s * (4 * (h * h * h)) == 4 * (s * (h * h * h));
  }

  lemma SquareLess(z1: int, z2: int)
    ensures (z1 + z2) * (z1 + z2) - z1 * z1 - z2 * z2 == 2 * (z1 * z2)
  {
  }

  lemma TwoLifts(p: int, zz: int, a: int, b: int)
    requires p > 0
    ensures Cong(Lift(Lift(zz - a % p, p) - b % p, p), zz - a - b, p)
  {
    CongMod(a, p);
    CongMod(b, p);
    CongAdd(zz, zz, a % p, a, p);
    LiftCong(zz - a % p, zz - a, p);
    CongAdd(Lift(zz - a % p, p), zz - a, b % p, b, p);
    LiftCong(Lift(zz - a % p, p) - b % p, zz - a - b, p);
  }

  lemma ProductReduces(p: int, z: int, w: int, h1: int, h: int)
    requires p > 0 && Cong(z, w, p) && Cong(h1, h, p)
    ensures Cong((z * h1) % p, w * h, p)
  {
    CongMul(z, w, h1, h, p);
    CongMod(z * h1, p);
  }

  lemma ZReduces(p: int, z1: int, z2: int, h1: int, h: int)
    requires p > 0 && Cong(h1, h, p)
    ensures var zz, z1z1, z2z2 := (z1 + z2) * (z1 + z2), (z1 * z1) % p, (z2 * z2) % p;
            Cong((Lift(Lift(zz - z1z1, p) - z2z2, p) * h1) % p, 2 * ((z1 * z2) * h), p)
  {
    var zz := (z1 + z2) * (z1 + z2);
    TwoLifts(p, zz, z1 * z1, z2 * z2);
    SquareLess(z1, z2);
    ProductReduces(p, Lift(Lift(zz - (z1 * z1) % p, p) - (z2 * z2) % p, p), 2 * (z1 * z2), h1, h);
    Regroup(z1 * z2, h);
  }

  lemma Regroup(w: int, h: int)
    ensures (2 * w) * h == 2 * (w * h)
  {
  }

  lemma DifferenceReduces(p: int, v1: int, v2: int, w1: int, w2: int)
    requires p > 0 && Cong(v1, w1, p) && Cong(v2, w2, p)
    ensures Cong(Lift(v2 - v1, p), w2 - w1, p)
  {
    CongAdd(v2, w2, v1, w1, p);
    LiftCong(v2 - v1, w2 - w1, p);
  }

  /** `addJacobian` reduces the integer formulas. */
  lemma AddReduces(p: int, a: Jac, b: Jac)
    requires p > 0
    ensures CongJac(p, AddJacobian(p, a, b), ChordOf(a, b))
  {
    CommonReduces(p, a, b);
    CommonReduces(p, b, a);
    var z1z1, z2z2 := (a.z * a.z) % p, (b.z * b.z) % p;
    var u1, u2 := (a.x * z2z2) % p, (b.x * z1z1) % p;
    var s1, s2 := (a.y * b.z * z2z2) % p, (b.y * a.z * z1z1) % p;
    DifferenceReduces(p, u1, u2, U(a, b), U(b, a));
    DifferenceReduces(p, s1, s2, S(a, b), S(b, a));
    var h1, r1 := Lift(u2 - u1, p), Lift(s2 - s1, p);
    var h, r := U(b, a) - U(a, b), S(b, a) - S(a, b);
    ChordReduces(p, u1, s1, h1, r1, U(a, b), S(a, b), h, r);
    ZReduces(p, a.z, b.z, h1, h);
  }

  lemma SquareOfDifference(r: int, t: int, s: int, k: int)
    ensures (r * t - s * k) * (r * t - s * k) == (r * r) * (t * t) - 2 * ((r * s) * (t * k)) + (s * s) * (k * k)
  {
    assert (r * t) * (r * t) == (r * r) * (t * t);
    assert (r * t) * (s * k) == (r * s) * (t * k);
    assert (s * k) * (s * k) == (s * s) * (k * k);
  }

  /** Powers of h in the chord formulas. */
  lemma ChordPowers(u: int, h: int, t: int)
    ensures var q, k := h * h, h * h * h;
            && k * k == Sixth(h)
            && Cube(u * q) == Cube(u) * (k * k)
            && ((u * q) * (u * q)) * t == ((u * u) * h) * (t * k)
  {
    var q, k := h * h, h * h * h;
    assert q * q * q == k * k && q * q == h * k;
    assert (u * q) * (u * q) * (u * q) == (u * u * u) * (q * q * q);
    assert (u * q) * (u * q) == (u * u) * (h * k);
    assert ((u * u) * (h * k)) * t == ((u * u) * h) * (t * k);
  }

  lemma CollectTk(rr: int, uq: int, t: int, k: int)
    requires t == 3 * uq + k - rr
    ensures rr * (t * t) - 3 * uq * (t * t) + t * (t * t) == (t * k) * t
  {
    assert rr * (t * t) - 3 * uq * (t * t) + t * (t * t) == (rr - 3 * uq + t) * (t * t);
  }

  /** Along the chord the defect is a combination of the defects `e1` and `e2`
      of the two points. */
  lemma ChordDefect(u: int, s: int, h: int, r: int, c: int)
    ensures var x := r * r - h * h * h - 2 * (u * (h * h));
            var t := u * (h * h) - x;
            var y := r * t - s * (h * h * h);
            var e1 := s * s - Cube(u) - c;
            var e2 := (s + r) * (s + r) - Cube(u + h) - c;
            y * y - Cube(x) - c * Sixth(h) == e1 * Sixth(h) - (t * Cube(h)) * (e2 - e1)
  {
    var q, k := h * h, h * h * h;
    var uq := u * q;
    var x := r * r - k - 2 * uq;
    var t := uq - x;
    assert t == 3 * uq + k - r * r;
    SquareOfDifference(r, t, s, k);
    CubeOfDifference(uq, t);
    ChordPowers(u, h, t);
    CollectTk(r * r, uq, t, k);
    ChordDifference(u, s, h, r);
    Collect(t * k, t, r * s, (u * u) * h, uq, r * r, k);
    Distribute(s * s, Cube(u), c, k * k);
  }

  lemma Distribute(a: int, b: int, c: int, k: int)
    ensures (a - b - c) * k == a * k - b * k - c * k
  {
  }

  lemma CubeOfDifference(a: int, t: int)
    ensures Cube(a - t) == Cube(a) - 3 * ((a * a) * t) + 3 * a * (t * t) - t * (t * t)
  {
  }

  lemma ChordDifference(u: int, s: int, h: int, r: int)
    ensures (s + r) * (s + r) - Cube(u + h) - (s * s - Cube(u))
            == 2 * (r * s) + r * r - 3 * ((u * u) * h) - 3 * (u * (h * h)) - h * h * h
  {
    assert Cube(u + h) == Cube(u) + 3 * ((u * u) * h) + 3 * (u * (h * h)) + h * h * h;
  }

  lemma Collect(tk: int, t: int, rs: int, uuh: int, uq: int, rr: int, k: int)
    requires t == 3 * uq + k - rr
    ensures tk * t - 2 * (rs * tk) + 3 * (uuh * tk) == -(tk * (2 * rs + rr - 3 * uuh - 3 * uq - k))
  {
    assert tk * t - 2 * (rs * tk) + 3 * (uuh * tk) == tk * (t - 2 * rs + 3 * uuh);
  }

  lemma CommonAlgebra(x: int, y: int, z: int)
    ensures (y * Cube(z)) * (y * Cube(z)) == (y * y) * Sixth(z)
    ensures Cube(x * (z * z)) == Cube(x) * Sixth(z)
  {
    var c, zz := Cube(z), z * z;
    assert c * c == Sixth(z);
    assert (y * c) * (y * c) == (y * y) * (c * c);
    assert (x * zz) * (x * zz) * (x * zz) == (x * x * x) * (zz * zz * zz);
  }

  /** A point brought to the common denominator still has defect zero. */
  lemma CommonOnCurve(p: int, b: int, a: Jac, z: int)
    requires p > 0 && OnCurve(p, b, a)
    ensures var u, s := a.x * (z * z), a.y * Cube(z);
            Cong(s * s - Cube(u) - b * Sixth(a.z * z), 0, p)
  {
    var k, yy, xxx, bz := Sixth(z), a.y * a.y, Cube(a.x), b * Sixth(a.z);
    CongAdd(yy, xxx + bz, xxx + bz, xxx + bz, p);
    CongMul(yy - (xxx + bz), 0, k, k, p);
    CommonAlgebra(a.x, a.y, z);
    SixthOfProduct(a.z, z);
    assert b * (Sixth(a.z) * k) == bz * k;
    assert (yy - (xxx + bz)) * k == yy * k - xxx * k - bz * k;
  }

  /** Addition stays on the curve, for every modulus, also when the two points
      share their x coordinate. */
  lemma AddOnCurve(p: int, b: int, a: Jac, a': Jac)
    requires p > 0 && OnCurve(p, b, a) && OnCurve(p, b, a')
    ensures OnCurve(p, b, AddJacobian(p, a, a'))
  {
    var u, s, w := U(a, a'), S(a, a'), a.z * a'.z;
    var h, r, c := U(a', a) - u, S(a', a) - s, b * Sixth(w);
    CommonOnCurve(p, b, a, a'.z);
    CommonOnCurve(p, b, a', a.z);
    assert a'.z * a.z == w;
    var e1, e2 := s * s - Cube(u) - c, (s + r) * (s + r) - Cube(u + h) - c;
    assert Cong(e1, 0, p) && Cong(e2, 0, p);
    var x := r * r - h * h * h - 2 * (u * (h * h));
    var t := u * (h * h) - x;
    var y := r * t - s * (h * h * h);
    ChordDefect(u, s, h, r, c);
    CongMul(e1, 0, Sixth(h), Sixth(h), p);
    CongAdd(e2, 0, e1, 0, p);
    CongMul(t * Cube(h), t * Cube(h), e2 - e1, 0, p);
    CongAdd(e1 * Sixth(h), 0, (t * Cube(h)) * (e2 - e1), 0, p);
    ScaleOnCurve(p, b, x, y, w, h);
    AddReduces(p, a, a');
    OnCurveCong(p, b, AddJacobian(p, a, a'), ChordOf(a, a'));
  }

  /** From y^2 = x^3 + b w^6 h^6 to the scaled coordinates 4x, 8y, 2wh. */
  lemma ScaleOnCurve(p: int, b: int, x: int, y: int, w: int, h: int)
    requires p > 0 && Cong(y * y - Cube(x) - b * Sixth(w) * Sixth(h), 0, p)
    ensures OnCurve(p, b, Jac(4 * x, 8 * y, 2 * (w * h)))
  {
    var e := y * y - Cube(x) - b * Sixth(w) * Sixth(h);
    CongMul(64, 64, e, 0, p);
    SixthOfTwice(w * h);
    SixthOfProduct(w, h);
    assert (8 * y) * (8 * y) == 64 * (y * y);
    assert Cube(4 * x) == 64 * Cube(x);
    assert b * (64 * (Sixth(w) * Sixth(h))) == 64 * (b * Sixth(w) * Sixth(h));
    var rhs := Cube(4 * x) + b * Sixth(2 * (w * h));
    assert 64 * e == (8 * y) * (8 * y) - rhs;
    CongAdd(64 * e, 0, rhs, rhs, p);
  }
}
