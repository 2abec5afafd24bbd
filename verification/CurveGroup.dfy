/** The chord-and-tangent group of y^2 = x^3 + b over a prime field, and the
    Jacobian formulas of crypto/curve.go as a representation of it. */
module CurveGroup {
  import opened ModArith
  import opened Curve

  datatype Point = Inf | Aff(x: int, y: int)

  /** A field the curve formulas work in: an odd prime modulus. */
  ghost predicate Field(p: int) {
    Prime(p) && p > 2
  }

  ghost predicate On(p: int, b: int, a: Point)
    requires p > 0
  {
    a.Aff? ==> 0 <= a.x < p && 0 <= a.y < p && Cong(a.y * a.y, Cube(a.x) + b, p)
  }

  function Neg(p: int, a: Point): Point
    requires p > 0
  {
    if a.Inf? then Inf else Aff(a.x, (-a.y) % p)
  }

  /** The third point of the line of slope `l` through (x, y), reflected. */
  function Third(p: int, l: int, x: int, y: int, x2: int): Point
    requires p > 0
  {
    var x3 := (l * l - x - x2) % p;
    Aff(x3, (l * (x - x3) - y) % p)
  }

  /** The group operation. */
  ghost function Add(p: int, a: Point, b: Point): Point
    requires Field(p)
  {
    if a.Inf? then b
    else if b.Inf? then a
    else if (b.x - a.x) % p != 0 then Third(p, (b.y - a.y) * Inverse(b.x - a.x, p), a.x, a.y, b.x)
    else if (b.y - a.y) % p == 0 && (2 * a.y) % p != 0 then Third(p, 3 * (a.x * a.x) * Inverse(2 * a.y, p), a.x, a.y, a.x)
    else Inf
  }

  /** `j` represents the affine point `a`: x = X / Z^2 and y = Y / Z^3. */
  ghost predicate Rep(p: int, j: Jac, a: Point)
    requires p > 0
  {
    a.Aff? && j.z % p != 0 && Cong(j.x, a.x * (j.z * j.z), p) && Cong(j.y, a.y * Cube(j.z), p)
  }

  lemma NonZero(a: int, b: int, p: int)
    requires Prime(p) && a % p != 0 && b % p != 0
    ensures (a * b) % p != 0
  {
    if (a * b) % p == 0 {
      NoZeroDivisors(a, b, p);
    }
  }

  /** Times its inverse is one. */
  lemma SlopeTimes(n: int, d: int, p: int)
    requires Prime(p) && d % p != 0
    ensures Cong((n * Inverse(d, p)) * d, n, p)
  {
    Invertible(d, p);
    ModUnique(1, 0, 1, p);
    CongMul(d * Inverse(d, p), 1, n, n, p);
    assert (n * Inverse(d, p)) * d == (d * Inverse(d, p)) * n;
  }

  lemma ScaleAlgebra(x: int, y: int, z: int, v: int)
    ensures (x * (z * z)) * (v * v) == x * ((z * v) * (z * v))
    ensures (y * Cube(z)) * Cube(v) == y * Cube(z * v)
  {
    assert (z * v) * (z * v) == (z * z) * (v * v);
    CubeOfProduct(z, v);
    assert (y * Cube(z)) * Cube(v) == y * (Cube(z) * Cube(v));
  }

  /** Coordinates over a common scale `v` represent the point that they
      represent without it. */
  lemma RepScaled(p: int, j: Jac, c: Jac, v: int, a: Point)
    requires Prime(p) && v % p != 0
    requires CongJac(p, j, Jac(c.x * (v * v), c.y * Cube(v), c.z * v)) && Rep(p, c, a)
    ensures Rep(p, j, a)
  {
    NonZero(c.z, v, p);
    var z := c.z * v;
    CongMul(c.x, a.x * (c.z * c.z), v * v, v * v, p);
    CongMul(c.y, a.y * Cube(c.z), Cube(v), Cube(v), p);
    ScaleAlgebra(a.x, a.y, c.z, v);
    CongCube(j.z, z, p);
    CongMul(a.x, a.x, j.z * j.z, z * z, p);
    CongMul(a.y, a.y, Cube(j.z), Cube(z), p);
  }

  lemma CubeOfProduct(a: int, b: int)
    ensures Cube(a * b) == Cube(a) * Cube(b)
  {
    assert (a * b) * (a * b) * (a * b) == (a * a * a) * (b * b * b);
  }

  // ---------- doubling ----------

  lemma DoubledCong(p: int, a: Jac, b: Jac)
    requires p > 0 && CongJac(p, a, b)
    ensures CongJac(p, Doubled(a), Doubled(b))
  {
    CongCube(a.x, b.x, p);
    CongCube(a.y, b.y, p);
    var m1, m := 3 * (a.x * a.x), 3 * (b.x * b.x);
    CongMul(3, 3, a.x * a.x, b.x * b.x, p);
    CongMul(a.x, b.x, a.y * a.y, b.y * b.y, p);
    CongMul(4, 4, a.x * (a.y * a.y), b.x * (b.y * b.y), p);
    var s1, s := 4 * (a.x * (a.y * a.y)), 4 * (b.x * (b.y * b.y));
    CongMul(m1, m, m1, m, p);
    CongMul(2, 2, s1, s, p);
    CongAdd(m1 * m1, m * m, 2 * s1, 2 * s, p);
    var x1, x := m1 * m1 - 2 * s1, m * m - 2 * s;
    CongAdd(s1, s, x1, x, p);
    CongMul(m1, m, s1 - x1, s - x, p);
    var q1, q := (a.y * a.y) * (a.y * a.y), (b.y * b.y) * (b.y * b.y);
    CongMul(a.y * a.y, b.y * b.y, a.y * a.y, b.y * b.y, p);
    CongMul(8, 8, q1, q, p);
    CongAdd(m1 * (s1 - x1), m * (s - x), 8 * q1, 8 * q, p);
    CongMul(a.y, b.y, a.z, b.z, p);
    CongMul(2, 2, a.y * a.z, b.y * b.z, p);
  }

  /** The intermediate values of doubling at a scaled point. */
  lemma ScaledSquares(x: int, y: int, z: int)
    ensures var X, Y, w := x * (z * z), y * Cube(z), (z * z) * (z * z);
            && X * X == (x * x) * w
            && X * (Y * Y) == (x * (y * y)) * (w * w)
            && (Y * Y) * (Y * Y) == ((y * y) * (y * y)) * Cube(w)
            && Y * z == y * w
  {
    var zz, c := z * z, Cube(z);
    var w := zz * zz;
    assert c == z * zz;
    assert c * z == w;
    assert c * c == zz * w by {
      ProductSquare(z, zz);
    }
    ProductSquare(x, zz);
    ProductSquare(y, c);
    ScaledProduct(x, y * y, zz, w);
    assert (y * c) * z == y * (c * z);
  }

  lemma ScaledProduct(x: int, yy: int, zz: int, w: int)
    requires w == zz * zz
    ensures (x * zz) * (yy * (zz * w)) == (x * yy) * (w * w)
    ensures (yy * (zz * w)) * (yy * (zz * w)) == (yy * yy) * Cube(w)
  {
    var k := zz * w;
    assert zz * k == w * w by {
      assert zz * (zz * w) == (zz * zz) * w;
    }
    assert (x * zz) * (yy * k) == (x * yy) * (zz * k);
    ProductSquare(yy, k);
    ProductSquare(zz, w);
  }

  lemma ProductSquare(a: int, b: int)
    ensures (a * b) * (a * b) == (a * a) * (b * b)
  {
  }

  /** Doubling is homogeneous: scaling the input scales the output. */
  lemma DoubledScales(x: int, y: int, z: int)
    ensures var d, w := Doubled(Jac(x, y, 1)), (z * z) * (z * z);
            Doubled(Jac(x * (z * z), y * Cube(z), z)) == Jac(d.x * (w * w), d.y * Cube(w), d.z * w)
  {
    var w := (z * z) * (z * z);
    var m, s, q := 3 * (x * x), 4 * (x * (y * y)), (y * y) * (y * y);
    ScaledSquares(x, y, z);
    assert 3 * ((x * x) * w) == m * w && 4 * ((x * (y * y)) * (w * w)) == s * (w * w);
    ScaleParts(m, s, q, w);
    assert 2 * (y * w) == (2 * (y * 1)) * w;
  }

  lemma ScaleParts(m: int, s: int, q: int, w: int)
    ensures var x := m * m - 2 * s;
            var X := (m * w) * (m * w) - 2 * (s * (w * w));
            && X == x * (w * w)
            && (m * w) * (s * (w * w) - X) - 8 * (q * Cube(w)) == (m * (s - x) - 8 * q) * Cube(w)
  {
    var x := m * m - 2 * s;
    var ww := w * w;
    assert (m * w) * (m * w) == (m * m) * ww;
    assert s * ww - x * ww == (s - x) * ww;
    assert (m * w) * ((s - x) * ww) == (m * (s - x)) * (w * ww);
    assert (m * (s - x) - 8 * q) * Cube(w) == (m * (s - x)) * Cube(w) - 8 * (q * Cube(w));
  }

  lemma TangentAlgebra(l: int, x: int, y: int, x3: int)
    ensures var s, n := 4 * (x * (y * y)), 2 * y;
            && (l * l - x - x) * (n * n) == (l * n) * (l * n) - 2 * s
            && (l * (x - x3) - y) * Cube(n) == (l * n) * (s - x3 * (n * n)) - 8 * ((y * y) * (y * y))
  {
    var n := 2 * y;
    var nn := n * n;
    assert nn == 4 * (y * y);
    ProductSquare(l, n);
    assert (l * l - x - x) * nn == (l * l) * nn - 2 * (x * nn);
    assert x * nn == 4 * (x * (y * y));
    assert (x - x3) * nn == x * nn - x3 * nn;
    assert (l * (x - x3)) * Cube(n) == (l * n) * ((x - x3) * nn);
    assert y * Cube(n) == 8 * ((y * y) * (y * y)) by {
      assert y * Cube(n) == y * (nn * n);
    }
    assert (l * (x - x3) - y) * Cube(n) == (l * (x - x3)) * Cube(n) - y * Cube(n);
  }

  /** The tangent formula in projective form: with l (2y) = 3x^2, doubling
      (x, y, 1) represents the third point of the tangent. */
  lemma TangentRep(p: int, l: int, x: int, y: int)
    requires Field(p) && (2 * y) % p != 0 && Cong(l * (2 * y), 3 * (x * x), p)
    ensures Rep(p, Doubled(Jac(x, y, 1)), Third(p, l, x, y, x))
  {
    var d, t := Doubled(Jac(x, y, 1)), Third(p, l, x, y, x);
    var m, s, n, q := 3 * (x * x), 4 * (x * (y * y)), 2 * y, 8 * ((y * y) * (y * y));
    var ln := l * n;
    assert d.z == n && d.x == m * m - 2 * s && d.y == m * (s - d.x) - q;
    TangentAlgebra(l, x, y, t.x);
    CongMod(l * l - x - x, p);
    CongMod(l * (x - t.x) - y, p);
    // x3 n^2 = (l n)^2 - 2 x n^2
    CongMul(t.x, l * l - x - x, n * n, n * n, p);
    CongMul(ln, m, ln, m, p);
    CongAdd(ln * ln, m * m, 2 * s, 2 * s, p);
    var xn := t.x * (n * n);
    assert Cong(d.x, xn, p);
    // y3 n^3 = (l n) (x n^2 - x3 n^2) - y n^3
    CongMul(t.y, l * (x - t.x) - y, Cube(n), Cube(n), p);
    CongAdd(s, s, xn, d.x, p);
    CongMul(ln, m, s - xn, s - d.x, p);
    CongAdd(ln * (s - xn), m * (s - d.x), q, q, p);
  }

  /** `doubleJacobian` computes the tangent: it represents the double of the
      point its argument represents, unless that point has order two. */
  lemma DoubleRepresents(p: int, j: Jac, a: Point)
    requires Field(p) && Rep(p, j, a) && (2 * a.y) % p != 0
    ensures Rep(p, DoubleJacobian(p, j), Add(p, a, a))
  {
    var l, z := 3 * (a.x * a.x) * Inverse(2 * a.y, p), j.z;
    ModUnique(0, 0, 0, p);
    SlopeTimes(3 * (a.x * a.x), 2 * a.y, p);
    TangentRep(p, l, a.x, a.y);
    DoubleReduces(p, j);
    DoubledCong(p, j, Jac(a.x * (z * z), a.y * Cube(z), z));
    DoubledScales(a.x, a.y, z);
    NonZero(z, z, p);
    NonZero(z * z, z * z, p);
    RepScaled(p, DoubleJacobian(p, j), Doubled(Jac(a.x, a.y, 1)), (z * z) * (z * z), Add(p, a, a));
  }

  // ---------- addition ----------

  lemma ChordCong(p: int, u1: int, s1: int, h1: int, r1: int, w1: int, u: int, s: int, h: int, r: int, w: int)
    requires p > 0 && Cong(u1, u, p) && Cong(s1, s, p) && Cong(h1, h, p) && Cong(r1, r, p) && Cong(w1, w, p)
    ensures CongJac(p, Chord(u1, s1, h1, r1, w1), Chord(u, s, h, r, w))
  {
    CongMul(r1, r, r1, r, p);
    CongCube(h1, h, p);
    CongMul(u1, u, h1 * h1, h * h, p);
    var a1, a := u1 * (h1 * h1), u * (h * h);
    CongMul(2, 2, a1, a, p);
    CongAdd(r1 * r1, r * r, Cube(h1), Cube(h), p);
    CongAdd(r1 * r1 - Cube(h1), r * r - Cube(h), 2 * a1, 2 * a, p);
    var x1, x := r1 * r1 - Cube(h1) - 2 * a1, r * r - Cube(h) - 2 * a;
    CongMul(4, 4, x1, x, p);
    CongAdd(a1, a, x1, x, p);
    CongMul(r1, r, a1 - x1, a - x, p);
    CongMul(s1, s, Cube(h1), Cube(h), p);
    CongAdd(r1 * (a1 - x1), r * (a - x), s1 * Cube(h1), s * Cube(h), p);
    CongMul(8, 8, r1 * (a1 - x1) - s1 * Cube(h1), r * (a - x) - s * Cube(h), p);
    CongMul(w1, w, h1, h, p);
    CongMul(2, 2, w1 * h1, w * h, p);
  }

  /** The chord formulas are homogeneous. */
  lemma ChordScales(u: int, s: int, h: int, r: int, w: int)
    ensures var c, v := Chord(u, s, h, r, 1), Cube(w);
            Chord(u * (w * w), s * v, h * (w * w), r * v, w) == Jac(c.x * (v * v), c.y * Cube(v), c.z * v)
  {
    var q, v := w * w, Cube(w);
    assert v == w * q;
    var hh, hhh := h * h, h * h * h;
    var x := r * r - hhh - 2 * (u * hh);
    assert q * q * q == v * v by {
      ProductSquare(w, q);
    }
    ProductSquare(h, q);
    assert (h * q) * (h * q) * (h * q) == hhh * (v * v) by {
      assert (hh * (q * q)) * (h * q) == hhh * (q * q * q);
    }
    assert (u * q) * (hh * (q * q)) == (u * hh) * (v * v) by {
      assert (u * q) * (hh * (q * q)) == (u * hh) * (q * q * q);
    }
    ProductSquare(r, v);
    ChordParts(r, hhh, u * hh, s, v);
    assert w * (h * q) == h * v;
  }

  lemma ChordParts(r: int, k: int, a: int, s: int, v: int)
    ensures var x := r * r - k - 2 * a;
            var X := (r * r) * (v * v) - k * (v * v) - 2 * (a * (v * v));
            && X == x * (v * v)
            && (r * v) * (a * (v * v) - X) - (s * v) * (k * (v * v)) == (r * (a - x) - s * k) * Cube(v)
  {
    var x, vv := r * r - k - 2 * a, v * v;
    assert (r * r) * vv - k * vv - 2 * (a * vv) == x * vv;
    assert a * vv - x * vv == (a - x) * vv;
    assert (r * v) * ((a - x) * vv) == (r * (a - x)) * (v * vv);
    assert (s * v) * (k * vv) == (s * k) * (v * vv);
    assert (r * (a - x) - s * k) * Cube(v) == (r * (a - x)) * Cube(v) - (s * k) * Cube(v);
  }

  lemma ChordAlgebra(l: int, x1: int, y1: int, h: int, x3: int)
    ensures var hh := h * h;
            && (l * l - x1 - (x1 + h)) * hh == (l * h) * (l * h) - h * h * h - 2 * (x1 * hh)
            && (l * (x1 - x3) - y1) * Cube(h) == (l * h) * (x1 * hh - x3 * hh) - y1 * (h * h * h)
  {
    var hh := h * h;
    ProductSquare(l, h);
    assert (l * l - x1 - (x1 + h)) * hh == (l * l) * hh - 2 * (x1 * hh) - h * hh;
    assert (x1 - x3) * hh == x1 * hh - x3 * hh;
    assert (l * (x1 - x3)) * Cube(h) == (l * h) * ((x1 - x3) * hh);
    assert (l * (x1 - x3) - y1) * Cube(h) == (l * (x1 - x3)) * Cube(h) - y1 * Cube(h);
  }

  /** The chord formula in projective form: with l h = r, the sum represents the
      third point of the chord. */
  lemma ChordRep(p: int, l: int, x1: int, y1: int, x2: int, r: int)
    requires Field(p) && (x2 - x1) % p != 0 && Cong(l * (x2 - x1), r, p)
    ensures Rep(p, Chord(x1, y1, x2 - x1, r, 1), Third(p, l, x1, y1, x2))
  {
    var h, t := x2 - x1, Third(p, l, x1, y1, x2);
    var hh, k, lh := h * h, h * h * h, l * h;
    var a := x1 * hh;
    var x := r * r - k - 2 * a;
    ChordAlgebra(l, x1, y1, h, t.x);
    CongMod(l * l - x1 - x2, p);
    CongMod(l * (x1 - t.x) - y1, p);
    CongMul(t.x, l * l - x1 - x2, hh, hh, p);
    CongMul(lh, r, lh, r, p);
    CongAdd(lh * lh, r * r, k, k, p);
    CongAdd(lh * lh - k, r * r - k, 2 * a, 2 * a, p);
    var xh := t.x * hh;
    assert Cong(xh, x, p);
    CongMul(t.y, l * (x1 - t.x) - y1, Cube(h), Cube(h), p);
    CongAdd(a, a, xh, x, p);
    CongMul(lh, r, a - xh, a - x, p);
    CongAdd(lh * (a - xh), r * (a - x), y1 * k, y1 * k, p);
    var y := r * (a - x) - y1 * k;
    assert Cong(t.y * Cube(h), y, p);
    RepTwice(p, x, y, h, t);
  }

  /** From x = x3 h^2 and y = y3 h^3 to the coordinates 4x, 8y, 2h. */
  lemma RepTwice(p: int, x: int, y: int, h: int, t: Point)
    requires Field(p) && h % p != 0 && t.Aff? && Cong(t.x * (h * h), x, p) && Cong(t.y * Cube(h), y, p)
    ensures Rep(p, Jac(4 * x, 8 * y, 2 * (1 * h)), t)
  {
    TwoIsNotZero(p);
    NonZero(2, h, p);
    CongMul(4, 4, x, t.x * (h * h), p);
    CongMul(8, 8, y, t.y * Cube(h), p);
    TwicePowers(h, t.x, t.y);
  }

  lemma TwicePowers(h: int, x: int, y: int)
    ensures x * ((2 * h) * (2 * h)) == 4 * (x * (h * h)) && y * Cube(2 * h) == 8 * (y * Cube(h))
  {
    assert (2 * h) * (2 * h) == 4 * (h * h);
    assert Cube(2 * h) == 8 * Cube(h);
  }

  lemma TwoIsNotZero(p: int)
    requires Field(p)
    ensures 2 % p != 0
  {
    ModUnique(2, 0, 2, p);
  }

  /** A represented point brought to the common denominator. */
  lemma CommonRep(p: int, j: Jac, a: Point, k: Jac)
    requires p > 0 && Rep(p, j, a)
    ensures var w := j.z * k.z;
            Cong(U(j, k), a.x * (w * w), p) && Cong(S(j, k), a.y * Cube(w), p)
  {
    CongMul(j.x, a.x * (j.z * j.z), k.z * k.z, k.z * k.z, p);
    CongMul(j.y, a.y * Cube(j.z), Cube(k.z), Cube(k.z), p);
    ScaleAlgebra(a.x, a.y, j.z, k.z);
  }

  /** `addJacobian` computes the chord: it represents the sum of the points its
      arguments represent, unless these share their x coordinate. */
  lemma AddRepresents(p: int, j: Jac, k: Jac, a: Point, c: Point)
    requires Field(p) && Rep(p, j, a) && Rep(p, k, c) && (c.x - a.x) % p != 0
    ensures Rep(p, AddJacobian(p, j, k), Add(p, a, c))
  {
    var w := j.z * k.z;
    var ww, v := w * w, Cube(w);
    var h, r := c.x - a.x, c.y - a.y;
    CommonRep(p, j, a, k);
    CommonRep(p, k, c, j);
    assert k.z * j.z == w;
    CongAdd(U(k, j), c.x * ww, U(j, k), a.x * ww, p);
    CongAdd(S(k, j), c.y * v, S(j, k), a.y * v, p);
    assert c.x * ww - a.x * ww == h * ww && c.y * v - a.y * v == r * v;
    ChordCong(p, U(j, k), S(j, k), U(k, j) - U(j, k), S(k, j) - S(j, k), w, a.x * ww, a.y * v, h * ww, r * v, w);
    ChordScales(a.x, a.y, h, r, w);
    AddReduces(p, j, k);
    SlopeTimes(r, h, p);
    ChordRep(p, r * Inverse(h, p), a.x, a.y, c.x, r);
    NonZero(j.z, k.z, p);
    NonZero(w, w, p);
    NonZero(ww, w, p);
    RepScaled(p, AddJacobian(p, j, k), Chord(a.x, a.y, h, r, 1), v, Add(p, a, c));
  }

  // ---------- back to affine coordinates ----------

  /** `affineFromJacobian`. */
  function AffineFromJacobian(p: int, j: Jac): Point
    requires p > 0
  {
    var zinv := Inverse(j.z, p);
    var zinvsq := zinv * zinv;
    Aff((j.x * zinvsq) % p, (j.y * (zinvsq * zinv)) % p)
  }

  predicate Reduced(p: int, a: Point) {
    a.Aff? && 0 <= a.x < p && 0 <= a.y < p
  }

  /** `affineFromJacobian` gives back the represented point. */
  lemma AffineOfRep(p: int, j: Jac, a: Point)
    requires Prime(p) && Rep(p, j, a) && Reduced(p, a)
    ensures AffineFromJacobian(p, j) == a
  {
    var z, zi := j.z, Inverse(j.z, p);
    Invertible(z, p);
    ModUnique(1, 0, 1, p);
    CongCube(z * zi, 1, p);
    ScaleAlgebra(a.x, a.y, z, zi);
    CongMul(j.x, a.x * (z * z), zi * zi, zi * zi, p);
    CongMul(a.x, a.x, (z * zi) * (z * zi), 1 * 1, p);
    CongMul(j.y, a.y * Cube(z), Cube(zi), Cube(zi), p);
    CongMul(a.y, a.y, Cube(z * zi), Cube(1), p);
    ModUnique(a.x, 0, a.x, p);
    ModUnique(a.y, 0, a.y, p);
  }

  /** A point represented by coordinates on the curve is on the curve. */
  lemma RepOn(p: int, b: int, j: Jac, a: Point)
    requires Prime(p) && Rep(p, j, a) && Reduced(p, a) && OnCurve(p, b, j)
    ensures On(p, b, a)
  {
    var z := j.z;
    var k := Sixth(z);
    CongMul(j.y, a.y * Cube(z), j.y, a.y * Cube(z), p);
    CongCube(j.x, a.x * (z * z), p);
    CommonAlgebra(a.x, a.y, z);
    CongAdd(Cube(j.x), Cube(a.x) * k, b * k, b * k, p);
    assert Cube(a.x) * k + b * k == (Cube(a.x) + b) * k;
    NonZero(z, z, p);
    NonZero(z * z, z * z, p);
    NonZero((z * z) * (z * z), z * z, p);
    Cancel(a.y * a.y, Cube(a.x) + b, k, p);
  }

  /** An affine point on the curve, as Jacobian coordinates. */
  lemma AffineRep(p: int, b: int, a: Point)
    requires Prime(p) && a.Aff? && On(p, b, a)
    ensures Rep(p, Jac(a.x, a.y, 1), a) && OnCurve(p, b, Jac(a.x, a.y, 1))
  {
    ModUnique(1, 0, 1, p);
  }

  /** The group operation stays on the curve. */
  lemma AddOn(p: int, b: int, a: Point, c: Point)
    requires Field(p) && On(p, b, a) && On(p, b, c)
    ensures On(p, b, Add(p, a, c))
  {
    if a.Aff? && c.Aff? {
      AffineRep(p, b, a);
      AffineRep(p, b, c);
      var j, k := Jac(a.x, a.y, 1), Jac(c.x, c.y, 1);
      if (c.x - a.x) % p != 0 {
        AddRepresents(p, j, k, a, c);
        AddOnCurve(p, b, j, k);
        RepOn(p, b, AddJacobian(p, j, k), Add(p, a, c));
      } else if (c.y - a.y) % p == 0 && (2 * a.y) % p != 0 {
        ModUnique(0, 0, 0, p);
        DoubleRepresents(p, j, a);
        DoubleOnCurve(p, b, j);
        RepOn(p, b, DoubleJacobian(p, j), Add(p, a, a));
      }
    }
  }
}
