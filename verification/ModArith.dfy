/** Arithmetic modulo `p`: congruent operands give congruent results, and a
    prime modulus lets a factor be cancelled. */
module ModArith {

  /** `a` and `b` leave the same remainder. */
  predicate Cong(a: int, b: int, p: int)
    requires p > 0
  {
    a % p == b % p
  }

  lemma ModUnique(x: int, q: int, r: int, p: int)
    requires p > 0 && x == q * p + r && 0 <= r < p
    ensures x % p == r
  {
    var d := x / p - q;
    assert x == (x / p) * p + x % p;
    assert d * p == r - x % p;
    assert d >= 1 ==> d * p >= p;
    assert d <= -1 ==> d * p <= -p;
  }

  /** Congruence is a difference by a multiple of the modulus. */
  lemma CongByMultiple(a: int, b: int, k: int, p: int)
    requires p > 0 && a == b + k * p
    ensures Cong(a, b, p)
  {
    assert b == (b / p) * p + b % p;
    assert a == (b / p + k) * p + b % p;
    ModUnique(a, b / p + k, b % p, p);
  }

  lemma MultipleOfCong(a: int, b: int, p: int) returns (k: int)
    requires p > 0 && Cong(a, b, p)
    ensures a == b + k * p
  {
    k := a / p - b / p;
    assert a == (a / p) * p + a % p && b == (b / p) * p + b % p;
    assert (a / p - b / p) * p == (a / p) * p - (b / p) * p;
  }

  lemma CongMod(a: int, p: int)
    requires p > 0
    ensures Cong(a % p, a, p)
  {
    assert a % p == a + (-(a / p)) * p;
    CongByMultiple(a % p, a, -(a / p), p);
  }

  lemma CongAdd(a: int, b: int, c: int, d: int, p: int)
    requires p > 0 && Cong(a, b, p) && Cong(c, d, p)
    ensures Cong(a + c, b + d, p) && Cong(a - c, b - d, p)
  {
    var k := MultipleOfCong(a, b, p);
    var l := MultipleOfCong(c, d, p);
    assert (k + l) * p == k * p + l * p && (k - l) * p == k * p - l * p;
    CongByMultiple(a + c, b + d, k + l, p);
    CongByMultiple(a - c, b - d, k - l, p);
  }

  lemma CongScale(a: int, b: int, c: int, p: int)
    requires p > 0 && Cong(a, b, p)
    ensures Cong(a * c, b * c, p)
  {
    var k := MultipleOfCong(a, b, p);
    assert (b + k * p) * c == b * c + (k * c) * p;
    CongByMultiple(a * c, b * c, k * c, p);
  }

  lemma CongMul(a: int, b: int, c: int, d: int, p: int)
    requires p > 0 && Cong(a, b, p) && Cong(c, d, p)
    ensures Cong(a * c, b * d, p)
  {
    CongScale(a, b, c, p);
    CongScale(c, d, b, p);
  }

  // ---------- primes ----------

  ghost predicate Divides(d: int, n: int) {
    exists k :: Times(d, k, n)
  }

  predicate Times(d: int, k: int, n: int) {
    n == k * d
  }

  ghost predicate Prime(p: int) {
    p > 1 && forall d :: 1 < d < p ==> !Divides(d, p)
  }

  /** Extended Euclid: a common divisor of `a` and `b` and its coefficients. */
  function Egcd(a: nat, b: nat): (r: (nat, int, int))
    ensures a * r.1 + b * r.2 == r.0
    ensures a > 0 || b > 0 ==> r.0 > 0
    decreases b
  {
    if b == 0 then (a, 1, 0)
    else
      var (g, x, y) := Egcd(b, a % b);
      assert a * y + b * (x - (a / b) * y) == g by {
        assert a == (a / b) * b + a % b;
        assert b * (x - (a / b) * y) == b * x - ((a / b) * b) * y;
        assert a * y == ((a / b) * b) * y + (a % b) * y;
      }
      (g, y, x - (a / b) * y)
  }

  lemma {:induction false} EgcdDivides(a: nat, b: nat)
    requires a > 0 || b > 0
    ensures Divides(Egcd(a, b).0, a) && Divides(Egcd(a, b).0, b)
    decreases b
  {
    if b == 0 {
      assert Times(a, 1, a) && Times(a, 0, 0);
    } else {
      EgcdDivides(b, a % b);
      DividesWhole(Egcd(b, a % b).0, a, b);
    }
  }

  lemma DividesWhole(g: int, a: nat, b: nat)
    requires b > 0 && Divides(g, b) && Divides(g, a % b)
    ensures Divides(g, a)
  {
    var k :| Times(g, k, b);
    var l :| Times(g, l, a % b);
    MultipleOfSum(g, a / b, k, l, b, a % b, a);
  }

  lemma MultipleOfSum(g: int, q: int, k: int, l: int, b: int, r: int, a: int)
    requires b == k * g && r == l * g && a == q * b + r
    ensures Times(g, q * k + l, a)
  {
    calc {
      a;
      q * (k * g) + l * g;
      (q * k) * g + l * g;
      (q * k + l) * g;
    }
  }

  /** `ModInverse`. */
  function Inverse(a: int, p: int): (r: int)
    requires p > 0
    ensures 0 <= r < p
  {
    Egcd(p, a % p).2 % p
  }

  lemma PositiveFactor(g: int, l: int, m: int)
    requires g > 0 && m > 0 && m == l * g
    ensures g <= m
  {
    assert l >= 1 ==> l * g >= g;
    assert l <= 0 ==> l * g <= 0;
  }

  lemma CoprimeBelow(m: nat, p: int)
    requires Prime(p) && 0 < m < p
    ensures Egcd(p, m).0 == 1
  {
    var g := Egcd(p, m).0;
    EgcdDivides(p, m);
    var l :| Times(g, l, m);
    PositiveFactor(g, l, m);
  }

  /** A prime that does not divide `a` leaves `a` invertible. */
  lemma Invertible(a: int, p: int)
    requires Prime(p) && a % p != 0
    ensures (a * Inverse(a, p)) % p == 1
  {
    CoprimeBelow(a % p, p);
    BezoutInverts(a, a % p, p, Egcd(p, a % p).1, Egcd(p, a % p).2, Inverse(a, p));
  }

  lemma BezoutInverts(a: int, m: int, p: int, x: int, y: int, r: int)
    requires p > 1 && m == a % p && p * x + m * y == 1 && r == y % p
    ensures (a * r) % p == 1
  {
    CongMod(y, p);
    CongMod(a, p);
    CongMul(a, m, r, y, p);
    assert m * y == 1 + (-x) * p;
    CongByMultiple(m * y, 1, -x, p);
    ModUnique(1, 0, 1, p);
  }

  /** A prime modulus has no zero divisors. */
  lemma NoZeroDivisors(a: int, b: int, p: int)
    requires Prime(p) && (a * b) % p == 0
    ensures a % p == 0 || b % p == 0
  {
    if a % p != 0 {
      var r := Inverse(a, p);
      Invertible(a, p);
      ModUnique(0, 0, 0, p);
      ModUnique(1, 0, 1, p);
      CongMul(a * b, 0, r, r, p);
      CongMul(a * r, 1, b, b, p);
      assert (a * b) * r == (a * r) * b;
    }
  }

  /** A factor that is not zero can be cancelled. */
  lemma Cancel(a: int, b: int, c: int, p: int)
    requires Prime(p) && c % p != 0 && Cong(a * c, b * c, p)
    ensures Cong(a, b, p)
  {
    CongAdd(a * c, b * c, b * c, b * c, p);
    ZeroDifference(a, b, c, p);
    NoZeroDivisors(a - b, c, p);
    CongOfDifference(a, b, p);
  }

  lemma ZeroDifference(a: int, b: int, c: int, p: int)
    requires p > 0 && Cong(a * c - b * c, b * c - b * c, p)
    ensures ((a - b) * c) % p == 0
  {
    assert a * c - b * c == (a - b) * c;
    ModUnique(0, 0, 0, p);
  }

  lemma CongOfDifference(a: int, b: int, p: int)
    requires p > 0 && (a - b) % p == 0
    ensures Cong(a, b, p)
  {
    ModUnique(0, 0, 0, p);
    CongAdd(a - b, 0, b, b, p);
  }
}
