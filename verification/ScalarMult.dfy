/** The double-and-add loop of crypto/curve.go: for every scalar below the order
    of the base point it returns that multiple of the point. */
module ScalarMult {
  import opened Wrappers
  import opened ModArith
  import opened Curve
  import opened CurveGroup

  // ---------- multiples of a point ----------

  /** `n` times the point `g`. */
  ghost function Mult(p: int, g: Point, n: nat): Point
    requires Field(p)
  {
    if n == 0 then Inf else Add(p, g, Mult(p, g, n - 1))
  }

  /** The group operation is associative among the multiples of `g`, also when its
      inverse is put in front. */
  ghost predicate Associative(p: int, g: Point)
    requires Field(p)
  {
    (forall m: nat, n: nat :: Grouped(p, g, m, n)) && forall n: nat :: GroupedNeg(p, g, n)
  }

  ghost predicate Grouped(p: int, g: Point, m: nat, n: nat)
    requires Field(p)
  {
    AssociativeAt(p, g, Mult(p, g, m), Mult(p, g, n))
  }

  ghost predicate GroupedNeg(p: int, g: Point, n: nat)
    requires Field(p)
  {
    AssociativeAt(p, Neg(p, g), g, Mult(p, g, n))
  }

  ghost predicate AssociativeAt(p: int, a: Point, c: Point, d: Point)
    requires Field(p)
  {
    Add(p, Add(p, a, c), d) == Add(p, a, Add(p, c, d))
  }

  /** A base point of order `n` on a curve over a prime field, with associative
      addition among its multiples. */
  ghost predicate Group(p: int, b: int, g: Point, n: nat) {
    && Field(p) && g.Aff? && On(p, b, g) && Associative(p, g)
    && Mult(p, g, n) == Inf && forall m :: 0 < m < n ==> Mult(p, g, m) != Inf
  }

  lemma {:induction false} MultOn(p: int, b: int, g: Point, n: nat)
    requires Field(p) && On(p, b, g)
    ensures On(p, b, Mult(p, g, n))
  {
    if n > 0 {
      MultOn(p, b, g, n - 1);
      AddOn(p, b, g, Mult(p, g, n - 1));
    }
  }

  lemma {:induction false} MultAdd(p: int, g: Point, m: nat, n: nat)
    requires Field(p) && Associative(p, g)
    ensures Add(p, Mult(p, g, m), Mult(p, g, n)) == Mult(p, g, m + n)
    decreases m
  {
    if m > 0 {
      MultAdd(p, g, m - 1, n);
      assert Grouped(p, g, m - 1, n);
    }
  }

  lemma NegAdds(p: int, g: Point)
    requires Field(p) && g.Aff?
    ensures Add(p, Neg(p, g), g) == Inf
  {
    var m := Neg(p, g);
    CongMod(-g.y, p);
    ModUnique(0, 0, 0, p);
    CongMul(2, 2, m.y, -g.y, p);
    CongAdd(g.y, g.y, m.y, -g.y, p);
    CongAdd(0, 0, 2 * g.y, 2 * g.y, p);
    assert g.y - -g.y == 2 * g.y && 2 * -g.y == 0 - 2 * g.y;
    if (2 * g.y) % p == 0 {
      CongAdd(0, 0, 2 * g.y, 0, p);
    }
  }

  lemma NegCancels(p: int, g: Point, m: nat)
    requires Field(p) && Associative(p, g) && g.Aff?
    ensures Add(p, Neg(p, g), Add(p, g, Mult(p, g, m))) == Mult(p, g, m)
  {
    NegAdds(p, g);
    assert GroupedNeg(p, g, m);
  }

  // ---------- the exceptional cases never arise ----------

  /** Doubling an intermediate multiple is never the exceptional case. */
  lemma SafeDouble(p: int, b: int, g: Point, n: nat, m: nat)
    requires Group(p, b, g, n) && 0 < m && 2 * m < n
    ensures Mult(p, g, m).Aff? && (2 * Mult(p, g, m).y) % p != 0
    ensures Add(p, Mult(p, g, m), Mult(p, g, m)) == Mult(p, g, 2 * m)
  {
    MultAdd(p, g, m, m);
    ModUnique(0, 0, 0, p);
  }

  lemma NotBase(p: int, b: int, g: Point, n: nat, m: nat)
    requires Group(p, b, g, n) && 1 < m <= n
    ensures Mult(p, g, m) != g
  {
    NegCancels(p, g, m - 1);
    NegCancels(p, g, 0);
    assert Mult(p, g, m) == Add(p, g, Mult(p, g, m - 1));
    assert Mult(p, g, m - 1) != Inf;
  }

  /** Adding the base point to an intermediate multiple never meets an equal or
      an opposite point: the x coordinates differ. */
  lemma SafeAdd(p: int, b: int, g: Point, n: nat, m: nat)
    requires Group(p, b, g, n) && 1 < m && m + 1 < n
    ensures Mult(p, g, m).Aff? && (Mult(p, g, m).x - g.x) % p != 0
    ensures Mult(p, g, m) != g && Mult(p, g, m) != Neg(p, g)
  {
    var a := Mult(p, g, m);
    MultOn(p, b, g, m);
    NotBase(p, b, g, n, m);
    assert Mult(p, g, m + 1) == Add(p, g, a);
    assert Mult(p, g, m + 1) != Inf;
    if (a.x - g.x) % p == 0 {
      SameX(p, b, g, a);
    }
    ModUnique(0, 0, 0, p);
  }

  /** Two points of the curve with the same x are equal or their sum is zero. */
  lemma SameX(p: int, b: int, g: Point, a: Point)
    requires Field(p) && g.Aff? && a.Aff? && On(p, b, g) && On(p, b, a) && (a.x - g.x) % p == 0
    ensures a == g || Add(p, g, a) == Inf
  {
    ModUnique(0, 0, 0, p);
    CongAdd(a.x - g.x, 0, g.x, g.x, p);
    ModUnique(a.x, 0, a.x, p);
    ModUnique(g.x, 0, g.x, p);
    assert a.x == g.x;
    CongAdd(a.y, a.y, g.y, g.y, p);
    CongAdd(a.y - g.y, a.y - g.y, g.y, g.y, p);
    if (a.y - g.y) % p == 0 {
      CongAdd(a.y - g.y, 0, g.y, g.y, p);
      ModUnique(a.y, 0, a.y, p);
      ModUnique(g.y, 0, g.y, p);
    }
  }

  // ---------- reading the scalar ----------

  newtype Byte = x: int | 0 <= x < 256

  /** The byte after `j` left shifts. */
  function Shifted(x: Byte, j: nat): Byte {
    if j == 0 then x else ((Shifted(x, j - 1) as int * 2) % 256) as Byte
  }

  /** Bit `t` of the scalar, most significant first: bit `t % 8` of byte `t / 8`
      is its top bit after that many shifts. */
  predicate BitAt(k: seq<Byte>, t: nat)
    requires t < 8 * |k|
  {
    Shifted(k[t / 8], t % 8) >= 128
  }

  /** The number read from the first `t` bits. */
  function Prefix(k: seq<Byte>, t: nat): nat
    requires t <= 8 * |k|
  {
    if t == 0 then 0 else 2 * Prefix(k, t - 1) + if BitAt(k, t - 1) then 1 else 0
  }

  /** The number that a big-endian byte string stands for. */
  function Value(k: seq<Byte>): nat {
    if k == [] then 0 else 256 * Value(k[..|k| - 1]) + k[|k| - 1] as nat
  }

  lemma {:induction false} PrefixGrows(k: seq<Byte>, t: nat, u: nat)
    requires t <= u <= 8 * |k|
    ensures Prefix(k, t) <= Prefix(k, u)
    decreases u - t
  {
    if t < u {
      PrefixGrows(k, t, u - 1);
    }
  }

  lemma {:induction false} PrefixLocal(k: seq<Byte>, i: nat, t: nat)
    requires i <= |k| && t <= 8 * i
    ensures Prefix(k[..i], t) == Prefix(k, t)
  {
    if t > 0 {
      PrefixLocal(k, i, t - 1);
      assert (t - 1) / 8 < i;
      assert k[..i][(t - 1) / 8] == k[(t - 1) / 8];
    }
  }

  /** `w` doubled `j` times. */
  function Twice(w: nat, j: nat): nat {
    if j == 0 then w else 2 * Twice(w, j - 1)
  }

  lemma TwiceEight(w: nat)
    ensures Twice(w, 8) == 256 * w
  {
    assert Twice(w, 1) == 2 * w;
    assert Twice(w, 2) == 4 * w;
    assert Twice(w, 8) == 4 * Twice(w, 6) == 16 * Twice(w, 4) == 64 * Twice(w, 2);
  }

  lemma RemainderIs(n: nat, q: int, r: nat)
    requires n == 256 * q + r && r < 256
    ensures n % 256 == r
  {
  }

  lemma DoubledRemainder(a: nat)
    ensures (a % 256 * 2) % 256 == (2 * a) % 256
  {
    var q, r := a / 256, a % 256;
    if r < 128 {
      RemainderIs(2 * r, 0, 2 * r);
      RemainderIs(2 * a, 2 * q, 2 * r);
    } else {
      RemainderIs(2 * r, 1, 2 * r - 256);
      RemainderIs(2 * a, 2 * q + 1, 2 * r - 256);
    }
  }

  lemma {:induction false} ShiftedIs(x: Byte, j: nat)
    ensures Shifted(x, j) as nat == Twice(x as nat, j) % 256
  {
    if j > 0 {
      ShiftedIs(x, j - 1);
      DoubledRemainder(Twice(x as nat, j - 1));
    }
  }

  /** Reading bits moves them from the byte to the number. */
  lemma {:induction false} ByteBits(k: seq<Byte>, i: nat, j: nat)
    requires i < |k| && j <= 8
    ensures 256 * Prefix(k, 8 * i + j) + Shifted(k[i], j) as nat == Twice(256 * Prefix(k, 8 * i) + k[i] as nat, j)
    decreases j
  {
    if j > 0 {
      ByteBits(k, i, j - 1);
      BitOfByte(k, i, j - 1);
      ShiftStep(k[i], j - 1);
      PrefixStep(k, 8 * i + j - 1);
    }
  }

  lemma BitOfByte(k: seq<Byte>, i: nat, j: nat)
    requires i < |k| && j < 8
    ensures BitAt(k, 8 * i + j) <==> Shifted(k[i], j) >= 128
  {
    assert (8 * i + j) / 8 == i && (8 * i + j) % 8 == j;
  }

  lemma ShiftStep(x: Byte, j: nat)
    ensures var s := Shifted(x, j) as nat;
            Shifted(x, j + 1) as nat == 2 * s - if s >= 128 then 256 else 0
  {
  }

  lemma PrefixStep(k: seq<Byte>, t: nat)
    requires t < 8 * |k|
    ensures Prefix(k, t + 1) == 2 * Prefix(k, t) + if BitAt(k, t) then 1 else 0
  {
  }

  /** All bits together are the number. */
  lemma {:induction false} PrefixIsValue(k: seq<Byte>)
    ensures Prefix(k, 8 * |k|) == Value(k)
    decreases |k|
  {
    if k != [] {
      var i := |k| - 1;
      PrefixIsValue(k[..i]);
      PrefixLocal(k, i, 8 * i);
      ByteBits(k, i, 8);
      ShiftedIs(k[i], 8);
      TwiceEight(k[i] as nat);
      TwiceEight(256 * Prefix(k, 8 * i) + k[i] as nat);
    }
  }

  // ---------- the loop ----------

  /** `acc` holds the multiple for the bits read so far, once a bit was set. */
  ghost predicate Holds(p: int, g: Point, v: nat, seen: bool, acc: Jac)
    requires Field(p) && g.Aff?
  {
    (seen <==> v > 0) && (if seen then Rep(p, acc, Mult(p, g, v)) else acc == Jac(g.x, g.y, 1))
  }

  /** One bit: double if a bit was seen, then add the base point if this bit is
      set and is not the first. */
  lemma BitStep(p: int, b: int, g: Point, n: nat, v: nat, bit: bool, seen: bool, acc: Jac)
    requires Group(p, b, g, n) && Holds(p, g, v, seen, acc)
    requires 2 * v + (if bit then 1 else 0) < n
    ensures var dbl := if seen then DoubleJacobian(p, acc) else acc;
            var acc' := if bit && seen then AddJacobian(p, Jac(g.x, g.y, 1), dbl) else dbl;
            Holds(p, g, 2 * v + if bit then 1 else 0, seen || bit, acc')
    ensures seen && bit ==> Mult(p, g, 2 * v) != g && Mult(p, g, 2 * v) != Neg(p, g)
  {
    AffineRep(p, b, g);
    if seen {
      SafeDouble(p, b, g, n, v);
      DoubleRepresents(p, acc, Mult(p, g, v));
      if bit {
        SafeAdd(p, b, g, n, 2 * v);
        AddRepresents(p, Jac(g.x, g.y, 1), DoubleJacobian(p, acc), g, Mult(p, g, 2 * v));
        assert Mult(p, g, 2 * v + 1) == Add(p, g, Mult(p, g, 2 * v));
      }
    } else if bit {
      assert Mult(p, g, 1) == Add(p, g, Mult(p, g, 0)) == g;
    }
  }

  /** The loop body for one bit. */
  method ReadBit(p: int, ghost b: int, g: Point, ghost n: nat, ghost v: nat, bit: bool, seen: bool, acc: Jac)
    returns (seen': bool, acc': Jac)
    requires Group(p, b, g, n) && Holds(p, g, v, seen, acc) && 2 * v + (if bit then 1 else 0) < n
    ensures Holds(p, g, 2 * v + if bit then 1 else 0, seen', acc')
  {
    BitStep(p, b, g, n, v, bit, seen, acc);
    seen', acc' := seen, acc;
    if seen {
      acc' := DoubleJacobian(p, acc');
    }
    if bit {
      if !seen {
        seen' := true;
      } else {
        acc' := AddJacobian(p, Jac(g.x, g.y, 1), acc');
      }
    }
  }

  /** The top bit of the shifted byte, and the shift. */
  method ReadTop(p: int, ghost b: int, g: Point, ghost n: nat, k: seq<Byte>, i: nat, j: nat, byte: Byte, seen: bool, acc: Jac)
    returns (byte': Byte, seen': bool, acc': Jac)
    requires Group(p, b, g, n) && i < |k| && j < 8 && byte == Shifted(k[i], j)
    requires Prefix(k, 8 * |k|) < n && Holds(p, g, Prefix(k, 8 * i + j), seen, acc)
    ensures byte' == Shifted(k[i], j + 1) && Holds(p, g, Prefix(k, 8 * i + j + 1), seen', acc')
  {
    BitOfByte(k, i, j);
    PrefixStep(k, 8 * i + j);
    PrefixGrows(k, 8 * i + j + 1, 8 * |k|);
    seen', acc' := ReadBit(p, b, g, n, Prefix(k, 8 * i + j), byte >= 128, seen, acc);
    byte' := ((byte as int * 2) % 256) as Byte;
  }

  /** The inner loop: the eight bits of byte `i`. */
  method ReadByte(p: int, ghost b: int, g: Point, ghost n: nat, k: seq<Byte>, i: nat, seen: bool, acc: Jac)
    returns (seen': bool, acc': Jac)
    requires Group(p, b, g, n) && i < |k| && Prefix(k, 8 * |k|) < n && Holds(p, g, Prefix(k, 8 * i), seen, acc)
    ensures Holds(p, g, Prefix(k, 8 * (i + 1)), seen', acc')
  {
    seen', acc' := seen, acc;
    var byte := k[i];
    var bitNum := 0;
    while bitNum < 8
      invariant bitNum <= 8 && byte == Shifted(k[i], bitNum)
      invariant Holds(p, g, Prefix(k, 8 * i + bitNum), seen', acc')
    {
      byte, seen', acc' := ReadTop(p, b, g, n, k, i, bitNum, byte, seen', acc');
      bitNum := bitNum + 1;
    }
  }

  /** `ScalarMult`: `None` for the scalar zero, else the multiple of the point;
      leading zero bits and bytes change nothing, since only the value counts. */
  method Multiply(p: int, ghost b: int, g: Point, k: seq<Byte>, ghost n: nat) returns (r: Option<Point>)
    requires Group(p, b, g, n) && Value(k) < n
    ensures r == if Value(k) == 0 then None else Some(Mult(p, g, Value(k)))
  {
    var acc, seenFirstTrue := Jac(g.x, g.y, 1), false;
    var i := 0;
    PrefixIsValue(k);
    while i < |k|
      invariant i <= |k| && Holds(p, g, Prefix(k, 8 * i), seenFirstTrue, acc)
    {
      seenFirstTrue, acc := ReadByte(p, b, g, n, k, i, seenFirstTrue, acc);
      i := i + 1;
    }
    if !seenFirstTrue {
      return None;
    }
    Finish(p, b, g, Value(k), acc);
    return Some(AffineFromJacobian(p, acc));
  }

  lemma Finish(p: int, b: int, g: Point, v: nat, acc: Jac)
    requires Field(p) && On(p, b, g) && Rep(p, acc, Mult(p, g, v))
    ensures AffineFromJacobian(p, acc) == Mult(p, g, v)
  {
    MultOn(p, b, g, v);
    AffineOfRep(p, acc, Mult(p, g, v));
  }

  // ---------- the hypothesis can be met ----------

  /** The three multiples of (0, 2) on y^2 = x^3 + 4 modulo 7. */
  function Cycle(r: nat): Point {
    if r == 0 then Inf else if r == 1 then Aff(0, 2) else Aff(0, 5)
  }

  function Plus(r: nat, q: nat): nat {
    if r + q < 3 then r + q else r + q - 3
  }

  lemma SevenIsPrime(p: int)
    requires p == 7
    ensures Field(p)
  {
    forall d: int, k: int | 1 < d < p
      ensures !Times(d, k, p)
    {
      assert d == 2 || d == 3 || d == 4 || d == 5 || d == 6;
    }
  }

  lemma FlatTangent(p: int, l: int, x: int, y: int)
    requires p > 0 && l == 0 && x == 0
    ensures Third(p, l, x, y, x) == Aff(0, (-y) % p)
  {
    ModUnique(0, 0, 0, p);
  }

  lemma DoubleAtZero(p: int, x: int, y: int)
    requires Field(p) && x == 0 && (2 * y) % p != 0
    ensures Add(p, Aff(x, y), Aff(x, y)) == Aff(0, (-y) % p)
  {
    ModUnique(0, 0, 0, p);
    var i := Inverse(2 * y, p);
    assert 3 * (x * x) * i == 0;
    FlatTangent(p, 3 * (x * x) * i, x, y);
  }

  lemma OppositeAtZero(p: int, x: int, y: int, z: int)
    requires Field(p) && (z - y) % p != 0
    ensures Add(p, Aff(x, y), Aff(x, z)) == Inf
  {
    ModUnique(0, 0, 0, p);
  }

  lemma CycleAdds(p: int, r: nat, q: nat)
    requires p == 7 && Field(p) && r < 3 && q < 3
    ensures Add(p, Cycle(r), Cycle(q)) == Cycle(Plus(r, q))
  {
    if r > 0 && q > 0 {
      var y, z := Cycle(r).y, Cycle(q).y;
      if r == q {
        DoubleAtZero(p, 0, y);
      } else {
        OppositeAtZero(p, 0, y, z);
      }
    }
  }

  lemma {:induction false} MultCycles(p: int, n: nat) returns (r: nat)
    requires p == 7 && Field(p)
    ensures r < 3 && Mult(p, Cycle(1), n) == Cycle(r)
    ensures n < 3 ==> r == n
    ensures n == 3 ==> r == 0
  {
    if n == 0 {
      r := 0;
    } else {
      var q := MultCycles(p, n - 1);
      CycleAdds(p, 1, q);
      r := Plus(1, q);
    }
  }

  lemma CycleAssociative(p: int, r: nat, q: nat, t: nat)
    requires p == 7 && Field(p) && r < 3 && q < 3 && t < 3
    ensures AssociativeAt(p, Cycle(r), Cycle(q), Cycle(t))
  {
    CycleAdds(p, r, q);
    CycleAdds(p, Plus(r, q), t);
    CycleAdds(p, q, t);
    CycleAdds(p, r, Plus(q, t));
  }

  lemma CyclePoints(p: int, a: Point, c: Point, d: Point, r: nat, q: nat, t: nat)
    requires p == 7 && Field(p) && r < 3 && q < 3 && t < 3 && a == Cycle(r) && c == Cycle(q) && d == Cycle(t)
    ensures AssociativeAt(p, a, c, d)
  {
    CycleAssociative(p, r, q, t);
  }

  lemma CycleGrouped(p: int, g: Point, m: nat, n: nat)
    requires p == 7 && Field(p) && g == Cycle(1)
    ensures Grouped(p, g, m, n)
  {
    var q := MultCycles(p, m);
    var t := MultCycles(p, n);
    CyclePoints(p, g, Mult(p, g, m), Mult(p, g, n), 1, q, t);
  }

  lemma CycleGroupedNeg(p: int, g: Point, n: nat)
    requires p == 7 && Field(p) && g == Cycle(1)
    ensures GroupedNeg(p, g, n)
  {
    var t := MultCycles(p, n);
    CyclePoints(p, Neg(p, g), g, Mult(p, g, n), 2, 1, t);
  }

  lemma CycleOrder(p: int, g: Point)
    requires p == 7 && Field(p) && g == Cycle(1)
    ensures Mult(p, g, 3) == Inf && forall m :: 0 < m < 3 ==> Mult(p, g, m) != Inf
  {
    var three := MultCycles(p, 3);
    forall m | 0 < m < 3
      ensures Mult(p, g, m) != Inf
    {
      var r := MultCycles(p, m);
    }
  }

  lemma CycleAssociates(p: int, g: Point)
    requires p == 7 && Field(p) && g == Cycle(1)
    ensures Associative(p, g)
  {
    forall m: nat, n: nat
      ensures Grouped(p, g, m, n)
    {
      CycleGrouped(p, g, m, n);
    }
    forall n: nat
      ensures GroupedNeg(p, g, n)
    {
      CycleGroupedNeg(p, g, n);
    }
  }

  lemma CycleOn(p: int, g: Point)
    requires p == 7 && g == Cycle(1)
    ensures On(p, 4, g)
  {
  }

  /** A group of order three: the hypothesis of the loop can be met. */
  lemma GroupInhabited(p: int, g: Point)
    requires p == 7 && g == Cycle(1)
    ensures Group(p, 4, g, 3)
  {
    SevenIsPrime(p);
    CycleOn(p, g);
    CycleAssociates(p, g);
    CycleOrder(p, g);
  }
}
