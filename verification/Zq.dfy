// The scalar field of the curve: integers modulo a prime q.
//
// Scalars (FE in the source) are the canonical residues 0 .. q-1.  `Mod` is the Euclidean
// remainder; it is written as a recursion so that proofs about residues go through the
// congruence lemmas below instead of through non-linear division.
module Zq {

  type pos = x: int | 0 < x witness 1

  function Mod(x: int, q: pos): (r: nat)
    ensures r < q
    decreases if x < 0 then q - x else x
  {
    if x < 0 then Mod(x + q, q) else if x < q then x else Mod(x - q, q)
  }

  // a and b are the same scalar.
  ghost predicate Cong(a: int, b: int, q: pos) {
    Mod(a, q) == Mod(b, q)
  }

  lemma {:induction false} Distribute(a: int, b: int, c: int)
    ensures (a + b) * c == a * c + b * c
    ensures (a - b) * c == a * c - b * c
    ensures c * (a + b) == c * a + c * b
    ensures c * (a - b) == c * a - c * b
  {
  }

  lemma {:induction false} Associate(a: int, b: int, c: int)
    ensures a * (b * c) == (a * b) * c
    ensures a * (b * c) == (a * c) * b
    ensures a * (b * c) == b * (a * c)
  {
  }

  lemma {:induction false} ModShift(x: int, k: int, q: pos)
    ensures Mod(x + k * q, q) == Mod(x, q)
    decreases if k < 0 then -k else k
  {
    hide Mod;
    if k > 0 {
      ModShift(x, k - 1, q);
      Distribute(k - 1, 1, q);
      ModStep(x + (k - 1) * q, q);
    } else if k < 0 {
      ModShift(x, k + 1, q);
      Distribute(k, 1, q);
      ModStep(x + k * q, q);
    }
  }

  lemma {:induction false} ModStep(x: int, q: pos)
    ensures Mod(x + q, q) == Mod(x, q)
  {
  }

  lemma {:induction false} Quotient(x: int, q: pos) returns (k: int)
    ensures x == k * q + Mod(x, q)
    decreases if x < 0 then q - x else x
  {
    if x < 0 {
      var j := Quotient(x + q, q);
      Distribute(j, 1, q);
      k := j - 1;
    } else if x < q {
      k := 0;
    } else {
      var j := Quotient(x - q, q);
      Distribute(j, 1, q);
      k := j + 1;
    }
  }

  // `Mod` is Dafny's remainder.
  lemma {:induction false} ModIsRemainder(x: int, q: pos)
    ensures Mod(x, q) == x % q
  {
    DivisionSplits(x, q);
    ModShift(x % q, x / q, q);
  }

  lemma {:induction false} DivisionSplits(x: int, q: pos)
    ensures x == x % q + (x / q) * q && 0 <= x % q < q
  {
  }

  lemma {:induction false} CongWitness(a: int, b: int, q: pos) returns (k: int)
    requires Cong(a, b, q)
    ensures a == b + k * q
  {
    hide Mod;
    var i := Quotient(a, q);
    var j := Quotient(b, q);
    k := i - j;
    Distribute(i, j, q);
  }

  lemma {:induction false} CongMod(a: int, q: pos)
    ensures Cong(Mod(a, q), a, q)
  {
  }

  lemma {:induction false} ModSmall(a: int, q: pos)
    requires 0 <= a < q
    ensures Mod(a, q) == a
  {
  }

  lemma {:induction false} CongAdd(a: int, b: int, c: int, d: int, q: pos)
    requires Cong(a, b, q) && Cong(c, d, q)
    ensures Cong(a + c, b + d, q)
    ensures Cong(a - c, b - d, q)
  {
    hide Mod;
    var i := CongWitness(a, b, q);
    var j := CongWitness(c, d, q);
    Distribute(i, j, q);
    assert a + c == b + d + (i + j) * q && a - c == b - d + (i - j) * q;
    ModShift(b + d, i + j, q);
    ModShift(b - d, i - j, q);
  }

  lemma {:induction false} CongDifference(a: int, b: int, q: pos)
    ensures Cong(a, b, q) <==> Mod(a - b, q) == 0
  {
    hide Mod;
    ModSmall(0, q);
    if Cong(a, b, q) {
      CongAdd(a, b, b, b, q);
    } else if Mod(a - b, q) == 0 {
      CongAdd(a - b, 0, b, b, q);
      assert false;
    }
  }

  lemma {:induction false} CongMul(a: int, b: int, c: int, d: int, q: pos)
    requires Cong(a, b, q) && Cong(c, d, q)
    ensures Cong(a * c, b * d, q)
  {
    hide Mod;
    var i := CongWitness(a, b, q);
    var j := CongWitness(c, d, q);
    ExpandProduct(b, i, d, j, q);
    ModShift(b * d, b * j + i * d + i * j * q, q);
  }

  lemma {:induction false} ExpandProduct(b: int, i: int, d: int, j: int, q: int)
    ensures (b + i * q) * (d + j * q) == b * d + (b * j + i * d + i * j * q) * q
  {
    Distribute(b, i * q, d + j * q);
    Distribute(d, j * q, b);
    Distribute(d, j * q, i * q);
    Associate(b, j, q);
    Associate(d, i, q);
    Associate(i * q, j, q);
    Associate(j, i, q);
    Distribute(b * j + i * d, i * j * q, q);
    Distribute(b * j, i * d, q);
  }

  lemma {:induction false} CongScale(c: int, a: int, b: int, q: pos)
    requires Cong(a, b, q)
    ensures Cong(c * a, c * b, q)
  {
    hide Mod;
    CongMul(c, c, a, b, q);
  }

  // --- primes and inverses -------------------------------------------------------------

  ghost predicate Prime(q: int) {
    q > 1 && forall d: pos :: 1 < d < q ==> Mod(q, d) != 0
  }

  // Extended Euclid by subtraction: g == x*a + y*b, a == ka*g, b == kb*g.
  datatype BezoutResult = Bezout(g: pos, x: int, y: int, ka: int, kb: int)

  function ExtendedGcd(a: pos, b: pos): (r: BezoutResult)
    ensures r.g == r.x * a + r.y * b
    ensures a == r.ka * r.g && b == r.kb * r.g
    ensures r.g <= a && r.g <= b
    decreases a + b
  {
    if a == b then
      Bezout(a, 1, 0, 1, 1)
    else if a > b then
      var r := ExtendedGcd(a - b, b);
      assert r.x * (a - b) + r.y * b == r.x * a + (r.y - r.x) * b;
      assert (r.ka + r.kb) * r.g == r.ka * r.g + r.kb * r.g;
      Bezout(r.g, r.x, r.y - r.x, r.ka + r.kb, r.kb)
    else
      var r := ExtendedGcd(a, b - a);
      assert r.x * a + r.y * (b - a) == (r.x - r.y) * a + r.y * b;
      assert (r.ka + r.kb) * r.g == r.ka * r.g + r.kb * r.g;
      Bezout(r.g, r.x - r.y, r.y, r.ka, r.ka + r.kb)
  }

  // The multiplicative inverse; 0 has none and is mapped to 0 (callers test for it first).
  function Inv(a: int, q: pos): nat {
    if Mod(a, q) == 0 then 0 else Mod(ExtendedGcd(Mod(a, q), q).x, q)
  }

  lemma {:induction false} InverseCorrect(a: int, q: pos)
    requires Prime(q) && Mod(a, q) != 0
    ensures Cong(a * Inv(a, q), 1, q)
    ensures Mod(Inv(a, q), q) != 0
  {
    var m := Mod(a, q);
    var r := ExtendedGcd(m, q);
    assert r.g == 1 by {
      if r.g > 1 {
        ModShift(0, r.kb, r.g);
      }
    }
    CongMod(a, q);
    CongMod(r.x, q);
    CongMul(a, m, Inv(a, q), r.x, q);
    assert m * r.x == 1 + (-r.y) * q;
    ModShift(1, -r.y, q);
    if Mod(Inv(a, q), q) == 0 {
      CongScale(a, Inv(a, q), 0, q);
      assert false;
    }
  }

  // A non-zero factor can be cancelled.
  lemma {:induction false} CongCancel(c: int, a: int, b: int, q: pos)
    requires Prime(q) && Mod(c, q) != 0
    requires Cong(c * a, c * b, q)
    ensures Cong(a, b, q)
  {
    hide Mod;
    InverseCorrect(c, q);
    var i := Inv(c, q);
    CongScale(i, c * a, c * b, q);
    CongMul(c * i, 1, a, a, q);
    CongMul(c * i, 1, b, b, q);
    Associate(i, c, a);
    Associate(i, c, b);
  }

  // The product of two scalars is zero exactly when one of them is.
  lemma {:induction false} ProductZero(a: int, b: int, q: pos)
    requires Prime(q)
    ensures Mod(a * b, q) == 0 <==> Mod(a, q) == 0 || Mod(b, q) == 0
  {
    if Mod(a, q) == 0 {
      CongMul(a, 0, b, b, q);
    } else if Mod(b, q) == 0 {
      CongMul(a, a, b, 0, q);
    } else if Mod(a * b, q) == 0 {
      CongCancel(a, b, 0, q);
      assert false;
    }
  }
}
