// Feldman's verifiable secret sharing: polynomials over Z_q, their commitments in the
// exponent, and Lagrange interpolation at 0.
module Vss {
  import opened Zq

  // A polynomial is the sequence of its coefficients, constant term first.
  function Eval(f: seq<nat>, x: int): int {
    if f == [] then 0 else f[0] + x * Eval(f[1..], x)
  }

  // x * f(x)
  function Shifted(f: seq<nat>): seq<nat> {
    [0] + f
  }

  // --- Lagrange coefficients at 0 -------------------------------------------------------

  // The products over the points other than x, as integers.
  function Numerator(xs: seq<int>, x: int): int {
    if xs == [] then 1 else (if xs[0] == x then 1 else xs[0]) * Numerator(xs[1..], x)
  }

  function Denominator(xs: seq<int>, x: int): int {
    if xs == [] then 1 else (if xs[0] == x then 1 else xs[0] - x) * Denominator(xs[1..], x)
  }

  function Lambda(xs: seq<int>, x: int, q: pos): int {
    Numerator(xs, x) * Inv(Denominator(xs, x), q)
  }

  // The points are different scalars.
  ghost predicate Distinct(xs: seq<int>, q: pos) {
    forall i, j :: 0 <= i < j < |xs| ==> !Cong(xs[i], xs[j], q)
  }

  ghost predicate Separated(xs: seq<int>, x: int, q: pos) {
    forall i :: 0 <= i < |xs| ==> xs[i] == x || !Cong(xs[i], x, q)
  }

  lemma {:induction false} DenominatorNonZero(xs: seq<int>, x: int, q: pos)
    requires Prime(q) && Separated(xs, x, q)
    ensures Mod(Denominator(xs, x), q) != 0
  {
    if xs != [] {
      DenominatorNonZero(xs[1..], x, q);
      if xs[0] != x { CongDifference(xs[0], x, q); }
      ProductZero(if xs[0] == x then 1 else xs[0] - x, Denominator(xs[1..], x), q);
    }
  }

  // Adding the point a multiplies the coefficient of x by a / (a - x).
  lemma {:induction false} LambdaStep(a: int, xs: seq<int>, x: int, q: pos)
    requires Prime(q) && Separated(xs, x, q) && !Cong(a, x, q)
    ensures Cong((a - x) * Lambda([a] + xs, x, q), a * Lambda(xs, x, q), q)
  {
    hide Mod;
    var n, d := Numerator(xs, x), Denominator(xs, x);
    assert ([a] + xs)[1..] == xs;
    DenominatorNonZero(xs, x, q);
    CongDifference(a, x, q);
    InverseOfProduct(a - x, d, q);
    CongScale(a * n, (a - x) * Inv((a - x) * d, q), Inv(d, q), q);
    Associate(a - x, a * n, Inv((a - x) * d, q));
    Associate(a, n, Inv(d, q));
  }

  lemma {:induction false} InverseOfProduct(c: int, d: int, q: pos)
    requires Prime(q) && Mod(c, q) != 0 && Mod(d, q) != 0
    ensures Cong(c * Inv(c * d, q), Inv(d, q), q)
  {
    hide Mod;
    ProductZero(c, d, q);
    InverseCorrect(d, q);
    InverseCorrect(c * d, q);
    Associate(d, c, Inv(c * d, q));
    CongCancel(d, c * Inv(c * d, q), Inv(d, q), q);
  }

  // sum of Lambda(xs, y) * f(y) over the points y in ys
  function Weighted(xs: seq<int>, ys: seq<int>, f: seq<nat>, q: pos): int {
    if ys == [] then 0
    else Lambda(xs, ys[0], q) * Eval(f, ys[0]) + Weighted(xs, ys[1..], f, q)
  }

  // One term of LambdaStep, for the polynomials f and x*f.
  lemma {:induction false} TermStep(a: int, xs: seq<int>, y: int, f: seq<nat>, q: pos)
    requires Prime(q) && Separated(xs, y, q) && !Cong(a, y, q)
    ensures Cong(a * (Lambda([a] + xs, y, q) * Eval(f, y)) - Lambda([a] + xs, y, q) * Eval(Shifted(f), y),
                 a * (Lambda(xs, y, q) * Eval(f, y)), q)
  {
    hide Mod;
    var l, m, v := Lambda([a] + xs, y, q), Lambda(xs, y, q), Eval(f, y);
    assert Shifted(f)[1..] == f;
    LambdaStep(a, xs, y, q);
    CongScale(v, (a - y) * l, a * m, q);
    Distribute(a, y, l * v);
    Associate(v, a - y, l);
    Associate(v, a, m);
    Associate(a, l, v);
    Associate(l, y, v);
    Associate(a - y, l, v);
    Associate(a, m, v);
  }

  lemma {:induction false} DropTerms(a: int, xs: seq<int>, ys: seq<int>, f: seq<nat>, q: pos)
    requires Prime(q)
    requires forall i :: 0 <= i < |ys| ==> Separated(xs, ys[i], q) && !Cong(a, ys[i], q)
    ensures Cong(a * Weighted([a] + xs, ys, f, q) - Weighted([a] + xs, ys, Shifted(f), q),
                 a * Weighted(xs, ys, f, q), q)
  {
    if ys != [] {
      var y, zs, f' := ys[0], ys[1..], Shifted(f);
      TermStep(a, xs, y, f, q);
      DropTerms(a, xs, zs, f, q);
      CongAdd(a * (Lambda([a] + xs, y, q) * Eval(f, y)) - Lambda([a] + xs, y, q) * Eval(f', y),
              a * (Lambda(xs, y, q) * Eval(f, y)),
              a * Weighted([a] + xs, zs, f, q) - Weighted([a] + xs, zs, f', q),
              a * Weighted(xs, zs, f, q), q);
      Distribute(Lambda([a] + xs, y, q) * Eval(f, y), Weighted([a] + xs, zs, f, q), a);
      Distribute(Lambda(xs, y, q) * Eval(f, y), Weighted(xs, zs, f, q), a);
    }
  }

  // Dropping the first point.
  lemma {:induction false} Drop(a: int, xs: seq<int>, f: seq<nat>, q: pos)
    requires Prime(q) && Distinct([a] + xs, q)
    ensures Cong(a * Weighted([a] + xs, [a] + xs, f, q) - Weighted([a] + xs, [a] + xs, Shifted(f), q),
                 a * Weighted(xs, xs, f, q), q)
  {
    hide Mod;
    var s := [a] + xs;
    assert s[1..] == xs;
    forall i | 0 <= i < |xs| ensures Separated(xs, xs[i], q) && !Cong(a, xs[i], q) {
      assert xs[i] == s[i + 1] && s[0] == a;
      forall j | 0 <= j < |xs| ensures xs[j] == xs[i] || !Cong(xs[j], xs[i], q) {
        assert xs[j] == s[j + 1];
      }
    }
    DropTerms(a, xs, xs, f, q);
    var l, v := Lambda(s, a, q), Eval(f, a);
    assert Shifted(f)[1..] == f;
    Associate(a, l, v);
    Associate(l, a, v);
    Distribute(l * v, Weighted(s, xs, f, q), a);
  }

  lemma {:induction false} FirstTwoFactors(a: int, b: int, xs: seq<int>, y: int)
    ensures Numerator([a, b] + xs, y)
         == (if a == y then 1 else a) * ((if b == y then 1 else b) * Numerator(xs, y))
    ensures Denominator([a, b] + xs, y)
         == (if a == y then 1 else a - y) * ((if b == y then 1 else b - y) * Denominator(xs, y))
  {
    assert ([a, b] + xs)[1..] == [b] + xs && ([b] + xs)[1..] == xs;
  }

  lemma {:induction false} LambdaSwap(a: int, b: int, xs: seq<int>, y: int, q: pos)
    ensures Lambda([a, b] + xs, y, q) == Lambda([b, a] + xs, y, q)
  {
    FirstTwoFactors(a, b, xs, y);
    FirstTwoFactors(b, a, xs, y);
    Associate(if a == y then 1 else a, if b == y then 1 else b, Numerator(xs, y));
    Associate(if a == y then 1 else a - y, if b == y then 1 else b - y, Denominator(xs, y));
  }

  lemma {:induction false} WeightedSwap(a: int, b: int, xs: seq<int>, ys: seq<int>, f: seq<nat>, q: pos)
    ensures Weighted([a, b] + xs, ys, f, q) == Weighted([b, a] + xs, ys, f, q)
  {
    if ys != [] {
      LambdaSwap(a, b, xs, ys[0], q);
      WeightedSwap(a, b, xs, ys[1..], f, q);
    }
  }

  // The order of the first two points does not matter.
  lemma {:induction false} SwapFirst(a: int, b: int, xs: seq<int>, f: seq<nat>, q: pos)
    ensures Weighted([a, b] + xs, [a, b] + xs, f, q) == Weighted([b, a] + xs, [b, a] + xs, f, q)
  {
    var s, t := [a, b] + xs, [b, a] + xs;
    assert s[1..] == [b] + xs && t[1..] == [a] + xs;
    assert ([b] + xs)[1..] == xs && ([a] + xs)[1..] == xs;
    WeightedSwap(a, b, xs, s, f, q);
  }

  // Lagrange interpolation at 0: a polynomial with no more coefficients than there are
  // points is recovered at 0 from its values at the points.
  lemma {:induction false} Interpolation(xs: seq<int>, f: seq<nat>, q: pos)
    requires Prime(q) && Distinct(xs, q)
    requires 0 < |f| <= |xs|
    ensures Cong(Weighted(xs, xs, f, q), f[0], q)
    decreases |xs|, |f|
  {
    hide Mod;
    if |xs| == 1 {
      SinglePoint(xs, f, q);
    } else if |f| < |xs| {
      InterpolationBelow(xs, f, q);
    } else {
      var h := f[1..];
      Interpolation(xs, [1], q);
      InterpolationBelow(xs, h, q);
      SplitConstant(xs, xs, f, q);
      CongScale(f[0], Weighted(xs, xs, [1], q), 1, q);
      CongAdd(f[0] * Weighted(xs, xs, [1], q), f[0], Weighted(xs, xs, Shifted(h), q), 0, q);
    }
  }

  lemma {:induction false} SinglePoint(xs: seq<int>, f: seq<nat>, q: pos)
    requires Prime(q) && |xs| == 1 && |f| == 1
    ensures Cong(Weighted(xs, xs, f, q), f[0], q)
  {
    hide Mod;
    var x := xs[0];
    assert Numerator([], x) == 1 && Denominator([], x) == 1 && Eval([], x) == 0;
    assert xs[1..] == [] && f[1..] == [];
    assert Lambda(xs, x, q) == Inv(1, q) && Eval(f, x) == f[0];
    ModSmall(1, q);
    InverseCorrect(1, q);
    CongMul(Inv(1, q), 1, f[0], f[0], q);
  }

  // With a point to spare: both f and x*f are recovered.
  lemma {:induction false} InterpolationBelow(xs: seq<int>, f: seq<nat>, q: pos)
    requires Prime(q) && Distinct(xs, q)
    requires 0 < |f| < |xs|
    ensures Cong(Weighted(xs, xs, f, q), f[0], q)
    ensures Cong(Weighted(xs, xs, Shifted(f), q), 0, q)
    decreases |xs|, 0
  {
    var a, b, t := xs[0], xs[1], xs[2..];
    var s := Weighted(xs, xs, f, q);
    var s' := Weighted(xs, xs, Shifted(f), q);
    assert xs == [a] + ([b] + t) == [a, b] + t;
    assert [b] + ([a] + t) == [b, a] + t;
    DistinctParts(a, b, t, q);
    Drop(a, [b] + t, f, q);
    Drop(b, [a] + t, f, q);
    SwapFirst(a, b, t, f, q);
    SwapFirst(a, b, t, Shifted(f), q);
    Interpolation([b] + t, f, q);
    Interpolation([a] + t, f, q);
    CongScale(a, Weighted([b] + t, [b] + t, f, q), f[0], q);
    CongScale(b, Weighted([a] + t, [a] + t, f, q), f[0], q);
    // a*s - s' = a*f(0) and b*s - s' = b*f(0)
    CongAdd(a * s - s', a * f[0], b * s - s', b * f[0], q);
    Distribute(a, b, s);
    Distribute(a, b, f[0]);
    CongDifference(a, b, q);
    CongCancel(a - b, s, f[0], q);
    CongScale(a, s, f[0], q);
    CongAdd(a * s, a * f[0], a * s - s', a * f[0], q);
  }

  lemma {:induction false} DistinctParts(a: int, b: int, t: seq<int>, q: pos)
    requires Distinct([a, b] + t, q)
    ensures Distinct([a] + t, q) && Distinct([b] + t, q) && !Cong(a, b, q)
    ensures Distinct([b, a] + t, q)
  {
    hide Mod;
    var s := [a, b] + t;
    assert s[0] == a && s[1] == b;
    assert forall i :: 0 <= i < |t| ==> s[i + 2] == t[i];
  }

  lemma {:induction false} SplitConstant(xs: seq<int>, ys: seq<int>, f: seq<nat>, q: pos)
    requires f != []
    ensures Weighted(xs, ys, f, q) == f[0] * Weighted(xs, ys, [1], q) + Weighted(xs, ys, Shifted(f[1..]), q)
  {
    if ys != [] {
      SplitConstant(xs, ys[1..], f, q);
      var l, y := Lambda(xs, ys[0], q), ys[0];
      assert Shifted(f[1..])[1..] == f[1..];
      assert Eval([1], y) == 1;
      Distribute(f[0], y * Eval(f[1..], y), l);
      Distribute(l, Weighted(xs, ys[1..], [1], q), f[0]);
    }
  }
}
