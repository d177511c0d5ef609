// Curve points, ideal proofs and commitments, and the Feldman scheme the parties share.
module Feldman {
  import opened Results
  import opened Zq
  import opened Sums
  import opened Vss

  // A point of the group of prime order q, given by its discrete logarithm to the base G.
  datatype Point = Point(log: nat)

  const GENERATOR := Point(1)

  function AddPoints(a: Point, b: Point, q: pos): Point {
    Point(Mod(a.log + b.log, q))
  }

  function SubPoints(a: Point, b: Point, q: pos): Point {
    Point(Mod(a.log - b.log, q))
  }

  function MulPoint(a: Point, s: nat, q: pos): Point {
    Point(Mod(a.log * s, q))
  }

  lemma {:induction false} SubLog(a: Point, b: Point, e: int, f: int, q: pos)
    requires Cong(a.log, e, q) && Cong(b.log, f, q)
    ensures Cong(SubPoints(a, b, q).log, e - f, q)
  {
    hide Mod;
    CongAdd(a.log, e, b.log, f, q);
    CongMod(a.log - b.log, q);
  }

  lemma {:induction false} MulLog(a: Point, s: nat, e: int, q: pos)
    requires Cong(a.log, e, q)
    ensures Cong(MulPoint(a, s, q).log, e * s, q)
  {
    hide Mod;
    CongMul(a.log, e, s, s, q);
    CongMod(a.log * s, q);
  }

  // x_coor().unwrap(): the point at infinity has no x coordinate.
  function XCoordinate(a: Point, xcoor: nat -> nat): Option<nat> {
    if a.log == 0 then None else Some(xcoor(a.log))
  }

  function Logs(v: seq<Point>): (w: seq<nat>)
    ensures |w| == |v| && forall i :: 0 <= i < |v| ==> w[i] == v[i].log
  {
    seq(|v|, i requires 0 <= i < |v| => v[i].log)
  }

  // v.iter().fold(init, |acc, x| acc + x) over points.
  function FoldPoints(init: Point, v: seq<Point>, q: pos): Point {
    Point(FoldAdd(init.log, Logs(v), q))
  }

  // Folding a non-empty vector that starts with its own first element.
  function SumPoints(v: seq<Point>, q: pos): Option<Point> {
    if v == [] then None else Some(FoldPoints(v[0], v[1..], q))
  }

  lemma {:induction false} SumPointsIsSum(v: seq<Point>, f: nat -> int, q: pos)
    requires v != []
    requires forall i: nat :: i < |v| ==> v[i].log < q && Cong(v[i].log, f(i), q)
    ensures SumPoints(v, q) == Some(Point(Mod(Sum(|v|, f), q)))
  {
    hide Mod;
    var g: nat -> int := (i: nat) => f(i + 1);
    FoldAddIsSum(v[0].log, Logs(v[1..]), g, q);
    CongAdd(v[0].log, f(0), Sum(|v| - 1, g), Sum(|v| - 1, g), q);
    SumFromFirst(|v|, f);
    ModSmall(SumPoints(v, q).value.log, q);
  }

  lemma {:induction false} SumFromFirst(n: nat, f: nat -> int)
    requires n > 0
    ensures Sum(n, f) == f(0) + Sum(n - 1, (i: nat) => f(i + 1))
  {
    var g: nat -> int := (i: nat) => f(i + 1);
    if n > 1 {
      SumFromFirst(n - 1, f);
      SumEq(n - 2, (i: nat) => f(i + 1), g);
    }
    SumEq(n - 1, (i: nat) => f(i + 1), g);
  }

  // An ideal proof of knowledge is its witness; verifying it checks the relation.
  datatype DLogProof = DLogProof(pk: Point, secret: nat)

  function ProveDLog(x: nat, q: pos): DLogProof {
    DLogProof(MulPoint(GENERATOR, x, q), x)
  }

  predicate VerifyDLog(p: DLogProof, q: pos) {
    p.pk == MulPoint(GENERATOR, p.secret, q)
  }

  // A hash commitment determines the committed value and the blinding factor.
  datatype Commitment<V> = Commitment(committed: V, blind: nat)

  // --- the secret sharing scheme --------------------------------------------------------

  datatype VerifiableSS = VerifiableSS(threshold: nat, shareCount: nat, commitments: seq<Point>)

  // The scheme and the shares for 1..n of a dealer with the given polynomial.
  function Share(t: nat, n: nat, f: seq<nat>, q: pos): Option<(VerifiableSS, seq<nat>)> {
    if t >= n then None
    else Some((VerifiableSS(t, n, Commit(f, q)), Tabulate(n, (i: nat) => ShareFor(f, i + 1, q))))
  }

  function ShareFor(f: seq<nat>, x: nat, q: pos): nat {
    Mod(Eval(f, x), q)
  }

  function Commit(f: seq<nat>, q: pos): (v: seq<Point>)
    ensures |v| == |f|
  {
    seq(|f|, i requires 0 <= i < |f| => MulPoint(GENERATOR, f[i], q))
  }

  // The commitments evaluated at index, highest coefficient first.
  function PointCommitment(c: seq<Point>, index: nat, q: pos): Option<Point> {
    if c == [] then None
    else if |c| == 1 then Some(c[0])
    else
      var tail :- PointCommitment(c[1..], index, q);
      Some(AddPoints(c[0], MulPoint(tail, index, q), q))
  }

  predicate ValidShare(c: seq<Point>, share: nat, index: nat, q: pos) {
    PointCommitment(c, index, q) == Some(MulPoint(GENERATOR, share, q))
  }

  // Evaluating commitments is evaluating the committed polynomial in the exponent.
  lemma {:induction false} PointCommitmentEvaluates(c: seq<Point>, index: nat, q: pos)
    requires c != []
    ensures PointCommitment(c, index, q).Some?
    ensures Cong(PointCommitment(c, index, q).value.log, Eval(Logs(c), index), q)
  {
    hide Mod;
    assert Logs(c)[1..] == Logs(c[1..]);
    if |c| == 1 {
      assert Eval(Logs(c)[1..], index) == 0;
    } else {
      PointCommitmentEvaluates(c[1..], index, q);
      var tail := PointCommitment(c[1..], index, q).value;
      CongMul(tail.log, Eval(Logs(c[1..]), index), index, index, q);
      CongMod(tail.log * index, q);
      CongAdd(c[0].log, c[0].log, Mod(tail.log * index, q), index * Eval(Logs(c[1..]), index), q);
      CongMod(c[0].log + Mod(tail.log * index, q), q);
    }
  }

  // A share is accepted exactly when it is the committed polynomial's value.
  lemma {:induction false} ValidShareIff(c: seq<Point>, share: nat, index: nat, q: pos)
    requires c != [] && forall i :: 0 <= i < |c| ==> c[i].log < q
    ensures ValidShare(c, share, index, q) <==> Cong(share, Eval(Logs(c), index), q)
  {
    hide Mod;
    PointCommitmentEvaluates(c, index, q);
    var p := PointCommitment(c, index, q).value;
    assert p.log < q;
    ModSmall(p.log, q);
  }

  // --- sums of polynomials --------------------------------------------------------------

  function AddPoly(f: seq<nat>, g: seq<nat>, q: pos): (h: seq<nat>)
    requires |f| == |g|
    ensures |h| == |f|
  {
    seq(|f|, i requires 0 <= i < |f| => Mod(f[i] + g[i], q))
  }

  lemma {:induction false} EvalAddPoly(f: seq<nat>, g: seq<nat>, x: int, q: pos)
    requires |f| == |g|
    ensures Cong(Eval(AddPoly(f, g, q), x), Eval(f, x) + Eval(g, x), q)
  {
    hide Mod;
    var h := AddPoly(f, g, q);
    if f != [] {
      assert h[1..] == AddPoly(f[1..], g[1..], q);
      EvalAddPoly(f[1..], g[1..], x, q);
      CongScale(x, Eval(h[1..], x), Eval(f[1..], x) + Eval(g[1..], x), q);
      Distribute(Eval(f[1..], x), Eval(g[1..], x), x);
      CongMod(f[0] + g[0], q);
      CongAdd(h[0], f[0] + g[0], x * Eval(h[1..], x), x * (Eval(f[1..], x) + Eval(g[1..], x)), q);
    }
  }

  // The sum of the first n dealers' polynomials.
  function JointPoly(n: nat, dealt: seq<seq<nat>>, t: nat, q: pos): (h: seq<nat>)
    requires n <= |dealt| && forall j :: 0 <= j < n ==> |dealt[j]| == t + 1
    ensures |h| == t + 1
  {
    if n == 0 then seq(t + 1, _ => 0) else AddPoly(JointPoly(n - 1, dealt, t, q), dealt[n - 1], q)
  }

  lemma {:induction false} EvalZero(t: nat, x: int)
    ensures Eval(seq(t + 1, _ => 0), x) == 0
  {
    var z := seq(t + 1, _ => 0);
    if t == 0 {
      assert z[1..] == [];
    } else {
      assert z[1..] == seq(t, _ => 0);
      EvalZero(t - 1, x);
    }
  }

  function ValueAt(dealt: seq<seq<nat>>, x: int): nat -> int {
    (j: nat) => if j < |dealt| then Eval(dealt[j], x) else 0
  }

  lemma {:induction false} JointPolyEvaluates(n: nat, dealt: seq<seq<nat>>, t: nat, x: int, q: pos)
    requires n <= |dealt| && forall j :: 0 <= j < n ==> |dealt[j]| == t + 1
    ensures Cong(Eval(JointPoly(n, dealt, t, q), x), Sum(n, ValueAt(dealt, x)), q)
  {
    hide Mod;
    if n == 0 {
      EvalZero(t, x);
    } else {
      var f := JointPoly(n - 1, dealt, t, q);
      JointPolyEvaluates(n - 1, dealt, t, x, q);
      EvalAddPoly(f, dealt[n - 1], x, q);
      CongAdd(Eval(f, x), Sum(n - 1, ValueAt(dealt, x)), Eval(dealt[n - 1], x), Eval(dealt[n - 1], x), q);
    }
  }

  // The joint polynomial's value at 0 is the sum of the dealers' secrets.
  function SecretOf(dealt: seq<seq<nat>>): nat -> int {
    (j: nat) => if j < |dealt| && dealt[j] != [] then dealt[j][0] else 0
  }

  lemma {:induction false} JointPolyConstant(n: nat, dealt: seq<seq<nat>>, t: nat, q: pos)
    requires n <= |dealt| && forall j :: 0 <= j < n ==> |dealt[j]| == t + 1
    ensures Cong(JointPoly(n, dealt, t, q)[0], Sum(n, SecretOf(dealt)), q)
  {
    if n > 0 {
      var f := JointPoly(n - 1, dealt, t, q);
      JointPolyConstant(n - 1, dealt, t, q);
      CongAdd(f[0], Sum(n - 1, SecretOf(dealt)), dealt[n - 1][0], dealt[n - 1][0], q);
      CongMod(f[0] + dealt[n - 1][0], q);
    }
  }

  // --- re-mapping shares to a set of signers --------------------------------------------

  // map_share_to_new_params: the coefficient of `index` for the signers s (indices from 0,
  // so that signer i holds the value at i + 1).
  function MapShareToNewParams(index: nat, s: seq<nat>, q: pos): nat {
    Mod(FoldNumerator(1, index, s, q) * Inv(FoldDenominator(1, index, s, q), q), q)
  }

  function FoldNumerator(acc: nat, index: nat, s: seq<nat>, q: pos): nat
    decreases |s|
  {
    if s == [] then acc
    else FoldNumerator(if s[0] != index then Mod(acc * (s[0] + 1), q) else acc, index, s[1..], q)
  }

  function FoldDenominator(acc: nat, index: nat, s: seq<nat>, q: pos): nat
    decreases |s|
  {
    if s == [] then acc
    else FoldDenominator(if s[0] != index then Mod(acc * Mod((s[0] + 1) - (index + 1), q), q) else acc, index, s[1..], q)
  }

  function PointsOf(s: seq<nat>): (xs: seq<int>)
    ensures |xs| == |s| && forall i :: 0 <= i < |s| ==> xs[i] == s[i] + 1
  {
    seq(|s|, i requires 0 <= i < |s| => s[i] + 1)
  }

  lemma {:induction false} FoldNumeratorIs(acc: nat, index: nat, s: seq<nat>, q: pos)
    ensures Cong(FoldNumerator(acc, index, s, q), acc * Numerator(PointsOf(s), index + 1), q)
    decreases |s|
  {
    hide Mod;
    if s != [] {
      var x := s[0] + 1;
      assert PointsOf(s)[1..] == PointsOf(s[1..]);
      var n := Numerator(PointsOf(s[1..]), index + 1);
      if s[0] != index {
        FoldNumeratorIs(Mod(acc * x, q), index, s[1..], q);
        CongMod(acc * x, q);
        CongMul(Mod(acc * x, q), acc * x, n, n, q);
        Associate(acc, x, n);
      } else {
        FoldNumeratorIs(acc, index, s[1..], q);
      }
    }
  }

  lemma {:induction false} FoldDenominatorIs(acc: nat, index: nat, s: seq<nat>, q: pos)
    ensures Cong(FoldDenominator(acc, index, s, q), acc * Denominator(PointsOf(s), index + 1), q)
    decreases |s|
  {
    hide Mod;
    if s != [] {
      var d := (s[0] + 1) - (index + 1);
      assert PointsOf(s)[1..] == PointsOf(s[1..]);
      var n := Denominator(PointsOf(s[1..]), index + 1);
      if s[0] != index {
        FoldDenominatorIs(Mod(acc * Mod(d, q), q), index, s[1..], q);
        CongMod(d, q);
        CongScale(acc, Mod(d, q), d, q);
        CongMod(acc * Mod(d, q), q);
        CongMul(Mod(acc * Mod(d, q), q), acc * d, n, n, q);
        Associate(acc, d, n);
      } else {
        FoldDenominatorIs(acc, index, s[1..], q);
      }
    }
  }

  lemma {:induction false} InvCong(a: int, b: int, q: pos)
    requires Cong(a, b, q)
    ensures Inv(a, q) == Inv(b, q)
  {
  }

  lemma {:induction false} MapShareIsLambda(index: nat, s: seq<nat>, q: pos)
    ensures Cong(MapShareToNewParams(index, s, q), Lambda(PointsOf(s), index + 1, q), q)
  {
    hide Mod;
    FoldNumeratorIs(1, index, s, q);
    FoldDenominatorIs(1, index, s, q);
    InvCong(FoldDenominator(1, index, s, q), Denominator(PointsOf(s), index + 1), q);
    var i := Inv(Denominator(PointsOf(s), index + 1), q);
    CongMul(FoldNumerator(1, index, s, q), Numerator(PointsOf(s), index + 1), i, i, q);
    CongMod(FoldNumerator(1, index, s, q) * i, q);
  }

  // The signers are different parties of a group smaller than the field.
  ghost predicate Signers(s: seq<nat>, n: nat, q: pos) {
    n < q && (forall i :: 0 <= i < |s| ==> s[i] < n) && (forall i, j :: 0 <= i < j < |s| ==> s[i] != s[j])
  }

  lemma {:induction false} SignersDistinct(s: seq<nat>, n: nat, q: pos)
    requires Signers(s, n, q)
    ensures Distinct(PointsOf(s), q)
  {
    forall i, j | 0 <= i < j < |s| ensures !Cong(PointsOf(s)[i], PointsOf(s)[j], q) {
      ModSmall(s[i] + 1, q);
      ModSmall(s[j] + 1, q);
    }
  }

  // The re-mapped share of the i-th signer.
  function Remapped(f: seq<nat>, s: seq<nat>, q: pos): nat -> int {
    (i: nat) => if i < |s| then MapShareToNewParams(s[i], s, q) * ShareFor(f, s[i] + 1, q) else 0
  }

  // Any |f| or more different signers, in any order, hold re-mapped shares that add up to
  // the shared secret.
  lemma {:induction false} RemappedSharesSum(f: seq<nat>, s: seq<nat>, n: nat, q: pos)
    requires Prime(q) && Signers(s, n, q) && 0 < |f| <= |s|
    ensures Cong(Sum(|s|, Remapped(f, s, q)), f[0], q)
  {
    hide Mod;
    SignersDistinct(s, n, q);
    Interpolation(PointsOf(s), f, q);
    var g := WeightedTerms(f, s, q);
    forall i: nat | i < |s| ensures Cong(Remapped(f, s, q)(i), g(i), q) {
      MapShareIsLambda(s[i], s, q);
      CongMod(Eval(f, s[i] + 1), q);
      CongMul(MapShareToNewParams(s[i], s, q), Lambda(PointsOf(s), s[i] + 1, q), ShareFor(f, s[i] + 1, q), Eval(f, s[i] + 1), q);
    }
    SumCong(|s|, Remapped(f, s, q), g, q);
    WeightedIsSum(f, s, 0, q);
    assert PointsOf(s)[0..] == PointsOf(s);
  }

  function WeightedTerms(f: seq<nat>, s: seq<nat>, q: pos): nat -> int {
    (i: nat) => if i < |s| then Lambda(PointsOf(s), s[i] + 1, q) * Eval(f, s[i] + 1) else 0
  }

  lemma {:induction false} WeightedIsSum(f: seq<nat>, s: seq<nat>, k: nat, q: pos)
    requires k <= |s|
    ensures Weighted(PointsOf(s), PointsOf(s)[k..], f, q)
         == Sum(|s|, WeightedTerms(f, s, q)) - Sum(k, WeightedTerms(f, s, q))
    decreases |s| - k
  {
    if k < |s| {
      WeightedIsSum(f, s, k + 1, q);
      assert PointsOf(s)[k..][1..] == PointsOf(s)[k + 1..];
    }
  }
}
