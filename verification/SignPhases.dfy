// The phases of threshold ECDSA signing, as pure functions of what a party holds and has
// received, and the algebra that makes them produce an ECDSA signature.
module SignPhases {
  import opened Results
  import opened Zq
  import opened Sums
  import opened Feldman

  // --- phases 2 to 4 --------------------------------------------------------------------

  // k*g plus the sum of both share vectors: phase2_delta_i with g = gamma_i, and
  // phase2_sigma_i with g = w_i.
  function Phase2(k: nat, g: nat, alphas: seq<nat>, betas: seq<nat>, q: pos): Option<nat> {
    if |alphas| != |betas| then None
    else Some(FoldAdd(Mod(k * g, q), PairSums(alphas, betas, q), q))
  }

  function PairSums(alphas: seq<nat>, betas: seq<nat>, q: pos): (v: seq<nat>)
    requires |alphas| == |betas|
    ensures |v| == |alphas| && forall i :: 0 <= i < |v| ==> v[i] == Mod(alphas[i] + betas[i], q)
  {
    seq(|alphas|, i requires 0 <= i < |alphas| => Mod(alphas[i] + betas[i], q))
  }

  function Invert(a: nat, q: pos): Option<nat> {
    if Mod(a, q) == 0 then None else Some(Inv(a, q))
  }

  function Phase3ReconstructDelta(deltas: seq<nat>, q: pos): Option<nat> {
    Invert(FoldAdd(0, deltas, q), q)
  }

  datatype SignDecommit = SignDecommit(blind: nat, gGamma: Point)

  // The other parties' nonce points, each checked against its commitment and against the
  // proof that came with the conversion message.
  function Phase4(deltaInv: nat, proofs: seq<DLogProof>, decommits: seq<SignDecommit>, coms: seq<Commitment<Point>>, q: pos): Option<Point> {
    if |decommits| < |proofs| || |coms| < |proofs| then None
    else if decommits == [] then None
    else if forall i :: 0 <= i < |proofs| ==> proofs[i].pk == decommits[i].gGamma && coms[i] == Commitment(decommits[i].gGamma, decommits[i].blind)
    then
      var gammas := seq(|decommits|, i requires 0 <= i < |decommits| => decommits[i].gGamma);
      var sum :- SumPoints(gammas, q);
      Some(MulPoint(sum, deltaInv, q))
    else None
  }

  // --- phase 5 --------------------------------------------------------------------------

  datatype LocalSignature = LocalSignature(l: nat, rho: nat, R: Point, s: nat, m: nat, y: Point)

  function RCoordinate(R: Point, xcoor: nat -> nat, q: pos): Option<nat> {
    var x :- XCoordinate(R, xcoor);
    Some(Mod(x, q))
  }

  function Phase5LocalSig(k: nat, m: nat, R: Point, sigma: nat, y: Point, l: nat, rho: nat, xcoor: nat -> nat, q: pos): Option<LocalSignature> {
    var r :- RCoordinate(R, xcoor, q);
    Some(LocalSignature(l, rho, R, Mod(Mod(Mod(m, q) * k, q) + Mod(r * sigma, q), q), m, y))
  }

  datatype Phase5A = Phase5A(V: Point, A: Point, B: Point, blind: nat)

  datatype ElGamalProof = ElGamalProof(r: nat, x: nat)

  // D = x*H + r*G and E = r*A, for the generator G.
  predicate VerifyElGamal(p: ElGamalProof, A: Point, H: Point, D: Point, E: Point, q: pos) {
    && D == AddPoints(MulPoint(H, p.x, q), MulPoint(GENERATOR, p.r, q), q)
    && E == MulPoint(A, p.r, q)
  }

  function MakePhase5A(sig: LocalSignature, blind: nat, q: pos): Phase5A {
    Phase5A(AddPoints(MulPoint(sig.R, sig.s, q), MulPoint(GENERATOR, sig.l, q), q),
            MulPoint(GENERATOR, sig.rho, q),
            MulPoint(GENERATOR, Mod(sig.l * sig.rho, q), q),
            blind)
  }

  function CommitA(d: Phase5A): Commitment<(Point, Point, Point)> {
    Commitment((d.V, d.A, d.B), d.blind)
  }

  function ProvePhase5A(sig: LocalSignature): ElGamalProof {
    ElGamalProof(sig.l, sig.s)
  }

  datatype Phase5D = Phase5D(u: Point, t: Point, blind: nat)

  function CommitD(d: Phase5D): Commitment<(Point, Point)> {
    Commitment((d.u, d.t), d.blind)
  }

  function Vs(decoms: seq<Phase5A>): (v: seq<Point>)
    ensures |v| == |decoms| && forall i :: 0 <= i < |v| ==> v[i] == decoms[i].V
  {
    seq(|decoms|, i requires 0 <= i < |decoms| => decoms[i].V)
  }

  function As(decoms: seq<Phase5A>): (v: seq<Point>)
    ensures |v| == |decoms| && forall i :: 0 <= i < |v| ==> v[i] == decoms[i].A
  {
    seq(|decoms|, i requires 0 <= i < |decoms| => decoms[i].A)
  }

  function Phase5C(sig: LocalSignature, decoms: seq<Phase5A>, coms: seq<Commitment<(Point, Point, Point)>>,
                   proofs: seq<ElGamalProof>, V: Point, R: Point, blind: nat, xcoor: nat -> nat, q: pos): Option<Phase5D> {
    if |decoms| != |coms| || |proofs| < |coms| then None
    else
      var a :- SumPoints(As(decoms), q);
      var r :- RCoordinate(sig.R, xcoor, q);
      var v := SubPoints(SubPoints(FoldPoints(V, Vs(decoms), q), MulPoint(GENERATOR, Mod(sig.m, q), q), q), MulPoint(sig.y, r, q), q);
      if forall i :: 0 <= i < |coms| ==> coms[i] == CommitA(decoms[i]) && VerifyElGamal(proofs[i], decoms[i].A, R, decoms[i].V, decoms[i].B, q)
      then Some(Phase5D(MulPoint(v, sig.rho, q), MulPoint(a, sig.l, q), blind))
      else None
  }

  function FoldBoth(init: Point, ts: seq<Point>, bs: seq<Point>, q: pos): Point
    requires |ts| == |bs|
  {
    if ts == [] then init
    else
      var k := |ts| - 1;
      AddPoints(AddPoints(FoldBoth(init, ts[..k], bs[..k], q), ts[k], q), bs[k], q)
  }

  function FoldSub(init: Point, us: seq<Point>, q: pos): Point {
    if us == [] then init else SubPoints(FoldSub(init, us[..|us| - 1], q), us[|us| - 1], q)
  }

  function Ts(d: seq<Phase5D>): (v: seq<Point>)
    ensures |v| == |d| && forall i :: 0 <= i < |v| ==> v[i] == d[i].t
  {
    seq(|d|, i requires 0 <= i < |d| => d[i].t)
  }

  function Us(d: seq<Phase5D>): (v: seq<Point>)
    ensures |v| == |d| && forall i :: 0 <= i < |v| ==> v[i] == d[i].u
  {
    seq(|d|, i requires 0 <= i < |d| => d[i].u)
  }

  function Bs(d: seq<Phase5A>): (v: seq<Point>)
    ensures |v| == |d| && forall i :: 0 <= i < |v| ==> v[i] == d[i].B
  {
    seq(|d|, i requires 0 <= i < |d| => d[i].B)
  }

  function Balance(decoms2: seq<Phase5D>, decoms1: seq<Phase5A>, q: pos): Point
    requires |decoms2| == |decoms1|
  {
    FoldSub(FoldBoth(GENERATOR, Ts(decoms2), Bs(decoms1), q), Us(decoms2), q)
  }

  function CheckPhase5D(sig: LocalSignature, decoms2: seq<Phase5D>, coms2: seq<Commitment<(Point, Point)>>, decoms1: seq<Phase5A>, q: pos): Option<nat> {
    if |decoms2| != |decoms1| || |decoms2| != |coms2| then None
    else if (forall i :: 0 <= i < |coms2| ==> coms2[i] == CommitD(decoms2[i])) && GENERATOR == Balance(decoms2, decoms1, q)
    then Some(sig.s)
    else None
  }

  // --- output ---------------------------------------------------------------------------

  datatype Signature = Signature(r: nat, s: nat)

  // The ECDSA verifying operation (SEC 1 version 2.0, section 4.1.4).
  function Verify(sig: Signature, y: Point, m: nat, xcoor: nat -> nat, q: pos): Option<bool> {
    var b :- Invert(sig.s, q);
    var u1 := Mod(Mod(m, q) * b, q);
    var u2 := Mod(sig.r * b, q);
    var r' :- RCoordinate(AddPoints(MulPoint(GENERATOR, u1, q), MulPoint(y, u2, q), q), xcoor, q);
    Some(sig.r == r')
  }

  function OutputSignature(sig: LocalSignature, others: seq<nat>, xcoor: nat -> nat, q: pos): Option<Signature> {
    var s := FoldAdd(sig.s, others, q);
    var r :- RCoordinate(sig.R, xcoor, q);
    var ok :- Verify(Signature(r, s), sig.y, sig.m, xcoor, q);
    if ok then Some(Signature(r, s)) else None
  }

  // === algebra ==========================================================================

  // The verifier's point u1*G + u2*y.
  function VerifierPoint(m: nat, r: nat, b: nat, y: Point, q: pos): Point {
    AddPoints(MulPoint(GENERATOR, Mod(Mod(m, q) * b, q), q), MulPoint(y, Mod(r * b, q), q), q)
  }

  lemma {:induction false} VerifierPointIs(m: nat, r: nat, b: nat, y: Point, x: int, q: pos)
    requires Cong(y.log, x, q)
    ensures Cong(VerifierPoint(m, r, b, y, q).log, (m + r * x) * b, q)
  {
    hide Mod;
    var u1, u2 := Mod(Mod(m, q) * b, q), Mod(r * b, q);
    CongMod(m, q);
    CongMul(Mod(m, q), m, b, b, q);
    CongMod(Mod(m, q) * b, q);
    CongMod(u1, q);
    CongMod(r * b, q);
    CongMul(y.log, x, u2, r * b, q);
    CongMod(y.log * u2, q);
    CongAdd(Mod(u1, q), m * b, Mod(y.log * u2, q), x * (r * b), q);
    CongMod(Mod(u1, q) + Mod(y.log * u2, q), q);
    RegroupVerifier(m, r, x, b);
  }

  lemma {:induction false} RegroupVerifier(m: int, r: int, x: int, b: int)
    ensures m * b + x * (r * b) == (m + r * x) * b
  {
    Associate(x, r, b);
    Distribute(m, r * x, b);
  }

  // With y = xG, s = k(m + r x) and R = k^-1 G, the verifier recomputes R.
  lemma {:induction false} VerifyRecomputesR(k: int, x: int, m: nat, r: nat, s: nat, y: Point, R: Point, q: pos)
    requires Prime(q) && Mod(s, q) != 0 && R.log < q
    requires Cong(y.log, x, q) && Cong(s, k * (m + r * x), q) && Cong(R.log * k, 1, q)
    ensures VerifierPoint(m, r, Inv(s, q), y, q) == R
  {
    hide Mod;
    VerifierPointIs(m, r, Inv(s, q), y, x, q);
    CancelNonce(k, m + r * x, s, VerifierPoint(m, r, Inv(s, q), y, q).log, R.log, q);
  }

  // k * p = s * s^-1 = 1 = k * R, and k is not zero.
  lemma {:induction false} CancelNonce(k: int, e: int, s: nat, p: nat, R: nat, q: pos)
    requires Prime(q) && Mod(s, q) != 0 && p < q && R < q
    requires Cong(p, e * Inv(s, q), q) && Cong(s, k * e, q) && Cong(R * k, 1, q)
    ensures p == R
  {
    var b := Inv(s, q);
    InverseCorrect(s, q);
    CongScale(k, p, e * b, q);
    Associate(k, e, b);
    CongMul(s, k * e, b, b, q);
    KNonZero(k, R, q);
    CongCancel(k, p, R, q);
  }

  lemma {:induction false} KNonZero(k: int, R: nat, q: pos)
    requires Prime(q) && Cong(R * k, 1, q)
    ensures Mod(k, q) != 0 && Mod(R, q) != 0
  {
    hide Mod;
    ModSmall(1, q);
    ProductZero(R, k, q);
  }

  // The verifier accepts exactly what the signing equation produces.
  lemma {:induction false} OutputAccepts(sig: LocalSignature, others: seq<nat>, k: int, x: int, s: nat, r: nat, xcoor: nat -> nat, q: pos)
    requires Prime(q) && sig.R.log < q && RCoordinate(sig.R, xcoor, q) == Some(r)
    requires Cong(sig.y.log, x, q) && Cong(sig.R.log * k, 1, q)
    requires s == FoldAdd(sig.s, others, q) && Cong(s, k * (sig.m + r * x), q)
    ensures OutputSignature(sig, others, xcoor, q) == if Mod(s, q) == 0 then None else Some(Signature(r, s))
    ensures Mod(s, q) != 0 ==> Verify(Signature(r, s), sig.y, sig.m, xcoor, q) == Some(true)
  {
    hide Mod;
    if Mod(s, q) != 0 {
      VerifyRecomputesR(k, x, sig.m, r, s, sig.y, sig.R, q);
    }
  }

  // --- what the verifier accepts --------------------------------------------------------

  // For any signature, key and message: with y = xG and w the scalar for which
  // w s = m + r x, the verifier compares r with the x coordinate of wG.
  lemma {:induction false} VerifyIs(sig: Signature, y: Point, m: nat, x: int, w: nat, xcoor: nat -> nat, q: pos)
    requires Prime(q) && Cong(y.log, x, q) && Mod(sig.s, q) != 0
    requires w < q && Cong(w * sig.s, m + sig.r * x, q)
    ensures Verify(sig, y, m, xcoor, q) == if w == 0 then None else Some(sig.r == Mod(xcoor(w), q))
  {
    var b := Inv(sig.s, q);
    VerifierPointIs(m, sig.r, b, y, x, q);
    DivideBy(w, sig.s, m + sig.r * x, VerifierPoint(m, sig.r, b, y, q).log, q);
  }

  lemma {:induction false} DivideBy(w: nat, s: nat, e: int, p: nat, q: pos)
    requires Prime(q) && Mod(s, q) != 0 && w < q && p < q
    requires Cong(w * s, e, q) && Cong(p, e * Inv(s, q), q)
    ensures p == w
  {
    hide Mod;
    var b := Inv(s, q);
    InverseCorrect(s, q);
    CongMul(w * s, e, b, b, q);
    CongScale(w, s * b, 1, q);
    Associate(w, s, b);
    ModSmall(p, q);
    ModSmall(w, q);
  }

  // That scalar exists.
  lemma {:induction false} Ratio(e: int, s: nat, q: pos) returns (w: nat)
    requires Prime(q) && Mod(s, q) != 0
    ensures w < q && Cong(w * s, e, q)
  {
    hide Mod;
    var b := Inv(s, q);
    w := Mod(e * b, q);
    InverseCorrect(s, q);
    CongMod(e * b, q);
    CongMul(w, e * b, s, s, q);
    CongScale(e, s * b, 1, q);
    Associate(e, s, b);
    Regroup(e, b, s);
  }

  lemma {:induction false} Regroup(e: int, b: int, s: int)
    ensures e * b * s == e * (s * b)
  {
  }

  // The ECDSA equation (SEC 1 version 2.0, section 4.1.4), without reference to the order in
  // which the verifier computes: the point wG with w s = m + r x has x coordinate r.
  ghost predicate Ecdsa(sig: Signature, x: int, m: nat, xcoor: nat -> nat, q: pos) {
    Mod(sig.s, q) != 0 && exists w: nat :: IsNonce(w, sig, x, m, xcoor, q)
  }

  ghost predicate IsNonce(w: nat, sig: Signature, x: int, m: nat, xcoor: nat -> nat, q: pos) {
    0 < w < q && Cong(w * sig.s, m + sig.r * x, q) && sig.r == Mod(xcoor(w), q)
  }

  lemma {:induction false} VerifyIff(sig: Signature, y: Point, m: nat, x: int, xcoor: nat -> nat, q: pos)
    requires Prime(q) && Cong(y.log, x, q)
    ensures Verify(sig, y, m, xcoor, q) == Some(true) <==> Ecdsa(sig, x, m, xcoor, q)
  {
    hide Verify, Mod, Cong;
    if Mod(sig.s, q) == 0 {
      VerifyZero(sig, y, m, xcoor, q);
    } else {
      var w := Ratio(m + sig.r * x, sig.s, q);
      VerifyIs(sig, y, m, x, w, xcoor, q);
      if IsNonce(w, sig, x, m, xcoor, q) {
        assert Ecdsa(sig, x, m, xcoor, q);
      } else {
        forall v: nat ensures !IsNonce(v, sig, x, m, xcoor, q) {
          if IsNonce(v, sig, x, m, xcoor, q) { VerifyIs(sig, y, m, x, v, xcoor, q); }
        }
      }
    }
  }

  lemma {:induction false} VerifyZero(sig: Signature, y: Point, m: nat, xcoor: nat -> nat, q: pos)
    requires Mod(sig.s, q) == 0
    ensures Verify(sig, y, m, xcoor, q) == None
  {
  }

  function TermsOf(v: seq<nat>): nat -> int { (i: nat) => if i < |v| then v[i] else 0 }

  // For any shares of the others: a signature is returned exactly when the own share and
  // theirs add up to one that meets the ECDSA equation with r = x(R).
  lemma {:induction false} OutputIff(sig: LocalSignature, others: seq<nat>, x: int, xcoor: nat -> nat, q: pos)
    requires Prime(q) && Cong(sig.y.log, x, q) && sig.s < q
    ensures var out, sum := OutputSignature(sig, others, xcoor, q), Mod(sig.s + Sum(|others|, TermsOf(others)), q);
      if sig.R.log == 0 then out == None
      else
        var candidate := Signature(Mod(xcoor(sig.R.log), q), sum);
        out == if Ecdsa(candidate, x, sig.m, xcoor, q) then Some(candidate) else None
  {
    hide Verify, Mod, FoldAdd, Sum, Ecdsa;
    FoldAddIsSum(sig.s, others, TermsOf(others), q);
    ModSmall(FoldAdd(sig.s, others, q), q);
    if sig.R.log != 0 {
      VerifyIff(Signature(Mod(xcoor(sig.R.log), q), FoldAdd(sig.s, others, q)), sig.y, sig.m, x, xcoor, q);
    }
  }

  // --- phase 5 is exact -----------------------------------------------------------------

  lemma {:induction false} FoldBothIs(init: Point, ts: seq<Point>, bs: seq<Point>, f: nat -> int, g: nat -> int, q: pos)
    requires |ts| == |bs|
    requires forall i: nat :: i < |ts| ==> Cong(ts[i].log, f(i), q) && Cong(bs[i].log, g(i), q)
    ensures Cong(FoldBoth(init, ts, bs, q).log, init.log + Sum(|ts|, f) + Sum(|ts|, g), q)
    ensures init.log < q ==> FoldBoth(init, ts, bs, q).log < q
  {
    hide Mod;
    if ts != [] {
      var k := |ts| - 1;
      var p := FoldBoth(init, ts[..k], bs[..k], q);
      FoldBothIs(init, ts[..k], bs[..k], f, g, q);
      CongAdd(p.log, init.log + Sum(k, f) + Sum(k, g), ts[k].log, f(k), q);
      CongMod(p.log + ts[k].log, q);
      CongAdd(Mod(p.log + ts[k].log, q), init.log + Sum(k, f) + Sum(k, g) + f(k), bs[k].log, g(k), q);
      CongMod(Mod(p.log + ts[k].log, q) + bs[k].log, q);
    }
  }

  lemma {:induction false} FoldSubIs(init: Point, us: seq<Point>, f: nat -> int, q: pos)
    requires forall i: nat :: i < |us| ==> Cong(us[i].log, f(i), q)
    ensures Cong(FoldSub(init, us, q).log, init.log - Sum(|us|, f), q)
    ensures init.log < q ==> FoldSub(init, us, q).log < q
  {
    hide Mod;
    if us != [] {
      var k := |us| - 1;
      var p := FoldSub(init, us[..k], q);
      FoldSubIs(init, us[..k], f, q);
      CongAdd(p.log, init.log - Sum(k, f), us[k].log, f(k), q);
      CongMod(p.log - us[k].log, q);
    }
  }

  // The balance of the second decommitments is G exactly when sum(t) + sum(b) = sum(u).
  lemma {:induction false} BalanceIff(d2: seq<Phase5D>, d1: seq<Phase5A>, t: nat -> int, b: nat -> int, u: nat -> int, q: pos)
    requires q > 1 && |d2| == |d1|
    requires forall i: nat :: i < |d2| ==> Cong(d2[i].t.log, t(i), q) && Cong(d1[i].B.log, b(i), q) && Cong(d2[i].u.log, u(i), q)
    ensures GENERATOR == Balance(d2, d1, q) <==> Cong(Sum(|d2|, t) + Sum(|d2|, b), Sum(|d2|, u), q)
  {
    hide Mod, FoldBoth, FoldSub, Sum;
    var n := |d2|;
    var p := FoldBoth(GENERATOR, Ts(d2), Bs(d1), q);
    FoldBothIs(GENERATOR, Ts(d2), Bs(d1), t, b, q);
    FoldSubIs(p, Us(d2), u, q);
    CongAdd(p.log, 1 + Sum(n, t) + Sum(n, b), Sum(n, u), Sum(n, u), q);
    BiasedZero(Balance(d2, d1, q).log, Sum(n, t) + Sum(n, b), Sum(n, u), q);
  }

  lemma {:induction false} BiasedZero(z: nat, e: int, u: int, q: pos)
    requires 1 < q && z < q && Cong(z, 1 + e - u, q)
    ensures z == 1 <==> Cong(e, u, q)
  {
    hide Mod;
    ModSmall(1, q);
    ModSmall(z, q);
    CongAdd(z, 1 + e - u, u - 1, u - 1, q);
    if z == 1 {
      assert Cong(e, u, q);
    } else if Cong(e, u, q) {
      CongAdd(e, u, 1 - u, 1 - u, q);
      assert false;
    }
  }

  // In scalars: the parties' t_i = l_i * (P - rho_i), b_i = l_i * rho_i and u_i = rho_i * T,
  // with P the sum of the rho's and T = (sum s) R + (sum l) - E.
  lemma {:induction false} Phase5Equation(n: nat, l: nat -> int, rho: nat -> int, t: nat -> int, b: nat -> int, u: nat -> int, sR: int, e: int, q: pos)
    requires Prime(q)
    requires forall i: nat :: i < n ==>
      && t(i) == (Sum(n, rho) - rho(i)) * l(i)
      && b(i) == l(i) * rho(i)
      && u(i) == (sR + Sum(n, l) - e) * rho(i)
    ensures Cong(Sum(n, t) + Sum(n, b), Sum(n, u), q) <==> Mod(Sum(n, rho), q) == 0 || Cong(sR, e, q)
  {
    var P, L := Sum(n, rho), Sum(n, l);
    var T := sR + L - e;
    var z: nat -> int := (i: nat) => l(i) * P;
    forall i: nat | i < n ensures t(i) == z(i) + (-1) * b(i) && z(i) == P * l(i) && u(i) == T * rho(i) {
      Distribute(P, rho(i), l(i));
    }
    SumLinear(n, z, -1, b, t);
    SumScale(n, P, l, z);
    SumScale(n, T, rho, u);
    // P*L against T*P
    CongDifference(T * P, P * L, q);
    Distribute(sR - e, L, P);
    assert T == (sR - e) + L;
    ProductZero(sR - e, P, q);
    CongDifference(sR, e, q);
  }

  // --- a session of several signers -----------------------------------------------------

  // Party p's total of the pairwise conversions.
  lemma {:induction false} Phase2Value(n: nat, p: nat, k: nat -> int, g: nat -> int, b: (nat, nat) -> int, kp: nat, gp: nat, alphas: seq<nat>, betas: seq<nat>, q: pos)
    requires p < n && |alphas| == n - 1 && |betas| == n - 1 && kp == k(p) && gp == g(p)
    requires forall c: nat :: c < n - 1 ==>
      && Cong(alphas[c], k(p) * g(Peer(p, c)) + b(Peer(p, c), p), q)
      && Cong(betas[c], 0 - b(p, Peer(p, c)), q)
    ensures Phase2(kp, gp, alphas, betas, q).Some? && Phase2(kp, gp, alphas, betas, q).value < q
    ensures Cong(Phase2(kp, gp, alphas, betas, q).value, PartyTotal(n, k, g, b)(p), q)
  {
    hide Mod, Cong, Converted, FoldAdd, Sum;
    var f := Skip(p, Converted(k, g, b, p));
    var v := PairSums(alphas, betas, q);
    forall c: nat | c < n - 1 ensures Cong(v[c], f(c), q) {
      ConvertedShare(k, g, b, p, Peer(p, c), alphas[c], betas[c], q);
    }
    var z := kp * gp;
    FoldFrom(z, v, f, q);
    assert PartyTotal(n, k, g, b)(p) == z + Sum(n - 1, f);
  }

  lemma {:induction false} FoldFrom(z: nat, v: seq<nat>, f: nat -> int, q: pos)
    requires forall i: nat :: i < |v| ==> Cong(v[i], f(i), q)
    ensures Cong(FoldAdd(Mod(z, q), v, q), z + Sum(|v|, f), q)
    ensures FoldAdd(Mod(z, q), v, q) < q
  {
    hide Mod;
    FoldAddIsSum(Mod(z, q), v, f, q);
    CongMod(z, q);
    CongAdd(Mod(z, q), z, Sum(|v|, f), Sum(|v|, f), q);
  }

  lemma {:induction false} ConvertedShare(k: nat -> int, g: nat -> int, b: (nat, nat) -> int, p: nat, j: nat, alpha: nat, beta: nat, q: pos)
    requires Cong(alpha, k(p) * g(j) + b(j, p), q) && Cong(beta, 0 - b(p, j), q)
    ensures Cong(Mod(alpha + beta, q), Converted(k, g, b, p)(j), q)
  {
    hide Mod;
    CongAdd(alpha, k(p) * g(j) + b(j, p), beta, 0 - b(p, j), q);
    CongMod(alpha + beta, q);
  }

  // Party p's nonce point: the others' points from phase 4 plus its own, all scaled.
  lemma {:induction false} NonceIs(n: nat, p: nat, gamma: nat -> int, others: seq<Point>, own: Point, deltaInv: nat, q: pos)
    requires p < n && others != [] && |others| == n - 1 && own.log < q && Cong(own.log, gamma(p), q)
    requires forall c: nat :: c < n - 1 ==> others[c].log < q && Cong(others[c].log, gamma(Peer(p, c)), q)
    ensures SumPoints(others, q).Some?
    ensures AddPoints(MulPoint(SumPoints(others, q).value, deltaInv, q), MulPoint(own, deltaInv, q), q)
         == Point(Mod(Sum(n, gamma) * deltaInv, q))
  {
    var f := Skip(p, gamma);
    SumPointsIsSum(others, f, q);
    SumPeers(n, p, gamma);
    CongMod(Sum(n - 1, f), q);
    ScaledSum(SumPoints(others, q).value, own, Sum(n - 1, f), gamma(p), deltaInv, q);
  }

  lemma {:induction false} ScaledSum(a: Point, b: Point, e: int, f: int, d: nat, q: pos)
    requires Cong(a.log, e, q) && Cong(b.log, f, q)
    ensures AddPoints(MulPoint(a, d, q), MulPoint(b, d, q), q) == Point(Mod((e + f) * d, q))
  {
    hide Mod;
    MulLog(a, d, e, q);
    MulLog(b, d, f, q);
    CongAdd(MulPoint(a, d, q).log, e * d, MulPoint(b, d, q).log, f * d, q);
    Distribute(e, f, d);
  }

  // The inverse of delta = k * gamma turns gamma G into k^-1 G.
  lemma {:induction false} NonceInverts(k: int, gamma: int, delta: nat, R: nat, q: pos)
    requires Prime(q) && Mod(delta, q) != 0 && Cong(delta, k * gamma, q)
    requires R == Mod(gamma * Inv(delta, q), q)
    ensures Cong(R * k, 1, q)
  {
    hide Mod;
    var d := Inv(delta, q);
    InverseCorrect(delta, q);
    CongMul(delta, k * gamma, d, d, q);
    CongMod(gamma * d, q);
    CongScale(k, R, gamma * d, q);
    Associate(k, gamma, d);
  }

  // The signature shares add up to k(m + r x).
  lemma {:induction false} SharesAddUp(n: nat, k: nat -> int, sigma: nat -> int, s: nat -> int, m: nat, r: nat, x: int, q: pos)
    requires forall i: nat :: i < n ==> Cong(s(i), m * k(i) + r * sigma(i), q)
    requires Cong(Sum(n, sigma), Sum(n, k) * x, q)
    ensures Cong(Sum(n, s), Sum(n, k) * (m + r * x), q)
  {
    hide Mod;
    var z: nat -> int := (i: nat) => m * k(i);
    var e: nat -> int := (i: nat) => z(i) + r * sigma(i);
    SumCong(n, s, e, q);
    SumScale(n, m, k, z);
    SumLinear(n, z, r, sigma, e);
    CongScale(r, Sum(n, sigma), Sum(n, k) * x, q);
    CongAdd(m * Sum(n, k), m * Sum(n, k), r * Sum(n, sigma), r * (Sum(n, k) * x), q);
    Associate(r, Sum(n, k), x);
    Distribute(m, r * x, Sum(n, k));
  }

  lemma {:induction false} SignatureShareIs(k: nat, m: nat, r: nat, sigma: nat, q: pos)
    ensures Cong(Mod(Mod(Mod(m, q) * k, q) + Mod(r * sigma, q), q), m * k + r * sigma, q)
  {
    hide Mod;
    CongMod(m, q);
    CongMul(Mod(m, q), m, k, k, q);
    CongMod(Mod(m, q) * k, q);
    CongMod(r * sigma, q);
    CongAdd(Mod(Mod(m, q) * k, q), m * k, Mod(r * sigma, q), r * sigma, q);
    CongMod(Mod(Mod(m, q) * k, q) + Mod(r * sigma, q), q);
  }

  // --- phase 5 across the session -------------------------------------------------------

  datatype Signer = Signer(sig: LocalSignature, blindA: nat, blindD: nat)

  // Signers that agree on R, the message and the public key, with arbitrary shares.
  ghost predicate SameSession(v: seq<Signer>, R: Point, m: nat, y: Point) {
    forall i :: 0 <= i < |v| ==> v[i].sig.R == R && v[i].sig.m == m && v[i].sig.y == y
  }

  function AOf(v: seq<Signer>, q: pos): nat -> Phase5A {
    (i: nat) => if i < |v| then MakePhase5A(v[i].sig, v[i].blindA, q) else Phase5A(Point(0), Point(0), Point(0), 0)
  }

  function ComAOf(v: seq<Signer>, q: pos): nat -> Commitment<(Point, Point, Point)> {
    (i: nat) => CommitA(AOf(v, q)(i))
  }

  function ProofOf(v: seq<Signer>): nat -> ElGamalProof {
    (i: nat) => if i < |v| then ProvePhase5A(v[i].sig) else ElGamalProof(0, 0)
  }

  // What signer p computes in phase 5C from the others' decommitments.
  function DOf(v: seq<Signer>, xcoor: nat -> nat, q: pos): nat -> Phase5D {
    (p: nat) =>
      if p < |v| then
        match Phase5C(v[p].sig, Polled(|v|, p, AOf(v, q)), Polled(|v|, p, ComAOf(v, q)), Polled(|v|, p, ProofOf(v)),
                      AOf(v, q)(p).V, v[p].sig.R, v[p].blindD, xcoor, q)
        case Some(d) => d
        case None => Phase5D(Point(0), Point(0), 0)
      else Phase5D(Point(0), Point(0), 0)
  }

  function ComDOf(v: seq<Signer>, xcoor: nat -> nat, q: pos): nat -> Commitment<(Point, Point)> {
    (i: nat) => CommitD(DOf(v, xcoor, q)(i))
  }

  function SOf(v: seq<Signer>): nat -> int { (i: nat) => if i < |v| then v[i].sig.s else 0 }
  function LOf(v: seq<Signer>): nat -> int { (i: nat) => if i < |v| then v[i].sig.l else 0 }
  function RhoOf(v: seq<Signer>): nat -> int { (i: nat) => if i < |v| then v[i].sig.rho else 0 }

  lemma {:induction false} ALogs(sig: LocalSignature, blind: nat, R: nat, s: int, l: int, rho: int, q: pos)
    requires sig.R.log == R && sig.s == s && sig.l == l && sig.rho == rho
    ensures Cong(MakePhase5A(sig, blind, q).V.log, l + R * s, q)
    ensures Cong(MakePhase5A(sig, blind, q).A.log, rho, q) && MakePhase5A(sig, blind, q).A.log < q
    ensures Cong(MakePhase5A(sig, blind, q).B.log, l * rho, q)
  {
    hide Mod;
    CongMod(R * s, q);
    CongMod(l, q);
    CongAdd(Mod(R * s, q), R * s, Mod(l, q), l, q);
    CongMod(Mod(R * s, q) + Mod(l, q), q);
    CongMod(rho, q);
    CongMod(l * rho, q);
    CongMod(Mod(l * rho, q), q);
  }

  // The scalars of the i-th signer's points.
  lemma {:induction false} SignerLogs(v: seq<Signer>, i: nat, R: Point, m: nat, y: Point, q: pos)
    requires i < |v| && SameSession(v, R, m, y)
    ensures Cong(AOf(v, q)(i).V.log, VLog(v, R)(i), q)
    ensures Cong(AOf(v, q)(i).A.log, RhoOf(v)(i), q) && AOf(v, q)(i).A.log < q
    ensures Cong(AOf(v, q)(i).B.log, BLog(v)(i), q)
  {
    hide Mod;
    ALogs(v[i].sig, v[i].blindA, R.log, SOf(v)(i), LOf(v)(i), RhoOf(v)(i), q);
  }

  // An honest proof verifies.
  lemma {:induction false} ProofVerifies(sig: LocalSignature, blind: nat, q: pos)
    ensures var d := MakePhase5A(sig, blind, q); VerifyElGamal(ProvePhase5A(sig), d.A, sig.R, d.V, d.B, q)
  {
    hide Mod;
    CongMod(sig.rho, q);
    CongMul(Mod(sig.rho, q), sig.rho, sig.l, sig.l, q);
    CongMod(sig.l * sig.rho, q);
  }

  // The scalars of the three points.
  function VLog(v: seq<Signer>, R: Point): nat -> int { (i: nat) => LOf(v)(i) + R.log * SOf(v)(i) }

  function TLog(v: seq<Signer>): nat -> int { (i: nat) => (Sum(|v|, RhoOf(v)) - RhoOf(v)(i)) * LOf(v)(i) }

  function BLog(v: seq<Signer>): nat -> int { (i: nat) => LOf(v)(i) * RhoOf(v)(i) }

  function ULog(v: seq<Signer>, sR: int, e: int): nat -> int { (i: nat) => (sR + Sum(|v|, LOf(v)) - e) * RhoOf(v)(i) }

  // Folding the others' points onto the own one sums over everybody.
  lemma {:induction false} FoldOthers(n: nat, p: nat, own: Point, others: seq<Point>, f: nat -> int, q: pos)
    requires p < n && |others| == n - 1 && Cong(own.log, f(p), q)
    requires forall c: nat :: c < n - 1 ==> Cong(others[c].log, f(Peer(p, c)), q)
    ensures Cong(FoldPoints(own, others, q).log, Sum(n, f), q)
  {
    hide Mod;
    FoldAddIsSum(own.log, Logs(others), Skip(p, f), q);
    SumPeers(n, p, f);
    CongAdd(own.log, f(p), Sum(n - 1, Skip(p, f)), Sum(n - 1, Skip(p, f)), q);
  }

  // V summed over all signers, as signer p folds it.
  lemma {:induction false} FoldedV(v: seq<Signer>, p: nat, R: Point, m: nat, y: Point, q: pos)
    requires p < |v| && SameSession(v, R, m, y)
    ensures Cong(FoldPoints(AOf(v, q)(p).V, Vs(Polled(|v|, p, AOf(v, q))), q).log, R.log * Sum(|v|, SOf(v)) + Sum(|v|, LOf(v)), q)
  {
    hide Mod;
    var vs := Vs(Polled(|v|, p, AOf(v, q)));
    forall i: nat | i < |v| ensures Cong(AOf(v, q)(i).V.log, VLog(v, R)(i), q) {
      SignerLogs(v, i, R, m, y, q);
    }
    assert forall c: nat :: c < |v| - 1 ==> vs[c] == AOf(v, q)(Peer(p, c)).V;
    FoldOthers(|v|, p, AOf(v, q)(p).V, vs, VLog(v, R), q);
    SumLinear(|v|, LOf(v), R.log, SOf(v), VLog(v, R));
  }

  lemma {:induction false} SummedA(v: seq<Signer>, p: nat, R: Point, m: nat, y: Point, q: pos)
    requires p < |v| && |v| > 1 && SameSession(v, R, m, y)
    ensures var as_ := As(Polled(|v|, p, AOf(v, q)));
      SumPoints(as_, q).Some? && Cong(SumPoints(as_, q).value.log, Sum(|v|, RhoOf(v)) - RhoOf(v)(p), q)
  {
    hide Mod;
    var n := |v|;
    var as_ := As(Polled(|v|, p, AOf(v, q)));
    forall c: nat | c < n - 1 ensures as_[c].log < q && Cong(as_[c].log, Skip(p, RhoOf(v))(c), q) {
      SignerLogs(v, Peer(p, c), R, m, y, q);
    }
    SumPointsIsSum(as_, Skip(p, RhoOf(v)), q);
    SumPeers(n, p, RhoOf(v));
    CongMod(Sum(n - 1, Skip(p, RhoOf(v))), q);
  }

  // The others' commitments open and their proofs verify.
  lemma {:induction false} DecommitsCheck(v: seq<Signer>, p: nat, i: nat, R: Point, m: nat, y: Point, q: pos)
    requires p < |v| && i < |v| - 1 && SameSession(v, R, m, y)
    ensures var d := Polled(|v|, p, AOf(v, q))[i];
      && Polled(|v|, p, ComAOf(v, q))[i] == CommitA(d)
      && VerifyElGamal(Polled(|v|, p, ProofOf(v))[i], d.A, R, d.V, d.B, q)
  {
    var j := Peer(p, i);
    ProofVerifies(v[j].sig, v[j].blindA, q);
  }

  // Phase 5C succeeds for every signer ...
  lemma {:induction false} Phase5CSucceeds(v: seq<Signer>, p: nat, R: Point, m: nat, y: Point, r: nat, xcoor: nat -> nat, q: pos)
    requires p < |v| && |v| > 1 && SameSession(v, R, m, y) && RCoordinate(R, xcoor, q) == Some(r)
    ensures Phase5C(v[p].sig, Polled(|v|, p, AOf(v, q)), Polled(|v|, p, ComAOf(v, q)), Polled(|v|, p, ProofOf(v)),
                    AOf(v, q)(p).V, R, v[p].blindD, xcoor, q) == Some(DOf(v, xcoor, q)(p))
    ensures SumPoints(As(Polled(|v|, p, AOf(v, q))), q).Some?
    ensures DOf(v, xcoor, q)(p).u
         == MulPoint(SubPoints(SubPoints(FoldPoints(AOf(v, q)(p).V, Vs(Polled(|v|, p, AOf(v, q))), q), MulPoint(GENERATOR, Mod(m, q), q), q), MulPoint(y, r, q), q), v[p].sig.rho, q)
    ensures DOf(v, xcoor, q)(p).t == MulPoint(SumPoints(As(Polled(|v|, p, AOf(v, q))), q).value, v[p].sig.l, q)
  {
    hide Mod;
    forall i: nat | i < |v| - 1
      ensures Polled(|v|, p, ComAOf(v, q))[i] == CommitA(Polled(|v|, p, AOf(v, q))[i])
      ensures var d := Polled(|v|, p, AOf(v, q))[i]; VerifyElGamal(Polled(|v|, p, ProofOf(v))[i], d.A, R, d.V, d.B, q)
    {
      DecommitsCheck(v, p, i, R, m, y, q);
    }
    SummedA(v, p, R, m, y, q);
  }

  // ... with the logarithms that the equation needs.
  lemma {:induction false} Phase5CLogs(v: seq<Signer>, p: nat, R: Point, m: nat, y: Point, r: nat, sR: int, e: int, xcoor: nat -> nat, q: pos)
    requires p < |v| && |v| > 1 && SameSession(v, R, m, y) && RCoordinate(R, xcoor, q) == Some(r)
    requires sR == R.log * Sum(|v|, SOf(v)) && e == m + r * y.log
    ensures Cong(DOf(v, xcoor, q)(p).u.log, ULog(v, sR, e)(p), q)
    ensures Cong(DOf(v, xcoor, q)(p).t.log, TLog(v)(p), q)
  {
    hide Mod, Cong, AOf, DOf, Vs, As, Polled, FoldPoints, SumPoints, MulPoint, SubPoints, SameSession, RCoordinate;
    Phase5CSucceeds(v, p, R, m, y, r, xcoor, q);
    FoldedV(v, p, R, m, y, q);
    SummedA(v, p, R, m, y, q);
    UnbiasedV(FoldPoints(AOf(v, q)(p).V, Vs(Polled(|v|, p, AOf(v, q))), q), sR + Sum(|v|, LOf(v)), m, r, y, e, v[p].sig.rho, q);
    MulLog(SumPoints(As(Polled(|v|, p, AOf(v, q))), q).value, v[p].sig.l, Sum(|v|, RhoOf(v)) - RhoOf(v)(p), q);
  }

  // Subtracting mG and rY and scaling by rho.
  lemma {:induction false} UnbiasedV(V: Point, f: int, m: nat, r: nat, y: Point, e: int, rho: nat, q: pos)
    requires Cong(V.log, f, q) && e == m + r * y.log
    ensures Cong(MulPoint(SubPoints(SubPoints(V, MulPoint(GENERATOR, Mod(m, q), q), q), MulPoint(y, r, q), q), rho, q).log,
                 (f - e) * rho, q)
  {
    hide Mod;
    CongMod(m, q);
    CongMod(Mod(m, q), q);
    var g, z := MulPoint(GENERATOR, Mod(m, q), q), MulPoint(y, r, q);
    MulLog(y, r, y.log, q);
    SubLog(V, g, f, m, q);
    SubLog(SubPoints(V, g, q), z, f - m, y.log * r, q);
    MulLog(SubPoints(SubPoints(V, g, q), z, q), rho, f - e, q);
  }

  // The phase 5D test passes for arbitrary shares exactly when the rho's cancel or the
  // shares sign the message: (sum s) R = mG + rY.
  lemma {:induction false} Phase5Exact(v: seq<Signer>, p: nat, R: Point, m: nat, y: Point, r: nat, xcoor: nat -> nat, q: pos)
    requires Prime(q) && p < |v| && |v| > 1 && SameSession(v, R, m, y) && RCoordinate(R, xcoor, q) == Some(r)
    ensures CheckPhase5D(v[p].sig, Tabulate(|v|, DOf(v, xcoor, q)), Tabulate(|v|, ComDOf(v, xcoor, q)), Tabulate(|v|, AOf(v, q)), q)
         == if Mod(Sum(|v|, RhoOf(v)), q) == 0 || Cong(R.log * Sum(|v|, SOf(v)), m + r * y.log, q)
            then Some(v[p].sig.s) else None
  {
    hide Mod, Balance, MakePhase5A, Phase5C, RCoordinate;
    var e, sR := m + r * y.log, R.log * Sum(|v|, SOf(v));
    SessionBalance(v, R, m, y, r, sR, e, xcoor, q);
    SessionEquation(v, sR, e, q);
  }

  lemma {:induction false} SessionEquation(v: seq<Signer>, sR: int, e: int, q: pos)
    requires Prime(q)
    ensures Cong(Sum(|v|, TLog(v)) + Sum(|v|, BLog(v)), Sum(|v|, ULog(v, sR, e)), q)
      <==> Mod(Sum(|v|, RhoOf(v)), q) == 0 || Cong(sR, e, q)
  {
    hide Mod;
    Phase5Equation(|v|, LOf(v), RhoOf(v), TLog(v), BLog(v), ULog(v, sR, e), sR, e, q);
  }

  lemma {:induction false} SessionBalance(v: seq<Signer>, R: Point, m: nat, y: Point, r: nat, sR: int, e: int, xcoor: nat -> nat, q: pos)
    requires q > 1 && |v| > 1 && SameSession(v, R, m, y) && RCoordinate(R, xcoor, q) == Some(r)
    requires sR == R.log * Sum(|v|, SOf(v)) && e == m + r * y.log
    ensures GENERATOR == Balance(Tabulate(|v|, DOf(v, xcoor, q)), Tabulate(|v|, AOf(v, q)), q)
      <==> Cong(Sum(|v|, TLog(v)) + Sum(|v|, BLog(v)), Sum(|v|, ULog(v, sR, e)), q)
  {
    hide *;
    var d2, d1 := Tabulate(|v|, DOf(v, xcoor, q)), Tabulate(|v|, AOf(v, q));
    forall i: nat | i < |v| ensures Cong(d2[i].t.log, TLog(v)(i), q) && Cong(d1[i].B.log, BLog(v)(i), q) && Cong(d2[i].u.log, ULog(v, sR, e)(i), q) {
      Phase5CLogs(v, i, R, m, y, r, sR, e, xcoor, q);
      SignerLogs(v, i, R, m, y, q);
    }
    BalanceIff(d2, d1, TLog(v), BLog(v), ULog(v, sR, e), q);
  }
}
