// Distributed key generation: the phases of `Keys`, the five-round schedule as a protocol
// over the board, and what an accepted run establishes.
module KeyGen {
  import opened Results
  import opened Zq
  import opened Sums
  import opened Vss
  import opened Feldman
  import opened Mta
  import opened Rounds

  datatype Params = Params(threshold: nat, shareCount: nat)

  datatype CorrectKeyProof = CorrectKeyProof(key: EncryptionKey)

  datatype Broadcast1 = Broadcast1(e: EncryptionKey, com: Commitment<Point>, correctKey: CorrectKeyProof)

  datatype Decommit1 = Decommit1(blind: nat, y: Point)

  datatype SharedKeys = SharedKeys(y: Point, x: nat)

  predicate Opens(d: Decommit1, b: Broadcast1) {
    Commitment(d.y, d.blind) == b.com && b.correctKey.key == b.e
  }

  // Check everybody's commitment and Paillier key, then deal the own secret.
  function Phase1Verify(params: Params, decoms: seq<Decommit1>, bcs: seq<Broadcast1>, poly: seq<nat>, q: pos): Option<(VerifiableSS, seq<nat>)> {
    if |decoms| != params.shareCount || |bcs| != params.shareCount then None
    else
      var sharing :- Share(params.threshold, params.shareCount, poly, q);
      if forall i :: 0 <= i < |bcs| ==> Opens(decoms[i], bcs[i]) then Some(sharing) else None
  }

  // Check the received shares against the dealers' commitments and combine them.
  function Phase2VerifyVss(params: Params, ys: seq<Point>, shares: seq<nat>, schemes: seq<VerifiableSS>, index: nat, q: pos): Option<(SharedKeys, DLogProof)> {
    if |ys| != params.shareCount || |shares| != params.shareCount || |schemes| != params.shareCount then None
    else if forall i :: 0 <= i < |ys| ==> ValidShare(schemes[i].commitments, shares[i], index, q) && schemes[i].commitments[0] == ys[i]
    then
      var y :- SumPoints(ys, q);
      var x := FoldAdd(0, shares, q);
      Some((SharedKeys(y, x), ProveDLog(x, q)))
    else None
  }

  // x_i G for the party with the given index, from the public commitments.
  function CommitmentToXi(schemes: seq<VerifiableSS>, index: nat, q: pos): Option<Point> {
    if exists j :: 0 <= j < |schemes| && schemes[j].commitments == [] then None
    else SumPoints(seq(|schemes|, j requires 0 <= j < |schemes| =>
      match PointCommitment(schemes[j].commitments, index, q) case Some(p) => p case None => Point(0)), q)
  }

  function GetCommitmentsToXi(schemes: seq<VerifiableSS>, q: pos): (v: Option<seq<Point>>)
    ensures v.Some? ==> |v.value| == |schemes| && forall i: nat :: 1 <= i <= |schemes| ==> CommitmentToXi(schemes, i, q) == Some(v.value[i - 1])
  {
    if forall i: nat :: 1 <= i <= |schemes| ==> CommitmentToXi(schemes, i, q).Some?
    then Some(seq(|schemes|, i requires 0 <= i < |schemes| =>
      match CommitmentToXi(schemes, i + 1, q) case Some(p) => p case None => Point(0)))
    else None
  }

  function UpdateCommitmentsToXi(com: Point, index: nat, s: seq<nat>, q: pos): Point {
    MulPoint(com, MapShareToNewParams(index, s, q), q)
  }

  function VerifyDLogProofs(params: Params, proofs: seq<DLogProof>, ys: seq<Point>, q: pos): Option<()> {
    Check(|ys| == params.shareCount && |proofs| == params.shareCount && forall i :: 0 <= i < |proofs| ==> VerifyDLog(proofs[i], q))
  }

  // === what acceptance means ============================================================

  ghost predicate SchemesFor(schemes: seq<VerifiableSS>, t: nat, q: pos) {
    forall j :: 0 <= j < |schemes| ==>
      |schemes[j].commitments| == t + 1 && forall c :: 0 <= c < t + 1 ==> schemes[j].commitments[c].log < q
  }

  // The polynomials committed to, and their sum.
  function Committed(schemes: seq<VerifiableSS>): (d: seq<seq<nat>>)
    ensures |d| == |schemes| && forall j :: 0 <= j < |d| ==> d[j] == Logs(schemes[j].commitments)
  {
    seq(|schemes|, j requires 0 <= j < |schemes| => Logs(schemes[j].commitments))
  }

  function Joint(schemes: seq<VerifiableSS>, t: nat, q: pos): (h: seq<nat>)
    requires SchemesFor(schemes, t, q)
    ensures |h| == t + 1
  {
    JointPoly(|schemes|, Committed(schemes), t, q)
  }

  // Whatever shares it received, a party that accepts holds the value at its index of the
  // polynomial all parties committed to, and the public key of that polynomial.
  lemma {:induction false} AcceptedKeyIsOnJointPolynomial(params: Params, ys: seq<Point>, shares: seq<nat>, schemes: seq<VerifiableSS>, index: nat, t: nat, q: pos)
    requires SchemesFor(schemes, t, q)
    requires Phase2VerifyVss(params, ys, shares, schemes, index, q).Some?
    ensures var (keys, proof) := Phase2VerifyVss(params, ys, shares, schemes, index, q).value;
      && keys.y == MulPoint(GENERATOR, Joint(schemes, t, q)[0], q)
      && keys.x == ShareFor(Joint(schemes, t, q), index, q)
      && proof.pk == MulPoint(GENERATOR, keys.x, q)
  {
    var dealt, n := Committed(schemes), |schemes|;
    forall j: nat | j < n ensures Cong(shares[j], ValueAt(dealt, index)(j), q) && ys[j].log < q && ys[j].log == SecretOf(dealt)(j) {
      ValidShareIff(schemes[j].commitments, shares[j], index, q);
    }
    FoldAddIsSum(0, shares, ValueAt(dealt, index), q);
    JointPolyEvaluates(n, dealt, t, index, q);
    ModSmall(FoldAdd(0, shares, q), q);
    SumPointsIsSum(ys, SecretOf(dealt), q);
    JointPolyConstant(n, dealt, t, q);
  }

  // The public commitments give every party's x_i G ...
  lemma {:induction false} CommitmentToXiIs(schemes: seq<VerifiableSS>, index: nat, t: nat, q: pos)
    requires SchemesFor(schemes, t, q) && schemes != []
    ensures CommitmentToXi(schemes, index, q) == Some(MulPoint(GENERATOR, ShareFor(Joint(schemes, t, q), index, q), q))
  {
    hide Mod;
    var dealt, n := Committed(schemes), |schemes|;
    var v := seq(|schemes|, j requires 0 <= j < |schemes| =>
      match PointCommitment(schemes[j].commitments, index, q) case Some(p) => p case None => Point(0));
    forall j: nat | j < n ensures v[j].log < q && Cong(v[j].log, ValueAt(dealt, index)(j), q) {
      PointCommitmentEvaluates(schemes[j].commitments, index, q);
      PointCommitmentReduced(schemes[j].commitments, index, q);
    }
    SumPointsIsSum(v, ValueAt(dealt, index), q);
    JointPolyEvaluates(n, dealt, t, index, q);
    CongMod(Eval(Joint(schemes, t, q), index), q);
  }

  // ... as one vector, entry i - 1 for the party with number i.
  lemma {:induction false} CommitmentsToXiAre(schemes: seq<VerifiableSS>, t: nat, q: pos)
    requires SchemesFor(schemes, t, q) && schemes != []
    ensures GetCommitmentsToXi(schemes, q).Some?
    ensures forall i: nat :: 1 <= i <= |schemes| ==>
      GetCommitmentsToXi(schemes, q).value[i - 1] == MulPoint(GENERATOR, ShareFor(Joint(schemes, t, q), i, q), q)
  {
    hide Mod, CommitmentToXi, ShareFor;
    forall i: nat | 1 <= i <= |schemes|
      ensures CommitmentToXi(schemes, i, q) == Some(MulPoint(GENERATOR, ShareFor(Joint(schemes, t, q), i, q), q))
    {
      CommitmentToXiIs(schemes, i, t, q);
    }
  }

  lemma {:induction false} PointCommitmentReduced(c: seq<Point>, index: nat, q: pos)
    requires c != [] && forall i :: 0 <= i < |c| ==> c[i].log < q
    ensures PointCommitment(c, index, q).Some? && PointCommitment(c, index, q).value.log < q
  {
    PointCommitmentEvaluates(c, index, q);
  }

  lemma {:induction false} ScaledGenerator(x: nat, l: nat, q: pos)
    ensures MulPoint(MulPoint(GENERATOR, x, q), l, q) == MulPoint(GENERATOR, Mod(l * x, q), q)
  {
    hide Mod;
    assert GENERATOR.log == 1 && 1 * x == x && 1 * Mod(l * x, q) == Mod(l * x, q);
    CongMod(x, q);
    CongMul(Mod(x, q), x, l, l, q);
    CongMod(l * x, q);
    assert x * l == l * x;
  }

  // ... and scaling them for a set of signers gives the point of the re-mapped share.
  lemma {:induction false} UpdatedCommitmentIs(x: nat, index: nat, s: seq<nat>, q: pos)
    ensures UpdateCommitmentsToXi(MulPoint(GENERATOR, x, q), index, s, q)
         == MulPoint(GENERATOR, Mod(MapShareToNewParams(index, s, q) * x, q), q)
  {
    hide Mod, MapShareToNewParams;
    var l := MapShareToNewParams(index, s, q);
    ScaledGenerator(x, l, q);
  }

  // === the five rounds ==================================================================

  // AEAD under the key that two parties derive from the sum of their public points.
  datatype Sealed = Sealed(key: nat, plain: nat)

  datatype Msg =
    | Round1(bc: Broadcast1)
    | Round2(decom: Decommit1)
    | Round3(sealed: Sealed)
    | Round4(scheme: VerifiableSS)
    | Round5(proof: DLogProof)

  // The parties' inputs and random choices; polys[p][0] is u_p.
  datatype Dealing = Dealing(q: pos, xcoor: nat -> nat, n: nat, t: nat, polys: seq<seq<nat>>, blinds: seq<nat>, eks: seq<EncryptionKey>)

  ghost predicate WellFormed(g: Dealing) {
    && Prime(g.q) && 0 < g.n
    && |g.polys| == g.n && |g.blinds| == g.n && |g.eks| == g.n
    && forall j :: 0 <= j < g.n ==> |g.polys[j]| == g.t + 1 && forall c :: 0 <= c < g.t + 1 ==> g.polys[j][c] < g.q
  }

  predicate Sized(g: Dealing) {
    |g.polys| == g.n && |g.blinds| == g.n && |g.eks| == g.n && forall j :: 0 <= j < g.n ==> g.polys[j] != []
  }

  function ParamsOf(g: Dealing): Params { Params(g.t, g.n) }

  function PublicPoint(g: Dealing, p: nat): Point
    requires Sized(g) && p < g.n
  {
    MulPoint(GENERATOR, g.polys[p][0], g.q)
  }

  function MakeBroadcast1(g: Dealing, p: nat): Broadcast1
    requires Sized(g) && p < g.n
  {
    Broadcast1(g.eks[p], Commitment(PublicPoint(g, p), g.blinds[p]), CorrectKeyProof(g.eks[p]))
  }

  function MakeDecommit1(g: Dealing, p: nat): Decommit1
    requires Sized(g) && p < g.n
  {
    Decommit1(g.blinds[p], PublicPoint(g, p))
  }

  predicate OfRound(m: Msg, r: nat) {
    match r
    case 0 => m.Round1?
    case 1 => m.Round2?
    case 2 => m.Round3?
    case 3 => m.Round4?
    case _ => m.Round5?
  }

  // Every message received in round r has the type that round expects.
  predicate Typed(g: Dealing, h: seq<seq<Msg>>) {
    forall r: nat :: r < |h| ==> |h[r]| == g.n - 1 && forall k :: 0 <= k < g.n - 1 ==> OfRound(h[r][k], r)
  }

  function Broadcasts(g: Dealing, p: nat, h: seq<seq<Msg>>): seq<Broadcast1>
    requires Sized(g) && p < g.n && Typed(g, h) && |h| > 0
  {
    InsertAt(seq(g.n - 1, k requires 0 <= k < g.n - 1 => h[0][k].bc), p, MakeBroadcast1(g, p))
  }

  function Decommits(g: Dealing, p: nat, h: seq<seq<Msg>>): (v: seq<Decommit1>)
    requires Sized(g) && p < g.n && Typed(g, h) && |h| > 1
    ensures |v| == g.n
  {
    InsertAt(seq(g.n - 1, k requires 0 <= k < g.n - 1 => h[1][k].decom), p, MakeDecommit1(g, p))
  }

  function Ys(g: Dealing, p: nat, h: seq<seq<Msg>>): (v: seq<Point>)
    requires Sized(g) && p < g.n && Typed(g, h) && |h| > 1
    ensures |v| == g.n
  {
    seq(g.n, i requires 0 <= i < g.n => Decommits(g, p, h)[i].y)
  }

  function ChannelKey(g: Dealing, a: Point, b: Point): Option<nat> {
    XCoordinate(AddPoints(a, b, g.q), g.xcoor)
  }

  // After round 2: all channel keys exist, all commitments open, and the secret is dealt.
  function Dealt(g: Dealing, p: nat, h: seq<seq<Msg>>): Option<(VerifiableSS, seq<nat>)>
    requires Sized(g) && p < g.n && Typed(g, h) && |h| > 1
  {
    var ys := Ys(g, p, h);
    if exists k: nat :: k < g.n - 1 && ChannelKey(g, PublicPoint(g, p), ys[Peer(p, k)]).None? then None
    else Phase1Verify(ParamsOf(g), Decommits(g, p, h), Broadcasts(g, p, h), g.polys[p], g.q)
  }

  // After round 3: the shares received, opened with the channel keys.
  predicate CanOpen(g: Dealing, p: nat, h: seq<seq<Msg>>)
    requires Sized(g) && p < g.n && Typed(g, h) && |h| > 2
  {
    var ys := Ys(g, p, h);
    forall k: nat :: k < g.n - 1 ==> ChannelKey(g, PublicPoint(g, p), ys[Peer(p, k)]) == Some(h[2][k].sealed.key)
  }

  function Opened(g: Dealing, h: seq<seq<Msg>>): (v: seq<nat>)
    requires g.n > 0 && Typed(g, h) && |h| > 2
    ensures |v| == g.n - 1
  {
    seq(g.n - 1, k requires 0 <= k < g.n - 1 => Mod(h[2][k].sealed.plain, g.q))
  }

  function Shares(g: Dealing, p: nat, h: seq<seq<Msg>>): Option<seq<nat>>
    requires Sized(g) && p < g.n && Typed(g, h) && |h| > 2
  {
    var dealt :- Dealt(g, p, h);
    if CanOpen(g, p, h) && |dealt.1| == g.n then Some(InsertAt(Opened(g, h), p, dealt.1[p])) else None
  }

  // After round 4: all schemes.
  function Schemes(g: Dealing, p: nat, h: seq<seq<Msg>>): Option<seq<VerifiableSS>>
    requires Sized(g) && p < g.n && Typed(g, h) && |h| > 3
  {
    var (scheme, own) :- Dealt(g, p, h);
    Some(InsertAt(seq(g.n - 1, k requires 0 <= k < g.n - 1 => h[3][k].scheme), p, scheme))
  }

  function Accept(g: Dealing, p: nat, h: seq<seq<Msg>>): Option<(SharedKeys, DLogProof)>
    requires Sized(g) && p < g.n && Typed(g, h) && |h| > 3
  {
    var shares :- Shares(g, p, h);
    var schemes :- Schemes(g, p, h);
    Phase2VerifyVss(ParamsOf(g), Ys(g, p, h), shares, schemes, p + 1, g.q)
  }

  function Post(g: Dealing, p: nat, r: nat, d: nat, h: seq<seq<Msg>>): Option<Msg> {
    if !Sized(g) || p >= g.n || d >= g.n || |h| != r || !Typed(g, h) then None
    else match r
      case 0 => Some(Round1(MakeBroadcast1(g, p)))
      case 1 => Some(Round2(MakeDecommit1(g, p)))
      case 2 =>
        var (scheme, own) :- Dealt(g, p, h);
        var key :- ChannelKey(g, PublicPoint(g, p), Ys(g, p, h)[d]);
        assert |own| == g.n;
        Some(Round3(Sealed(key, own[d])))
      case 3 =>
        var shares :- Shares(g, p, h);
        var (scheme, own) :- Dealt(g, p, h);
        Some(Round4(scheme))
      case 4 =>
        var (keys, proof) :- Accept(g, p, h);
        Some(Round5(proof))
      case _ => None
  }

  // After round 5: all proofs.
  function Proofs(g: Dealing, p: nat, h: seq<seq<Msg>>, own: DLogProof): seq<DLogProof>
    requires Sized(g) && p < g.n && Typed(g, h) && |h| > 4
  {
    InsertAt(seq(g.n - 1, k requires 0 <= k < g.n - 1 => h[4][k].proof), p, own)
  }

  function Keys(bcs: seq<Broadcast1>): (v: seq<EncryptionKey>)
    ensures |v| == |bcs|
  {
    seq(|bcs|, i requires 0 <= i < |bcs| => bcs[i].e)
  }

  // What a party saves at the end.
  datatype KeyFile = KeyFile(keys: SharedKeys, partyId: nat, schemes: seq<VerifiableSS>, paillier: seq<EncryptionKey>, ySum: Point)

  function Output(g: Dealing, p: nat, h: seq<seq<Msg>>): Option<KeyFile> {
    if !Sized(g) || p >= g.n || |h| != 5 || !Typed(g, h) then None
    else
      var accepted :- Accept(g, p, h);
      var schemes :- Schemes(g, p, h);
      var ySum :- SumPoints(Ys(g, p, h), g.q);
      if VerifyDLogProofs(ParamsOf(g), Proofs(g, p, h, accepted.1), Ys(g, p, h), g.q).None? then None
      else Some(KeyFile(accepted.0, p + 1, schemes, Keys(Broadcasts(g, p, h)), ySum))
  }

  function TheProtocol(g: Dealing): Protocol<Msg> {
    Protocol(g.n, 5, (r: nat) => r == 2, (p: nat, r: nat, d: nat, h: seq<seq<Msg>>) => Post(g, p, r, d, h))
  }

  // === the honest run ===================================================================

  function SchemeOf(g: Dealing): nat -> VerifiableSS {
    (p: nat) => VerifiableSS(g.t, g.n, if p < |g.polys| then Commit(g.polys[p], g.q) else [])
  }

  function ShareOf(g: Dealing, i: nat): nat -> nat {
    (p: nat) => if p < |g.polys| then ShareFor(g.polys[p], i + 1, g.q) else 0
  }

  function SecretShare(g: Dealing, p: nat): nat {
    FoldAdd(0, Tabulate(g.n, ShareOf(g, p)), g.q)
  }

  function ChannelKeyOr0(g: Dealing, p: nat, d: nat): nat
    requires Sized(g) && p < g.n && d < g.n
  {
    match ChannelKey(g, PublicPoint(g, p), PublicPoint(g, d)) case Some(k) => k case None => 0
  }

  // The message an honest party sends.
  function HonestMsg(g: Dealing, p: nat, r: nat, d: nat): Msg
    requires Sized(g) && p < g.n && d < g.n
  {
    if r == 0 then Round1(MakeBroadcast1(g, p))
    else if r == 1 then Round2(MakeDecommit1(g, p))
    else if r == 2 then Round3(Sealed(ChannelKeyOr0(g, p, d), ShareOf(g, d)(p)))
    else if r == 3 then Round4(SchemeOf(g)(p))
    else Round5(ProveDLog(SecretShare(g, p), g.q))
  }

  function Honest(g: Dealing): (nat, nat, nat) -> Msg {
    (p: nat, r: nat, d: nat) =>
      if Sized(g) && p < g.n && d < g.n then HonestMsg(g, p, r, d) else Round3(Sealed(0, 0))
  }

  // h is what p has polled so far when the others are honest.
  ghost predicate HonestSoFar(g: Dealing, p: nat, h: seq<seq<Msg>>)
    requires Sized(g) && p < g.n
  {
    |h| <= 5 && forall r: nat :: r < |h| ==> |h[r]| == g.n - 1 && forall k: nat :: k < g.n - 1 ==> HonestAt(g, p, r, k, h[r][k])
  }

  ghost predicate HonestAt(g: Dealing, p: nat, r: nat, k: nat, m: Msg)
    requires Sized(g) && p < g.n && k < g.n - 1
  {
    m == HonestMsg(g, Peer(p, k), r, if r == 2 then p else Peer(p, k))
  }

  lemma {:induction false} HistoryHonest(g: Dealing, p: nat, r: nat)
    requires WellFormed(g) && p < g.n && r <= 5
    ensures HonestSoFar(g, p, History(TheProtocol(g), Honest(g), p, r))
  {
    var h: seq<seq<Msg>> := History(TheProtocol(g), Honest(g), p, r);
    forall s: nat, k: nat | s < r && k < g.n - 1 ensures HonestAt(g, p, s, k, h[s][k]) {
      assert h[s][k] == From(TheProtocol(g), Honest(g), s, p)(Peer(p, k));
    }
  }

  function BroadcastOf(g: Dealing): nat -> Broadcast1
    requires Sized(g) && g.n > 0
  {
    (i: nat) => MakeBroadcast1(g, if i < g.n then i else 0)
  }

  function DecommitOf(g: Dealing): nat -> Decommit1
    requires Sized(g) && g.n > 0
  {
    (i: nat) => MakeDecommit1(g, if i < g.n then i else 0)
  }

  lemma {:induction false} HonestTyped(g: Dealing, p: nat, h: seq<seq<Msg>>)
    requires WellFormed(g) && p < g.n && HonestSoFar(g, p, h)
    ensures Typed(g, h)
  {
    forall r: nat, k: nat | r < |h| && k < g.n - 1 ensures OfRound(h[r][k], r) {
      assert HonestAt(g, p, r, k, h[r][k]);
    }
  }

  lemma {:induction false} HonestBroadcasts(g: Dealing, p: nat, h: seq<seq<Msg>>)
    requires WellFormed(g) && p < g.n && HonestSoFar(g, p, h) && Typed(g, h) && |h| > 1
    ensures Broadcasts(g, p, h) == Tabulate(g.n, BroadcastOf(g))
  {
    InsertMapped(g.n, p, seq(g.n - 1, k requires 0 <= k < g.n - 1 => h[0][k].bc), BroadcastOf(g));
  }

  lemma {:induction false} HonestDecommits(g: Dealing, p: nat, h: seq<seq<Msg>>)
    requires WellFormed(g) && p < g.n && HonestSoFar(g, p, h) && Typed(g, h) && |h| > 1
    ensures Decommits(g, p, h) == Tabulate(g.n, DecommitOf(g))
    ensures forall i: nat :: i < g.n ==> Ys(g, p, h)[i] == PublicPoint(g, i)
  {
    InsertMapped(g.n, p, seq(g.n - 1, k requires 0 <= k < g.n - 1 => h[1][k].decom), DecommitOf(g));
  }

  // p has a channel key with every other party.
  ghost predicate ChannelsOf(g: Dealing, p: nat)
    requires Sized(g) && p < g.n
  {
    forall j: nat :: j < g.n && j != p ==> ChannelKey(g, PublicPoint(g, p), PublicPoint(g, j)).Some?
  }

  // The dealing succeeds exactly when the threshold is below the number of parties and p
  // has its channel keys.
  lemma {:induction false} HonestDealt(g: Dealing, p: nat, h: seq<seq<Msg>>)
    requires WellFormed(g) && p < g.n && HonestSoFar(g, p, h) && Typed(g, h) && |h| > 1
    ensures Dealt(g, p, h).Some? <==> g.t < g.n && ChannelsOf(g, p)
    ensures Dealt(g, p, h).Some? ==>
      && Dealt(g, p, h).value.0 == SchemeOf(g)(p)
      && |Dealt(g, p, h).value.1| == g.n
      && forall i: nat :: i < g.n ==> Dealt(g, p, h).value.1[i] == ShareOf(g, i)(p)
  {
    HonestBroadcasts(g, p, h);
    HonestDecommits(g, p, h);
    var ys := Ys(g, p, h);
    forall j: nat | j < g.n && j != p && ChannelKey(g, PublicPoint(g, p), PublicPoint(g, j)).None?
      ensures exists k: nat :: k < g.n - 1 && ChannelKey(g, PublicPoint(g, p), ys[Peer(p, k)]).None?
    {
      var k := PeerAt(p, j);
      assert ys[Peer(p, k)] == PublicPoint(g, j);
    }
  }

  lemma {:induction false} ChannelKeySymmetric(g: Dealing, i: nat, j: nat)
    requires Sized(g) && i < g.n && j < g.n
    ensures ChannelKey(g, PublicPoint(g, i), PublicPoint(g, j)) == ChannelKey(g, PublicPoint(g, j), PublicPoint(g, i))
  {
  }

  lemma {:induction false} HonestSealed(g: Dealing, p: nat, h: seq<seq<Msg>>, k: nat)
    requires WellFormed(g) && p < g.n && HonestSoFar(g, p, h) && Typed(g, h) && |h| > 2
    requires ChannelsOf(g, p) && k < g.n - 1
    ensures ChannelKey(g, PublicPoint(g, p), PublicPoint(g, Peer(p, k))) == Some(h[2][k].sealed.key)
    ensures Mod(h[2][k].sealed.plain, g.q) == ShareOf(g, p)(Peer(p, k))
  {
    hide Mod;
    ChannelKeySymmetric(g, p, Peer(p, k));
    assert HonestAt(g, p, 2, k, h[2][k]);
    ModSmall(ShareOf(g, p)(Peer(p, k)), g.q);
  }

  lemma {:induction false} HonestShares(g: Dealing, p: nat, h: seq<seq<Msg>>)
    requires WellFormed(g) && p < g.n && HonestSoFar(g, p, h) && Typed(g, h) && |h| > 2
    requires Dealt(g, p, h).Some?
    ensures Shares(g, p, h) == Some(Tabulate(g.n, ShareOf(g, p)))
  {
    HonestDealt(g, p, h);
    HonestOpened(g, p, h);
    InsertMapped(g.n, p, Opened(g, h), ShareOf(g, p));
  }

  lemma {:induction false} HonestOpened(g: Dealing, p: nat, h: seq<seq<Msg>>)
    requires WellFormed(g) && p < g.n && HonestSoFar(g, p, h) && Typed(g, h) && |h| > 2
    requires ChannelsOf(g, p)
    ensures CanOpen(g, p, h)
    ensures forall k: nat :: k < g.n - 1 ==> Opened(g, h)[k] == ShareOf(g, p)(Peer(p, k))
  {
    HonestDecommits(g, p, h);
    forall k: nat | k < g.n - 1
      ensures ChannelKey(g, PublicPoint(g, p), PublicPoint(g, Peer(p, k))) == Some(h[2][k].sealed.key)
      ensures Opened(g, h)[k] == ShareOf(g, p)(Peer(p, k))
    {
      HonestSealed(g, p, h, k);
    }
  }

  lemma {:induction false} HonestSchemes(g: Dealing, p: nat, h: seq<seq<Msg>>)
    requires WellFormed(g) && p < g.n && HonestSoFar(g, p, h) && Typed(g, h) && |h| > 3
    requires Dealt(g, p, h).Some?
    ensures Schemes(g, p, h) == Some(Tabulate(g.n, SchemeOf(g)))
  {
    HonestDealt(g, p, h);
    InsertMapped(g.n, p, seq(g.n - 1, k requires 0 <= k < g.n - 1 => h[3][k].scheme), SchemeOf(g));
  }

  lemma {:induction false} HonestShareValid(g: Dealing, j: nat, index: nat)
    requires WellFormed(g) && j < g.n
    ensures ValidShare(Commit(g.polys[j], g.q), ShareFor(g.polys[j], index, g.q), index, g.q)
    ensures Logs(Commit(g.polys[j], g.q)) == g.polys[j]
  {
    assert Logs(Commit(g.polys[j], g.q)) == g.polys[j];
    ValidShareIff(Commit(g.polys[j], g.q), ShareFor(g.polys[j], index, g.q), index, g.q);
    CongMod(Eval(g.polys[j], index), g.q);
  }

  // Honest shares against honest schemes are accepted.
  lemma {:induction false} HonestVss(g: Dealing, ys: seq<Point>, index: nat)
    requires WellFormed(g) && |ys| == g.n && index > 0
    requires forall i: nat :: i < g.n ==> ys[i] == PublicPoint(g, i)
    ensures Phase2VerifyVss(ParamsOf(g), ys, Tabulate(g.n, ShareOf(g, index - 1)), Tabulate(g.n, SchemeOf(g)), index, g.q)
         == Some((SharedKeys(SumPoints(ys, g.q).value, SecretShare(g, index - 1)), ProveDLog(SecretShare(g, index - 1), g.q)))
  {
    hide Mod, ValidShare, FoldAdd, ShareFor;
    var schemes, shares := Tabulate(g.n, SchemeOf(g)), Tabulate(g.n, ShareOf(g, index - 1));
    forall i: nat | i < g.n
      ensures ValidShare(schemes[i].commitments, shares[i], index, g.q) && schemes[i].commitments[0] == PublicPoint(g, i)
    {
      HonestShareValid(g, i, index);
    }
  }

  lemma {:induction false} HonestAccept(g: Dealing, p: nat, h: seq<seq<Msg>>)
    requires WellFormed(g) && p < g.n && HonestSoFar(g, p, h) && Typed(g, h) && |h| > 3
    requires Dealt(g, p, h).Some?
    ensures SumPoints(Ys(g, p, h), g.q).Some?
    ensures Accept(g, p, h) == Some((SharedKeys(SumPoints(Ys(g, p, h), g.q).value, SecretShare(g, p)), ProveDLog(SecretShare(g, p), g.q)))
  {
    HonestDecommits(g, p, h);
    HonestShares(g, p, h);
    HonestSchemes(g, p, h);
    HonestVss(g, Ys(g, p, h), p + 1);
  }

  // The program of party p in round r, after honest rounds.
  lemma {:induction false} HonestPost(g: Dealing, p: nat, r: nat, d: nat, h: seq<seq<Msg>>)
    requires WellFormed(g) && p < g.n && d < g.n && r < 5 && |h| == r && HonestSoFar(g, p, h)
    requires r == 2 ==> d != p
    ensures Post(g, p, r, d, h) == if r < 2 || (g.t < g.n && ChannelsOf(g, p)) then Some(HonestMsg(g, p, r, d)) else None
  {
    HonestTyped(g, p, h);
    if r >= 2 {
      HonestDealt(g, p, h);
      if Dealt(g, p, h).Some? {
        if r == 2 {
          HonestDecommits(g, p, h);
        } else if r == 3 {
          HonestShares(g, p, h);
        } else {
          HonestAccept(g, p, h);
        }
      }
    }
  }

  // === whole runs =======================================================================

  ghost predicate Completes(g: Dealing)
    requires Sized(g)
  {
    g.t < g.n && forall p: nat :: p < g.n ==> ChannelsOf(g, p)
  }

  lemma {:induction false} HonestRounds(g: Dealing, m: nat)
    requires WellFormed(g) && m <= 5 && (m <= 2 || Completes(g))
    ensures forall p: nat :: p < g.n ==> LockHist(TheProtocol(g), p, m) == Some(History(TheProtocol(g), Honest(g), p, m))
    ensures forall p: nat, r: nat, k: nat :: p < g.n && r < m && k < WriteCount(TheProtocol(g), r) ==>
      LockPost(TheProtocol(g), p, r, Recipient(TheProtocol(g), p, r, k)).Some?
  {
    var pr := TheProtocol(g);
    forall p: nat, r: nat, k: nat | p < g.n && r < m && k < WriteCount(pr, r) ensures Sends(pr, Honest(g), p, r, k) {
      HistoryHonest(g, p, r);
      HonestPost(g, p, r, Recipient(pr, p, r, k), History(pr, Honest(g), p, r));
    }
    ProgramsDetermineHistory(pr, Honest(g), m);
  }

  // Nobody panics in key generation exactly when the threshold is below the number of
  // parties and no two public points cancel.
  lemma {:induction false} NoPanicIff(g: Dealing)
    requires WellFormed(g)
    ensures NoPanic(TheProtocol(g)) <==> Completes(g)
  {
    var pr := TheProtocol(g);
    if Completes(g) {
      HonestRounds(g, 5);
    } else {
      var p: nat :| p < g.n && !(g.t < g.n && ChannelsOf(g, p));
      if NoPanic(pr) {
        HonestRounds(g, 2);
        assert LockPost(pr, p, 3, Recipient(pr, p, 3, 0)).Some?;
        var h := LockHist(pr, p, 3).value;
        LockHistPrefix(pr, p, 2, 3);
        HistoryHonest(g, p, 2);
        DealtNeedsChannels(g, p, h);
        assert false;
      }
    }
  }

  // Dealing depends on the first two rounds only.
  lemma {:induction false} DealtNeedsChannels(g: Dealing, p: nat, h: seq<seq<Msg>>)
    requires WellFormed(g) && p < g.n && |h| == 3
    requires HonestSoFar(g, p, h[..2]) && Post(g, p, 3, p, h).Some?
    ensures g.t < g.n && ChannelsOf(g, p)
  {
    HonestTyped(g, p, h[..2]);
    HonestDealt(g, p, h[..2]);
    assert Broadcasts(g, p, h) == Broadcasts(g, p, h[..2]);
    assert Decommits(g, p, h) == Decommits(g, p, h[..2]);
    assert Ys(g, p, h) == Ys(g, p, h[..2]);
    assert Dealt(g, p, h).Some?;
  }

  // The polynomial that the group shares.
  function GroupPoly(g: Dealing): seq<nat>
    requires |g.polys| >= g.n && forall j :: 0 <= j < g.n ==> |g.polys[j]| == g.t + 1
  {
    JointPoly(g.n, g.polys, g.t, g.q)
  }

  lemma {:induction false} OutputOfHonest(g: Dealing, p: nat, h: seq<seq<Msg>>)
    requires WellFormed(g) && p < g.n && Completes(g) && |h| == 5 && HonestSoFar(g, p, h)
    ensures Output(g, p, h) == Some(KeyFile(
      SharedKeys(MulPoint(GENERATOR, GroupPoly(g)[0], g.q), ShareFor(GroupPoly(g), p + 1, g.q)),
      p + 1, Tabulate(g.n, SchemeOf(g)), g.eks, MulPoint(GENERATOR, GroupPoly(g)[0], g.q)))
  {
    HonestTyped(g, p, h);
    HonestDealt(g, p, h);
    HonestAccept(g, p, h);
    HonestSchemes(g, p, h);
    HonestProofs(g, p, h);
    HonestPaillier(g, p, h);
    HonestKeys(g, p, h);
  }

  lemma {:induction false} HonestPaillier(g: Dealing, p: nat, h: seq<seq<Msg>>)
    requires WellFormed(g) && p < g.n && HonestSoFar(g, p, h) && Typed(g, h) && |h| > 1
    ensures Keys(Broadcasts(g, p, h)) == g.eks
  {
    HonestBroadcasts(g, p, h);
  }

  lemma {:induction false} HonestProofs(g: Dealing, p: nat, h: seq<seq<Msg>>)
    requires WellFormed(g) && p < g.n && |h| == 5 && HonestSoFar(g, p, h) && Typed(g, h)
    ensures VerifyDLogProofs(ParamsOf(g), Proofs(g, p, h, ProveDLog(SecretShare(g, p), g.q)), Ys(g, p, h), g.q).Some?
  {
    var v := Proofs(g, p, h, ProveDLog(SecretShare(g, p), g.q));
    forall i | 0 <= i < g.n ensures VerifyDLog(v[i], g.q) {
      if i != p {
        var k := PeerAt(p, i);
        assert HonestAt(g, p, 4, k, h[4][k]);
        assert v[i] == h[4][k].proof;
      }
    }
  }

  // The keys that p computes are the group polynomial's.
  lemma {:induction false} HonestKeys(g: Dealing, p: nat, h: seq<seq<Msg>>)
    requires WellFormed(g) && p < g.n && HonestSoFar(g, p, h) && Typed(g, h) && |h| > 3
    ensures SumPoints(Ys(g, p, h), g.q) == Some(MulPoint(GENERATOR, GroupPoly(g)[0], g.q))
    ensures SecretShare(g, p) == ShareFor(GroupPoly(g), p + 1, g.q)
  {
    HonestDecommits(g, p, h);
    HonestVss(g, Ys(g, p, h), p + 1);
    SchemesCommit(g);
    AcceptedKeyIsOnJointPolynomial(ParamsOf(g), Ys(g, p, h), Tabulate(g.n, ShareOf(g, p)), Tabulate(g.n, SchemeOf(g)), p + 1, g.t, g.q);
  }

  lemma {:induction false} SchemesCommit(g: Dealing)
    requires WellFormed(g)
    ensures SchemesFor(Tabulate(g.n, SchemeOf(g)), g.t, g.q)
    ensures Joint(Tabulate(g.n, SchemeOf(g)), g.t, g.q) == GroupPoly(g)
  {
    var schemes := Tabulate(g.n, SchemeOf(g));
    forall j | 0 <= j < g.n ensures Committed(schemes)[j] == g.polys[j] {
      HonestShareValid(g, j, 1);
    }
    assert Committed(schemes) == g.polys;
  }

  // In every interleaving, every party that finishes saves its value of the one group
  // polynomial, and the same public key, schemes and Paillier keys as everybody else.
  lemma {:induction false} EveryInterleavingAgrees(g: Dealing, steps: seq<Step>, p: nat)
    requires WellFormed(g) && Completes(g) && p < g.n
    requires Run(TheProtocol(g), steps).Some? && |Run(TheProtocol(g), steps).value.procs[p].hist| == 5
    ensures Output(g, p, Run(TheProtocol(g), steps).value.procs[p].hist) == Some(KeyFile(
      SharedKeys(MulPoint(GENERATOR, GroupPoly(g)[0], g.q), ShareFor(GroupPoly(g), p + 1, g.q)),
      p + 1, Tabulate(g.n, SchemeOf(g)), g.eks, MulPoint(GENERATOR, GroupPoly(g)[0], g.q)))
  {
    AsyncRefinesLockstep(TheProtocol(g), steps);
    HonestRounds(g, 5);
    HistoryHonest(g, p, 5);
    OutputOfHonest(g, p, History(TheProtocol(g), Honest(g), p, 5));
  }

  // A key generation that completes always ends: once no step is left, every party has
  // saved its key file.
  lemma {:induction false} MaximalRunsAgree(g: Dealing, steps: seq<Step>)
    requires WellFormed(g) && Completes(g)
    requires Run(TheProtocol(g), steps).Some? && forall step :: !Enabled(TheProtocol(g), Run(TheProtocol(g), steps).value, step)
    ensures forall p: nat :: p < g.n ==> Output(g, p, Run(TheProtocol(g), steps).value.procs[p].hist) == Some(KeyFile(
      SharedKeys(MulPoint(GENERATOR, GroupPoly(g)[0], g.q), ShareFor(GroupPoly(g), p + 1, g.q)),
      p + 1, Tabulate(g.n, SchemeOf(g)), g.eks, MulPoint(GENERATOR, GroupPoly(g)[0], g.q)))
  {
    hide Mod, Post, Output, NoPanic, Enabled, Run;
    NoPanicIff(g);
    EveryRunEnds(TheProtocol(g), steps);
    forall p: nat | p < g.n
      ensures Output(g, p, Run(TheProtocol(g), steps).value.procs[p].hist) == Some(KeyFile(
        SharedKeys(MulPoint(GENERATOR, GroupPoly(g)[0], g.q), ShareFor(GroupPoly(g), p + 1, g.q)),
        p + 1, Tabulate(g.n, SchemeOf(g)), g.eks, MulPoint(GENERATOR, GroupPoly(g)[0], g.q)))
    {
      EveryInterleavingAgrees(g, steps, p);
    }
  }

  // The whole program: nobody panics in a round, and everybody's final step saves a file.
  ghost predicate EveryoneSaves(g: Dealing)
    requires Sized(g)
  {
    NoPanic(TheProtocol(g)) && forall p: nat :: p < g.n ==> SavesLockstep(g, p)
  }

  ghost predicate SavesLockstep(g: Dealing, p: nat)
    requires Sized(g) && p < g.n
  {
    var h := LockHist(TheProtocol(g), p, 5);
    h.Some? && Output(g, p, h.value).Some?
  }

  // The final step adds no condition: the proofs always verify after accepted rounds.
  lemma {:induction false} EveryoneSavesIff(g: Dealing)
    requires WellFormed(g)
    ensures EveryoneSaves(g) <==> Completes(g)
    ensures EveryoneSaves(g) <==> g.t < g.n && forall i: nat, j: nat :: i < g.n && j < g.n && i != j ==> Mod(g.polys[i][0] + g.polys[j][0], g.q) != 0
  {
    CompletesIff(g);
    hide Mod, Post, Output, HonestMsg, HonestSoFar, NoPanic;
    NoPanicIff(g);
    if Completes(g) {
      HonestRounds(g, 5);
      forall p: nat | p < g.n ensures SavesLockstep(g, p) {
        HistoryHonest(g, p, 5);
        OutputOfHonest(g, p, History(TheProtocol(g), Honest(g), p, 5));
      }
    }
  }

  // No public point is revealed before everybody has committed to its own.
  lemma {:induction false} CommitBeforeReveal(g: Dealing, steps: seq<Step>, p: nat, i: nat)
    requires WellFormed(g) && Run(TheProtocol(g), steps).Some? && p < g.n && i < g.n
    requires Key(p, 1, None) in Run(TheProtocol(g), steps).value.board
    ensures Key(i, 0, None) in Run(TheProtocol(g), steps).value.board
  {
    hide Post;
    BarrierOnEveryRun(TheProtocol(g), steps, p, i, 0, 0);
    assert WriteKey(TheProtocol(g), p, 1, 0) == Key(p, 1, None);
  }

  // The final step's condition, in the secrets: two public points cancel when two secrets
  // add up to 0.
  lemma {:induction false} CompletesIff(g: Dealing)
    requires WellFormed(g)
    ensures Completes(g) <==> g.t < g.n && forall i: nat, j: nat :: i < g.n && j < g.n && i != j ==> Mod(g.polys[i][0] + g.polys[j][0], g.q) != 0
  {
    hide ChannelKey, Mod;
    forall i: nat, j: nat | i < g.n && j < g.n && i != j
      ensures ChannelKey(g, PublicPoint(g, i), PublicPoint(g, j)).Some? <==> Mod(g.polys[i][0] + g.polys[j][0], g.q) != 0
    {
      ChannelKeyIff(g, i, j);
    }
    if Completes(g) {
      forall i: nat, j: nat | i < g.n && j < g.n && i != j ensures Mod(g.polys[i][0] + g.polys[j][0], g.q) != 0 {
        assert ChannelsOf(g, i);
      }
    }
  }

  lemma {:induction false} ChannelKeyIff(g: Dealing, i: nat, j: nat)
    requires WellFormed(g) && i < g.n && j < g.n
    ensures ChannelKey(g, PublicPoint(g, i), PublicPoint(g, j)).Some? <==> Mod(g.polys[i][0] + g.polys[j][0], g.q) != 0
  {
    ModSmall(g.polys[i][0], g.q);
    ModSmall(g.polys[j][0], g.q);
  }

  // === arbitrary peers ==================================================================

  lemma {:induction false} OpeningsAre(g: Dealing, p: nat, h: seq<seq<Msg>>)
    requires Sized(g) && p < g.n && Typed(g, h) && |h| > 1
    ensures (forall i :: 0 <= i < g.n ==> Opens(Decommits(g, p, h)[i], Broadcasts(g, p, h)[i]))
      <==> forall k: nat :: k < g.n - 1 ==> Opens(h[1][k].decom, h[0][k].bc)
    ensures forall k: nat :: k < g.n - 1 ==> Ys(g, p, h)[Peer(p, k)] == h[1][k].decom.y
    ensures |Broadcasts(g, p, h)| == g.n
  {
    hide Mod;
    var d, b := Decommits(g, p, h), Broadcasts(g, p, h);
    InsertedAt(seq(g.n - 1, k requires 0 <= k < g.n - 1 => h[1][k].decom), p, MakeDecommit1(g, p));
    InsertedAt(seq(g.n - 1, k requires 0 <= k < g.n - 1 => h[0][k].bc), p, MakeBroadcast1(g, p));
    forall k: nat | k < g.n - 1 ensures d[Peer(p, k)] == h[1][k].decom && b[Peer(p, k)] == h[0][k].bc {
    }
    if forall k: nat :: k < g.n - 1 ==> Opens(h[1][k].decom, h[0][k].bc) {
      forall i | 0 <= i < g.n ensures Opens(d[i], b[i]) {
        if i != p { var k := PeerAt(p, i); }
      }
    }
  }

  // Whatever a party receives: it sends out its shares exactly when the threshold is below
  // the number of parties and every peer's reveal is what the peer committed to, comes with a
  // correct-key proof for the broadcast Paillier key, and does not cancel the own point.
  lemma {:induction false} SendsSharesIff(g: Dealing, p: nat, d: nat, h: seq<seq<Msg>>)
    requires Sized(g) && p < g.n && d < g.n && d != p && Typed(g, h) && |h| == 2
    ensures Post(g, p, 2, d, h).Some? <==>
      g.t < g.n && forall k: nat :: k < g.n - 1 ==>
        && h[0][k].bc.com == Commitment(h[1][k].decom.y, h[1][k].decom.blind)
        && h[0][k].bc.correctKey.key == h[0][k].bc.e
        && Mod(PublicPoint(g, p).log + h[1][k].decom.y.log, g.q) != 0
  {
    DealtIff(g, p, h);
    OpeningsAre(g, p, h);
    var k := PeerAt(p, d);
  }

  lemma {:induction false} DealtIff(g: Dealing, p: nat, h: seq<seq<Msg>>)
    requires Sized(g) && p < g.n && Typed(g, h) && |h| > 1
    ensures Dealt(g, p, h).Some? <==>
      g.t < g.n && forall k: nat :: k < g.n - 1 ==>
        && h[0][k].bc.com == Commitment(h[1][k].decom.y, h[1][k].decom.blind)
        && h[0][k].bc.correctKey.key == h[0][k].bc.e
        && Mod(PublicPoint(g, p).log + h[1][k].decom.y.log, g.q) != 0
    ensures Dealt(g, p, h).Some? ==>
      Dealt(g, p, h).value.0 == VerifiableSS(g.t, g.n, Commit(g.polys[p], g.q)) && |Dealt(g, p, h).value.1| == g.n
  {
    hide Mod, Decommits, Broadcasts, Ys, PublicPoint;
    OpeningsAre(g, p, h);
    var ys := Ys(g, p, h);
    assert forall k: nat :: k < g.n - 1 ==>
      (ChannelKey(g, PublicPoint(g, p), ys[Peer(p, k)]).None? <==> Mod(PublicPoint(g, p).log + h[1][k].decom.y.log, g.q) == 0);
  }

  // Whatever a party receives: what it saves rests on reveals that match their commitments,
  // on shares that came under the right channel keys, and on proofs that hold; and when the
  // schemes have t + 1 commitments each, its secret is the value at its index of the
  // polynomial they commit to, under that polynomial's public key.
  lemma {:induction false} SavedRestsOn(g: Dealing, p: nat, h: seq<seq<Msg>>, file: KeyFile)
    requires Sized(g) && p < g.n && Output(g, p, h) == Some(file)
    ensures |h| == 5 && Typed(g, h) && g.t < g.n
    ensures forall k: nat :: k < g.n - 1 ==>
      && h[0][k].bc.com == Commitment(h[1][k].decom.y, h[1][k].decom.blind)
      && h[0][k].bc.correctKey.key == h[0][k].bc.e
      && Mod(PublicPoint(g, p).log + h[1][k].decom.y.log, g.q) != 0
      && h[2][k].sealed.key == g.xcoor(Mod(PublicPoint(g, p).log + h[1][k].decom.y.log, g.q))
      && h[4][k].proof.pk == MulPoint(GENERATOR, h[4][k].proof.secret, g.q)
    ensures file.partyId == p + 1 && |file.schemes| == g.n && file.schemes[p] == VerifiableSS(g.t, g.n, Commit(g.polys[p], g.q))
    ensures forall k: nat :: k < g.n - 1 ==> file.schemes[Peer(p, k)] == h[3][k].scheme
    ensures SchemesFor(file.schemes, g.t, g.q) ==>
      && file.ySum == file.keys.y == MulPoint(GENERATOR, Joint(file.schemes, g.t, g.q)[0], g.q)
      && file.keys.x == ShareFor(Joint(file.schemes, g.t, g.q), p + 1, g.q)
  {
    hide Mod, Phase2VerifyVss, Phase1Verify, Decommits, Broadcasts, Ys, PublicPoint, Opened, Keys, VerifyDLogProofs,
      SchemesFor, Joint, ShareFor, SumPoints, MulPoint, Commit, CanOpen;
    DealtIff(g, p, h);
    OpeningsAre(g, p, h);
    OpenedUnderKeys(g, p, h);
    var (scheme, own) := Dealt(g, p, h).value;
    InsertedAt(seq(g.n - 1, k requires 0 <= k < g.n - 1 => h[3][k].scheme), p, scheme);
    ProofsHold(g, p, h, Accept(g, p, h).value.1);
    if SchemesFor(file.schemes, g.t, g.q) { SavedKeys(g, p, h, file); }
  }

  lemma {:induction false} SavedKeys(g: Dealing, p: nat, h: seq<seq<Msg>>, file: KeyFile)
    requires Sized(g) && p < g.n && Output(g, p, h) == Some(file) && SchemesFor(file.schemes, g.t, g.q)
    ensures file.ySum == file.keys.y == MulPoint(GENERATOR, Joint(file.schemes, g.t, g.q)[0], g.q)
    ensures file.keys.x == ShareFor(Joint(file.schemes, g.t, g.q), p + 1, g.q)
  {
    hide Mod, Phase2VerifyVss, Shares, Schemes, Ys, Keys, VerifyDLogProofs, SumPoints, ShareFor, Joint, MulPoint, SchemesFor;
    AcceptedKeyIsOnJointPolynomial(ParamsOf(g), Ys(g, p, h), Shares(g, p, h).value, file.schemes, p + 1, g.t, g.q);
    AcceptedSum(ParamsOf(g), Ys(g, p, h), Shares(g, p, h).value, file.schemes, p + 1, g.q);
  }

  lemma {:induction false} AcceptedSum(params: Params, ys: seq<Point>, shares: seq<nat>, schemes: seq<VerifiableSS>, index: nat, q: pos)
    requires Phase2VerifyVss(params, ys, shares, schemes, index, q).Some?
    ensures SumPoints(ys, q) == Some(Phase2VerifyVss(params, ys, shares, schemes, index, q).value.0.y)
  {
    hide Mod;
  }

  lemma {:induction false} OpenedUnderKeys(g: Dealing, p: nat, h: seq<seq<Msg>>)
    requires Sized(g) && p < g.n && Typed(g, h) && |h| > 2 && Shares(g, p, h).Some?
    ensures forall k: nat :: k < g.n - 1 ==>
      h[2][k].sealed.key == g.xcoor(Mod(PublicPoint(g, p).log + h[1][k].decom.y.log, g.q))
  {
    hide Mod, Decommits, Broadcasts, Ys, PublicPoint, Opened, Phase1Verify;
    OpeningsAre(g, p, h);
    var ys := Ys(g, p, h);
    forall k: nat | k < g.n - 1
      ensures h[2][k].sealed.key == g.xcoor(Mod(PublicPoint(g, p).log + h[1][k].decom.y.log, g.q))
    {
      assert ys[Peer(p, k)] == h[1][k].decom.y;
    }
  }

  lemma {:induction false} ProofsHold(g: Dealing, p: nat, h: seq<seq<Msg>>, own: DLogProof)
    requires Sized(g) && p < g.n && Typed(g, h) && |h| > 4
    requires VerifyDLogProofs(ParamsOf(g), Proofs(g, p, h, own), Ys(g, p, h), g.q).Some?
    ensures forall k: nat :: k < g.n - 1 ==> h[4][k].proof.pk == MulPoint(GENERATOR, h[4][k].proof.secret, g.q)
  {
    hide Mod, Ys, MulPoint;
    InsertedAt(seq(g.n - 1, k requires 0 <= k < g.n - 1 => h[4][k].proof), p, own);
    forall k: nat | k < g.n - 1 ensures h[4][k].proof.pk == MulPoint(GENERATOR, h[4][k].proof.secret, g.q) {
      assert Proofs(g, p, h, own)[Peer(p, k)] == h[4][k].proof;
    }
  }

  // The protocol in which p follows its program and the others do anything.
  function Facing(g: Dealing, p: nat, other: (nat, nat, nat, seq<seq<Msg>>) -> Option<Msg>): Protocol<Msg> {
    Protocol(g.n, 5, (r: nat) => r == 2,
      (i: nat, r: nat, d: nat, h: seq<seq<Msg>>) => if i == p then Post(g, p, r, d, h) else other(i, r, d, h))
  }

  // In every interleaving with arbitrary peers: once p has sent any share, what every peer
  // revealed on the board is what that peer had committed to there, and p uses these points.
  lemma {:induction false} SharesFollowCommitments(g: Dealing, p: nat, other: (nat, nat, nat, seq<seq<Msg>>) -> Option<Msg>, steps: seq<Step>, c: nat, k: nat)
    requires Sized(g) && p < g.n && c < g.n - 1 && k < g.n - 1
    requires Run(Facing(g, p, other), steps).Some?
    requires Key(p, 2, Some(Peer(p, c))) in Run(Facing(g, p, other), steps).value.board
    ensures var s := Run(Facing(g, p, other), steps).value;
      && |s.procs[p].hist| >= 2 && Typed(g, s.procs[p].hist[..2])
      && Key(Peer(p, k), 0, None) in s.board && Key(Peer(p, k), 1, None) in s.board
      && var a, b := s.board[Key(Peer(p, k), 0, None)], s.board[Key(Peer(p, k), 1, None)];
        && a.Round1? && b.Round2? && a.bc.com == Commitment(b.decom.y, b.decom.blind)
        && Ys(g, p, s.procs[p].hist[..2])[Peer(p, k)] == b.decom.y
  {
    hide Mod, Post, Ys;
    var pr := Facing(g, p, other);
    var s := Run(pr, steps).value;
    AsyncRefinesLockstep(pr, steps);
    assert WriteKey(pr, p, 2, c) == Key(p, 2, Some(Peer(p, c)));
    PostedAfterReading(pr, s, p, 2, c);
    var h := s.procs[p].hist[..2];
    TypedWhenPosted(g, p, 2, Peer(p, c), h);
    SendsSharesIff(g, p, Peer(p, c), h);
    OpeningsAre(g, p, h);
    ReadFromBoard(pr, s, p, 0, k);
    ReadFromBoard(pr, s, p, 1, k);
    assert h[0] == s.procs[p].hist[0] && h[1] == s.procs[p].hist[1];
    assert OfRound(h[0][k], 0) && OfRound(h[1][k], 1);
  }

  // Its own point p reveals only when every peer has committed, and the reveal opens the
  // commitment that p made with its own randomness.
  lemma {:induction false} RevealsOwn(g: Dealing, p: nat, other: (nat, nat, nat, seq<seq<Msg>>) -> Option<Msg>, steps: seq<Step>, i: nat)
    requires Sized(g) && p < g.n && i < g.n && Run(Facing(g, p, other), steps).Some?
    requires Key(p, 1, None) in Run(Facing(g, p, other), steps).value.board
    ensures var b, y := Run(Facing(g, p, other), steps).value.board, Point(Mod(g.polys[p][0], g.q));
      && Key(i, 0, None) in b && Key(p, 0, None) in b
      && b[Key(p, 0, None)] == Round1(Broadcast1(g.eks[p], Commitment(y, g.blinds[p]), CorrectKeyProof(g.eks[p])))
      && b[Key(p, 1, None)] == Round2(Decommit1(g.blinds[p], y))
  {
    hide Mod, Run, ProcInv, BoardInv, LockHist, RoundInv, Post, Sized;
    var pr := Facing(g, p, other);
    var s := Run(pr, steps).value;
    AsyncRefinesLockstep(pr, steps);
    assert WriteKey(pr, p, 1, 0) == Key(p, 1, None) && WriteKey(pr, p, 0, 0) == Key(p, 0, None);
    PostsAfterEarlier(pr, s, p, 1, 0, 0, i);
    PostsAfterEarlier(pr, s, p, 1, 0, 0, p);
    PostedAfterReading(pr, s, p, 0, 0);
    PostedAfterReading(pr, s, p, 1, 0);
    OwnPoint(g, p, s.procs[p].hist[..0], s.procs[p].hist[..1]);
  }

  lemma {:induction false} OwnPoint(g: Dealing, p: nat, h0: seq<seq<Msg>>, h1: seq<seq<Msg>>)
    requires Post(g, p, 0, p, h0).Some? && Post(g, p, 1, p, h1).Some?
    ensures Sized(g) && p < g.n
    ensures var y := Point(Mod(g.polys[p][0], g.q));
      && Post(g, p, 0, p, h0).value == Round1(Broadcast1(g.eks[p], Commitment(y, g.blinds[p]), CorrectKeyProof(g.eks[p])))
      && Post(g, p, 1, p, h1).value == Round2(Decommit1(g.blinds[p], y))
  {
    hide Mod;
    assert GENERATOR.log * g.polys[p][0] == g.polys[p][0];
  }

  lemma {:induction false} TypedWhenPosted(g: Dealing, p: nat, r: nat, d: nat, h: seq<seq<Msg>>)
    requires Post(g, p, r, d, h).Some?
    ensures Typed(g, h) && |h| == r && d < g.n
  {
  }
}
