// The ten-round signing schedule as a protocol over the board, run by t + 1 of the parties
// that a key generation left behind.
module SignRun {
  import opened Results
  import opened Zq
  import opened Sums
  import opened Feldman
  import opened Mta
  import opened SignPhases
  import opened Rounds
  import KeyGen

  type ComA = Commitment<(Point, Point, Point)>
  type ComD = Commitment<(Point, Point)>

  datatype Msg =
    | Round0(id: nat)
    | Round1(com: Commitment<Point>, a: MessageA)
    | Round2(gammaB: MessageB, wB: MessageB)
    | Round3(delta: nat)
    | Round4(decommit: SignDecommit)
    | Round5(comA: ComA)
    | Round6(decomA: Phase5A, proof: ElGamalProof)
    | Round7(comD: ComD)
    | Round8(decomD: Phase5D)
    | Round9(s: nat)

  // A party's own random choices; maskGamma[j] and maskW[j] are the masks for signer j.
  datatype Choices = Choices(k: nat, gamma: nat, blind: nat, maskGamma: seq<nat>, maskW: seq<nat>, l: nat, rho: nat, blindA: nat, blindD: nat)

  // signers[p] is the index (from 0) that signer p had in the key generation.
  datatype Session = Session(g: KeyGen.Dealing, signers: seq<nat>, own: seq<Choices>, m: nat)

  function N(s: Session): nat { |s.signers| }

  function Q(s: Session): pos { s.g.q }

  predicate Shaped(s: Session) {
    && KeyGen.Sized(s.g) && (forall j :: 0 <= j < s.g.n ==> |s.g.polys[j]| == s.g.t + 1)
    && |s.own| == N(s) && 0 < N(s)
    && (forall p :: 0 <= p < N(s) ==> s.signers[p] < s.g.n && |s.own[p].maskGamma| == N(s) && |s.own[p].maskW| == N(s))
  }

  ghost predicate WellFormed(s: Session) {
    && Shaped(s) && KeyGen.WellFormed(s.g) && KeyGen.Completes(s.g)
    && Signers(s.signers, s.g.n, s.g.q) && N(s) == s.g.t + 1
  }

  // What signer p loads from the file that key generation saved.
  function File(s: Session, p: nat): KeyGen.KeyFile
    requires Shaped(s) && p < N(s)
  {
    var f := KeyGen.GroupPoly(s.g);
    var y := MulPoint(GENERATOR, f[0], Q(s));
    KeyGen.KeyFile(KeyGen.SharedKeys(y, ShareFor(f, s.signers[p] + 1, Q(s))), s.signers[p] + 1,
                   Tabulate(s.g.n, KeyGen.SchemeOf(s.g)), s.g.eks, y)
  }

  // The Paillier key of the group member with index id.
  function KeyAt(s: Session, id: nat): EncryptionKey
    requires Shaped(s) && id < s.g.n
  {
    s.g.eks[id]
  }

  // === what a signer computes ===========================================================

  predicate OfRound(m: Msg, r: nat) {
    match r
    case 0 => m.Round0? && m.id > 0
    case 1 => m.Round1?
    case 2 => m.Round2?
    case 3 => m.Round3?
    case 4 => m.Round4?
    case 5 => m.Round5?
    case 6 => m.Round6?
    case 7 => m.Round7?
    case 8 => m.Round8?
    case _ => m.Round9?
  }

  predicate Typed(s: Session, h: seq<seq<Msg>>) {
    forall r: nat :: r < |h| ==> |h[r]| == N(s) - 1 && forall k :: 0 <= k < N(s) - 1 ==> OfRound(h[r][k], r)
  }

  // The indices received name members of the group.
  predicate Known(s: Session, h: seq<seq<Msg>>)
    requires Typed(s, h) && |h| > 0 && N(s) > 0
  {
    forall k :: 0 <= k < N(s) - 1 ==> h[0][k].id <= s.g.n
  }

  // p has polled r rounds; an unknown signer is looked up, and missed, before round 2.
  predicate Ready(s: Session, p: nat, h: seq<seq<Msg>>, r: nat) {
    Shaped(s) && p < N(s) && Typed(s, h) && r <= |h| && (r >= 2 ==> Known(s, h))
  }

  // After round 0: the indices of all signers, in signing order.
  function SignersVec(s: Session, p: nat, h: seq<seq<Msg>>): (v: seq<nat>)
    requires Ready(s, p, h, 1)
    ensures |v| == N(s)
    ensures Known(s, h) ==> forall i :: 0 <= i < |v| ==> v[i] < s.g.n
  {
    InsertAt(seq(N(s) - 1, k requires 0 <= k < N(s) - 1 => h[0][k].id - 1), p, File(s, p).partyId - 1)
  }

  // w_i: the share re-mapped to this set of signers.
  function W(s: Session, p: nat, v: seq<nat>): nat
    requires Shaped(s) && p < N(s) && |v| == N(s)
  {
    Mod(MapShareToNewParams(v[p], v, Q(s)) * File(s, p).keys.x, Q(s))
  }

  function GGamma(s: Session, p: nat): Point
    requires Shaped(s) && p < N(s)
  {
    MulPoint(GENERATOR, s.own[p].gamma, Q(s))
  }

  // The replies that p makes for its c-th peer, with p's own shares of the products.
  function ReplyGamma(s: Session, p: nat, c: nat, v: seq<nat>, a: MessageA): (MessageB, nat)
    requires Shaped(s) && p < N(s) && c < N(s) - 1 && |v| == N(s) && v[Peer(p, c)] < s.g.n
  {
    MakeB(s.own[p].gamma, KeyAt(s, v[Peer(p, c)]), a, s.own[p].maskGamma[Peer(p, c)], Q(s))
  }

  function ReplyW(s: Session, p: nat, c: nat, v: seq<nat>, a: MessageA): (MessageB, nat)
    requires Shaped(s) && p < N(s) && c < N(s) - 1 && |v| == N(s) && v[Peer(p, c)] < s.g.n
  {
    MakeB(W(s, p, v), KeyAt(s, v[Peer(p, c)]), a, s.own[p].maskW[Peer(p, c)], Q(s))
  }

  function Betas(s: Session, p: nat, h: seq<seq<Msg>>): (b: seq<nat>)
    requires Ready(s, p, h, 2)
    ensures |b| == N(s) - 1
  {
    seq(N(s) - 1, c requires 0 <= c < N(s) - 1 => ReplyGamma(s, p, c, SignersVec(s, p, h), h[1][c].a).1)
  }

  function Nis(s: Session, p: nat, h: seq<seq<Msg>>): (b: seq<nat>)
    requires Ready(s, p, h, 2)
    ensures |b| == N(s) - 1
  {
    seq(N(s) - 1, c requires 0 <= c < N(s) - 1 => ReplyW(s, p, c, SignersVec(s, p, h), h[1][c].a).1)
  }

  // p's shares from the c-th peer's replies, checked against the peer's public commitment.
  function AlphaMiu(s: Session, p: nat, h: seq<seq<Msg>>, c: nat): Option<(nat, nat)>
    requires Ready(s, p, h, 3) && c < N(s) - 1
  {
    var id := SignersVec(s, p, h)[Peer(p, c)];
    var ek := KeyAt(s, s.signers[p]);
    var alpha :- GetAlpha(h[2][c].gammaB, ek, s.own[p].k, Q(s));
    var miu :- GetAlpha(h[2][c].wB, ek, s.own[p].k, Q(s));
    var xiComs :- KeyGen.GetCommitmentsToXi(File(s, p).schemes, Q(s));
    if id < |xiComs| && h[2][c].wB.bProof.pk == KeyGen.UpdateCommitmentsToXi(xiComs[id], id, SignersVec(s, p, h), Q(s))
    then Some((alpha, miu)) else None
  }

  // The vectors that p decodes from what it polled.
  function GammaProofs(s: Session, h: seq<seq<Msg>>): (v: seq<DLogProof>)
    requires 0 < N(s) && Typed(s, h) && |h| > 2
    ensures |v| == N(s) - 1
  {
    seq(N(s) - 1, k requires 0 <= k < N(s) - 1 => h[2][k].gammaB.bProof)
  }

  function GammaComs(s: Session, h: seq<seq<Msg>>): (v: seq<Commitment<Point>>)
    requires 0 < N(s) && Typed(s, h) && |h| > 1
    ensures |v| == N(s) - 1
  {
    seq(N(s) - 1, k requires 0 <= k < N(s) - 1 => h[1][k].com)
  }

  function Deltas(s: Session, h: seq<seq<Msg>>): (v: seq<nat>)
    requires 0 < N(s) && Typed(s, h) && |h| > 3
    ensures |v| == N(s) - 1
  {
    seq(N(s) - 1, k requires 0 <= k < N(s) - 1 => h[3][k].delta)
  }

  function GammaDecommits(s: Session, h: seq<seq<Msg>>): (v: seq<SignDecommit>)
    requires 0 < N(s) && Typed(s, h) && |h| > 4
    ensures |v| == N(s) - 1
  {
    seq(N(s) - 1, k requires 0 <= k < N(s) - 1 => h[4][k].decommit)
  }

  function ComAs(s: Session, h: seq<seq<Msg>>): (v: seq<ComA>)
    requires 0 < N(s) && Typed(s, h) && |h| > 5
    ensures |v| == N(s) - 1
  {
    seq(N(s) - 1, k requires 0 <= k < N(s) - 1 => h[5][k].comA)
  }

  function DecomAs(s: Session, h: seq<seq<Msg>>): (v: seq<Phase5A>)
    requires 0 < N(s) && Typed(s, h) && |h| > 6
    ensures |v| == N(s) - 1
  {
    seq(N(s) - 1, k requires 0 <= k < N(s) - 1 => h[6][k].decomA)
  }

  function ElGamals(s: Session, h: seq<seq<Msg>>): (v: seq<ElGamalProof>)
    requires 0 < N(s) && Typed(s, h) && |h| > 6
    ensures |v| == N(s) - 1
  {
    seq(N(s) - 1, k requires 0 <= k < N(s) - 1 => h[6][k].proof)
  }

  function ComDs(s: Session, h: seq<seq<Msg>>): (v: seq<ComD>)
    requires 0 < N(s) && Typed(s, h) && |h| > 7
    ensures |v| == N(s) - 1
  {
    seq(N(s) - 1, k requires 0 <= k < N(s) - 1 => h[7][k].comD)
  }

  function DecomDs(s: Session, h: seq<seq<Msg>>): (v: seq<Phase5D>)
    requires 0 < N(s) && Typed(s, h) && |h| > 8
    ensures |v| == N(s) - 1
  {
    seq(N(s) - 1, k requires 0 <= k < N(s) - 1 => h[8][k].decomD)
  }

  function Shares(s: Session, h: seq<seq<Msg>>): (v: seq<nat>)
    requires 0 < N(s) && Typed(s, h) && |h| > 9
    ensures |v| == N(s) - 1
  {
    seq(N(s) - 1, k requires 0 <= k < N(s) - 1 => h[9][k].s)
  }

  function AlphaMius(s: Session, p: nat, h: seq<seq<Msg>>): (v: Option<seq<(nat, nat)>>)
    requires Ready(s, p, h, 3)
    ensures v.Some? ==> |v.value| == N(s) - 1
  {
    if forall c: nat :: c < N(s) - 1 ==> AlphaMiu(s, p, h, c).Some?
    then Some(seq(N(s) - 1, c requires 0 <= c < N(s) - 1 && AlphaMiu(s, p, h, c).Some? => AlphaMiu(s, p, h, c).value))
    else None
  }

  function Firsts(v: seq<(nat, nat)>): (w: seq<nat>)
    ensures |w| == |v| && forall i :: 0 <= i < |v| ==> w[i] == v[i].0
  {
    seq(|v|, i requires 0 <= i < |v| => v[i].0)
  }

  function Seconds(v: seq<(nat, nat)>): (w: seq<nat>)
    ensures |w| == |v| && forall i :: 0 <= i < |v| ==> w[i] == v[i].1
  {
    seq(|v|, i requires 0 <= i < |v| => v[i].1)
  }

  // After round 2: delta_i and sigma_i.
  function DeltaSigma(s: Session, p: nat, h: seq<seq<Msg>>): Option<(nat, nat)>
    requires Ready(s, p, h, 3)
  {
    var v :- AlphaMius(s, p, h);
    var delta :- Phase2(s.own[p].k, s.own[p].gamma, Firsts(v), Betas(s, p, h), Q(s));
    var sigma :- Phase2(s.own[p].k, W(s, p, SignersVec(s, p, h)), Seconds(v), Nis(s, p, h), Q(s));
    Some((delta, sigma))
  }

  // After round 3: the inverse of the sum of all deltas.
  function DeltaInv(s: Session, p: nat, h: seq<seq<Msg>>): Option<nat>
    requires Ready(s, p, h, 4)
  {
    var ds :- DeltaSigma(s, p, h);
    Phase3ReconstructDelta(InsertAt(Deltas(s, h), p, ds.0), Q(s))
  }

  // After round 4: the nonce point.
  function Nonce(s: Session, p: nat, h: seq<seq<Msg>>): Option<Point>
    requires Ready(s, p, h, 5)
  {
    var deltaInv :- DeltaInv(s, p, h);
    var R :- Phase4(deltaInv, GammaProofs(s, h), GammaDecommits(s, h), GammaComs(s, h), Q(s));
    Some(AddPoints(R, MulPoint(GGamma(s, p), deltaInv, Q(s)), Q(s)))
  }

  // The local signature.
  function Local(s: Session, p: nat, h: seq<seq<Msg>>): Option<LocalSignature>
    requires Ready(s, p, h, 5)
  {
    var R :- Nonce(s, p, h);
    var ds :- DeltaSigma(s, p, h);
    Phase5LocalSig(s.own[p].k, s.m, R, ds.1, File(s, p).ySum, s.own[p].l, s.own[p].rho, s.g.xcoor, Q(s))
  }

  // After round 6: the second decommitment.
  function SecondDecommit(s: Session, p: nat, h: seq<seq<Msg>>): Option<Phase5D>
    requires Ready(s, p, h, 7)
  {
    var sig :- Local(s, p, h);
    Phase5C(sig, DecomAs(s, h), ComAs(s, h), ElGamals(s, h),
      MakePhase5A(sig, s.own[p].blindA, Q(s)).V, sig.R, s.own[p].blindD, s.g.xcoor, Q(s))
  }

  // After round 8: the consistency test passes.
  function Released(s: Session, p: nat, h: seq<seq<Msg>>): Option<nat>
    requires Ready(s, p, h, 9)
  {
    var sig :- Local(s, p, h);
    var d :- SecondDecommit(s, p, h);
    CheckPhase5D(sig,
      InsertAt(DecomDs(s, h), p, d),
      InsertAt(ComDs(s, h), p, CommitD(d)),
      InsertAt(DecomAs(s, h), p, MakePhase5A(sig, s.own[p].blindA, Q(s))), Q(s))
  }

  // What p sends to d in round r.
  function Post(s: Session, p: nat, r: nat, d: nat, h: seq<seq<Msg>>): Option<Msg> {
    if !Ready(s, p, h, r) || |h| != r || d >= N(s) then None
    else match r
      case 0 => Some(Round0(File(s, p).partyId))
      case 1 => Some(Round1(Commitment(GGamma(s, p), s.own[p].blind), MakeA(s.own[p].k, KeyAt(s, s.signers[p]))))
      case 2 =>
        if d == p then None
        else
          var c := if d < p then d else d - 1;
          var v := SignersVec(s, p, h);
          Some(Round2(ReplyGamma(s, p, c, v, h[1][c].a).0, ReplyW(s, p, c, v, h[1][c].a).0))
      case 3 =>
        var ds :- DeltaSigma(s, p, h);
        Some(Round3(ds.0))
      case 4 =>
        var inv :- DeltaInv(s, p, h);
        Some(Round4(SignDecommit(s.own[p].blind, GGamma(s, p))))
      case 5 =>
        var sig :- Local(s, p, h);
        Some(Round5(CommitA(MakePhase5A(sig, s.own[p].blindA, Q(s)))))
      case 6 =>
        var sig :- Local(s, p, h);
        Some(Round6(MakePhase5A(sig, s.own[p].blindA, Q(s)), ProvePhase5A(sig)))
      case 7 =>
        var dd :- SecondDecommit(s, p, h);
        Some(Round7(CommitD(dd)))
      case 8 =>
        var dd :- SecondDecommit(s, p, h);
        Some(Round8(dd))
      case 9 =>
        var si :- Released(s, p, h);
        Some(Round9(si))
      case _ => None
  }

  function Output(s: Session, p: nat, h: seq<seq<Msg>>): Option<Signature> {
    if !Ready(s, p, h, 10) then None
    else
      var sig :- Local(s, p, h);
      OutputSignature(sig, Shares(s, h), s.g.xcoor, Q(s))
  }

  function TheProtocol(s: Session): Protocol<Msg> {
    Protocol(N(s), 10, (r: nat) => r == 2, (p: nat, r: nat, d: nat, h: seq<seq<Msg>>) => Post(s, p, r, d, h))
  }

  // === the values of an honest session ==================================================

  function WOf(s: Session, p: nat): nat
    requires Shaped(s) && p < N(s)
  {
    W(s, p, s.signers)
  }

  // Signer i's reply to signer j, and both sides' shares.
  function HonestReplyGamma(s: Session, i: nat, j: nat): (MessageB, nat)
    requires Shaped(s) && i < N(s) && j < N(s)
  {
    var ek := KeyAt(s, s.signers[j]);
    MakeB(s.own[i].gamma, ek, MakeA(s.own[j].k, ek), s.own[i].maskGamma[j], Q(s))
  }

  function HonestReplyW(s: Session, i: nat, j: nat): (MessageB, nat)
    requires Shaped(s) && i < N(s) && j < N(s)
  {
    var ek := KeyAt(s, s.signers[j]);
    MakeB(WOf(s, i), ek, MakeA(s.own[j].k, ek), s.own[i].maskW[j], Q(s))
  }

  // Neither conversion between p and any peer loses anything to the reduction modulo N.
  predicate LiftableAt(s: Session, p: nat, i: nat)
    requires Shaped(s) && p < N(s) && i < N(s)
  {
    && Liftable(Plaintext(s.own[p].k, s.own[i].gamma, s.own[i].maskGamma[p]), KeyAt(s, s.signers[p]).n, Q(s))
    && Liftable(Plaintext(s.own[p].k, WOf(s, i), s.own[i].maskW[p]), KeyAt(s, s.signers[p]).n, Q(s))
  }

  ghost predicate AllLiftable(s: Session)
    requires Shaped(s)
  {
    forall p: nat, i: nat :: p < N(s) && i < N(s) && i != p ==> LiftableAt(s, p, i)
  }

  function KF(s: Session): nat -> int { (p: nat) => if p < |s.own| then s.own[p].k else 0 }
  function GammaF(s: Session): nat -> int { (p: nat) => if p < |s.own| then s.own[p].gamma else 0 }
  function WF(s: Session): nat -> int { (p: nat) => if Shaped(s) && p < N(s) then WOf(s, p) else 0 }
  function MaskGammaF(s: Session): (nat, nat) -> int {
    (i: nat, j: nat) => if i < |s.own| && j < |s.own[i].maskGamma| then s.own[i].maskGamma[j] else 0
  }
  function MaskWF(s: Session): (nat, nat) -> int {
    (i: nat, j: nat) => if i < |s.own| && j < |s.own[i].maskW| then s.own[i].maskW[j] else 0
  }

  function AlphaOf(s: Session, p: nat): nat -> nat {
    (i: nat) => if Shaped(s) && p < N(s) && i < N(s) then Mod(Plaintext(s.own[p].k, s.own[i].gamma, s.own[i].maskGamma[p]), Q(s)) else 0
  }
  function MiuOf(s: Session, p: nat): nat -> nat {
    (i: nat) => if Shaped(s) && p < N(s) && i < N(s) then Mod(Plaintext(s.own[p].k, WOf(s, i), s.own[i].maskW[p]), Q(s)) else 0
  }
  function BetaOf(s: Session, p: nat): nat -> nat {
    (i: nat) => if Shaped(s) && p < N(s) && i < N(s) then HonestReplyGamma(s, p, i).1 else 0
  }
  function NiOf(s: Session, p: nat): nat -> nat {
    (i: nat) => if Shaped(s) && p < N(s) && i < N(s) then HonestReplyW(s, p, i).1 else 0
  }

  function GetOr0(v: Option<nat>): nat { match v case Some(x) => x case None => 0 }

  // delta_p and sigma_p.
  function DeltaAt(s: Session, p: nat): nat
    requires Shaped(s) && p < N(s)
  {
    GetOr0(Phase2(s.own[p].k, s.own[p].gamma, Polled(N(s), p, AlphaOf(s, p)), Polled(N(s), p, BetaOf(s, p)), Q(s)))
  }
  function SigmaAt(s: Session, p: nat): nat
    requires Shaped(s) && p < N(s)
  {
    GetOr0(Phase2(s.own[p].k, WOf(s, p), Polled(N(s), p, MiuOf(s, p)), Polled(N(s), p, NiOf(s, p)), Q(s)))
  }
  function DeltaF(s: Session): nat -> nat { (p: nat) => if Shaped(s) && p < N(s) then DeltaAt(s, p) else 0 }
  function SigmaF(s: Session): nat -> nat { (p: nat) => if Shaped(s) && p < N(s) then SigmaAt(s, p) else 0 }

  // The same, as summands.
  function DeltaI(s: Session): nat -> int { (p: nat) => DeltaF(s)(p) }
  function SigmaI(s: Session): nat -> int { (p: nat) => SigmaF(s)(p) }

  function DeltaSum(s: Session): nat { FoldAdd(0, Tabulate(N(s), DeltaF(s)), Q(s)) }

  function TheR(s: Session): Point { Point(Mod(Sum(N(s), GammaF(s)) * Inv(DeltaSum(s), Q(s)), Q(s))) }

  function TheRx(s: Session): nat { Mod(s.g.xcoor(TheR(s).log), Q(s)) }

  function TheY(s: Session): Point
    requires Shaped(s)
  {
    MulPoint(GENERATOR, KeyGen.GroupPoly(s.g)[0], Q(s))
  }

  function SigOf(s: Session, p: nat): LocalSignature
    requires Shaped(s) && p < N(s)
  {
    LocalSignature(s.own[p].l, s.own[p].rho, TheR(s),
      Mod(Mod(Mod(s.m, Q(s)) * s.own[p].k, Q(s)) + Mod(TheRx(s) * SigmaF(s)(p), Q(s)), Q(s)), s.m, TheY(s))
  }

  function SignerAt(s: Session, p: nat): Signer
    requires Shaped(s) && p < N(s)
  {
    Signer(SigOf(s, p), s.own[p].blindA, s.own[p].blindD)
  }

  function TheSigners(s: Session): (v: seq<Signer>)
    requires Shaped(s)
    ensures |v| == N(s) && forall p :: 0 <= p < |v| ==> v[p] == SignerAt(s, p)
  {
    seq(N(s), p requires 0 <= p < N(s) => SignerAt(s, p))
  }

  // The message that an honest signer p sends to d in round r.
  function HonestMsg(s: Session, p: nat, r: nat, d: nat): Msg
    requires Shaped(s) && p < N(s) && d < N(s)
  {
    var v := TheSigners(s);
    match r
    case 0 => Round0(s.signers[p] + 1)
    case 1 => Round1(Commitment(GGamma(s, p), s.own[p].blind), MakeA(s.own[p].k, KeyAt(s, s.signers[p])))
    case 2 => Round2(HonestReplyGamma(s, p, d).0, HonestReplyW(s, p, d).0)
    case 3 => Round3(DeltaF(s)(p))
    case 4 => Round4(SignDecommit(s.own[p].blind, GGamma(s, p)))
    case 5 => Round5(ComAOf(v, Q(s))(p))
    case 6 => Round6(AOf(v, Q(s))(p), ProofOf(v)(p))
    case 7 => Round7(ComDOf(v, s.g.xcoor, Q(s))(p))
    case 8 => Round8(DOf(v, s.g.xcoor, Q(s))(p))
    case _ => Round9(SigOf(s, p).s)
  }

  function Honest(s: Session): (nat, nat, nat) -> Msg {
    (p: nat, r: nat, d: nat) => if Shaped(s) && p < N(s) && d < N(s) then HonestMsg(s, p, r, d) else Round0(0)
  }

  ghost predicate HonestAt(s: Session, p: nat, r: nat, k: nat, m: Msg)
    requires Shaped(s) && p < N(s) && k < N(s) - 1
  {
    m == HonestMsg(s, Peer(p, k), r, if r == 2 then p else Peer(p, k))
  }

  // h is what p has polled so far when the others are honest.
  ghost predicate HonestSoFar(s: Session, p: nat, h: seq<seq<Msg>>)
    requires Shaped(s) && p < N(s)
  {
    |h| <= 10 && forall r: nat :: r < |h| ==> |h[r]| == N(s) - 1 && forall k: nat :: k < N(s) - 1 ==> HonestAt(s, p, r, k, h[r][k])
  }

  lemma {:induction false} HistoryHonest(s: Session, p: nat, r: nat)
    requires Shaped(s) && p < N(s) && r <= 10
    ensures HonestSoFar(s, p, History(TheProtocol(s), Honest(s), p, r))
  {
    var h: seq<seq<Msg>> := History(TheProtocol(s), Honest(s), p, r);
    forall i: nat, k: nat | i < r && k < N(s) - 1 ensures HonestAt(s, p, i, k, h[i][k]) {
      assert h[i][k] == From(TheProtocol(s), Honest(s), i, p)(Peer(p, k));
    }
  }

  lemma {:induction false} HonestTyped(s: Session, p: nat, h: seq<seq<Msg>>)
    requires Shaped(s) && p < N(s) && HonestSoFar(s, p, h)
    ensures Typed(s, h) && (|h| > 0 ==> Known(s, h))
  {
    forall r: nat, k: nat | r < |h| && k < N(s) - 1 ensures OfRound(h[r][k], r) {
      assert HonestAt(s, p, r, k, h[r][k]);
    }
  }

  // === rounds 0 to 3 ====================================================================

  lemma {:induction false} HonestSigners(s: Session, p: nat, h: seq<seq<Msg>>)
    requires Ready(s, p, h, 1) && HonestSoFar(s, p, h)
    ensures SignersVec(s, p, h) == s.signers
  {
    var f: nat -> nat := (i: nat) => if i < |s.signers| then s.signers[i] else 0;
    var v := seq(N(s) - 1, k requires 0 <= k < N(s) - 1 => h[0][k].id - 1);
    forall k: nat | k < N(s) - 1 ensures v[k] == f(Peer(p, k)) {
      assert HonestAt(s, p, 0, k, h[0][k]);
    }
    InsertMapped(N(s), p, v, f);
    assert s.signers == Tabulate(N(s), f);
  }

  lemma {:induction false} HonestBetas(s: Session, p: nat, h: seq<seq<Msg>>)
    requires Ready(s, p, h, 2) && HonestSoFar(s, p, h)
    ensures Betas(s, p, h) == Polled(N(s), p, BetaOf(s, p))
    ensures Nis(s, p, h) == Polled(N(s), p, NiOf(s, p))
  {
    HonestSigners(s, p, h);
    forall c: nat | c < N(s) - 1
      ensures Betas(s, p, h)[c] == BetaOf(s, p)(Peer(p, c)) && Nis(s, p, h)[c] == NiOf(s, p)(Peer(p, c))
    {
      assert HonestAt(s, p, 1, c, h[1][c]);
    }
  }

  // The share commitment of signer i, re-mapped to this session, is the point of its w_i.
  lemma {:induction false} HonestCommitment(s: Session, p: nat, i: nat)
    requires WellFormed(s) && p < N(s) && i < N(s)
    ensures KeyGen.GetCommitmentsToXi(File(s, p).schemes, Q(s)).Some? && |KeyGen.GetCommitmentsToXi(File(s, p).schemes, Q(s)).value| == s.g.n
    ensures KeyGen.UpdateCommitmentsToXi(KeyGen.GetCommitmentsToXi(File(s, p).schemes, Q(s)).value[s.signers[i]], s.signers[i], s.signers, Q(s))
         == MulPoint(GENERATOR, WOf(s, i), Q(s))
  {
    hide Mod, KeyGen.GetCommitmentsToXi, KeyGen.UpdateCommitmentsToXi, ShareFor, MapShareToNewParams;
    KeyGen.SchemesCommit(s.g);
    KeyGen.CommitmentsToXiAre(File(s, p).schemes, s.g.t, Q(s));
    KeyGen.UpdatedCommitmentIs(ShareFor(KeyGen.GroupPoly(s.g), s.signers[i] + 1, Q(s)), s.signers[i], s.signers, Q(s));
    var j := s.signers[i] + 1;
    assert KeyGen.GetCommitmentsToXi(File(s, p).schemes, Q(s)).value[j - 1] == MulPoint(GENERATOR, ShareFor(KeyGen.GroupPoly(s.g), j, Q(s)), Q(s));
  }

  lemma {:induction false} HonestAlphaMiu(s: Session, p: nat, h: seq<seq<Msg>>, c: nat)
    requires WellFormed(s) && Ready(s, p, h, 3) && HonestSoFar(s, p, h) && c < N(s) - 1
    ensures AlphaMiu(s, p, h, c)
         == if LiftableAt(s, p, Peer(p, c)) then Some((AlphaOf(s, p)(Peer(p, c)), MiuOf(s, p)(Peer(p, c)))) else None
  {
    hide Mod, Signers, KeyGen.Completes, WOf, W;
    var i := Peer(p, c);
    var ek := KeyAt(s, s.signers[p]);
    HonestSigners(s, p, h);
    assert HonestAt(s, p, 2, c, h[2][c]);
    AlphaExact(s.own[p].k, s.own[i].gamma, s.own[i].maskGamma[p], ek, Q(s));
    AlphaExact(s.own[p].k, WOf(s, i), s.own[i].maskW[p], ek, Q(s));
    HonestCommitment(s, p, i);
  }

  ghost predicate LiftableFor(s: Session, p: nat)
    requires Shaped(s) && p < N(s)
  {
    forall i: nat :: i < N(s) && i != p ==> LiftableAt(s, p, i)
  }

  lemma {:induction false} HonestAlphaMius(s: Session, p: nat, h: seq<seq<Msg>>)
    requires WellFormed(s) && Ready(s, p, h, 3) && HonestSoFar(s, p, h)
    ensures AlphaMius(s, p, h).Some? <==> LiftableFor(s, p)
    ensures AlphaMius(s, p, h).Some? ==>
      && Firsts(AlphaMius(s, p, h).value) == Polled(N(s), p, AlphaOf(s, p))
      && Seconds(AlphaMius(s, p, h).value) == Polled(N(s), p, MiuOf(s, p))
  {
    hide AlphaMiu, AlphaOf, MiuOf, LiftableAt, HonestSoFar, Typed;
    forall c: nat | c < N(s) - 1
      ensures AlphaMiu(s, p, h, c)
           == if LiftableAt(s, p, Peer(p, c)) then Some((AlphaOf(s, p)(Peer(p, c)), MiuOf(s, p)(Peer(p, c)))) else None
    {
      HonestAlphaMiu(s, p, h, c);
    }
    if !LiftableFor(s, p) {
      var i: nat :| i < N(s) && i != p && !LiftableAt(s, p, i);
      var c := PeerAt(p, i);
      assert AlphaMiu(s, p, h, c).None?;
    }
  }

  lemma {:induction false} Phase2Some(k: nat, g: nat, alphas: seq<nat>, betas: seq<nat>, q: pos)
    requires |alphas| == |betas|
    ensures Phase2(k, g, alphas, betas, q) == Some(GetOr0(Phase2(k, g, alphas, betas, q)))
  {
  }

  lemma {:induction false} HonestDeltaSigma(s: Session, p: nat, h: seq<seq<Msg>>)
    requires WellFormed(s) && Ready(s, p, h, 3) && HonestSoFar(s, p, h)
    ensures DeltaSigma(s, p, h) == if LiftableFor(s, p) then Some((DeltaF(s)(p), SigmaF(s)(p))) else None
  {
    hide AlphaMius, Firsts, Seconds, Betas, Nis, AlphaOf, MiuOf, BetaOf, NiOf, LiftableFor, HonestSoFar, Typed,
      W, Phase2, SignersVec, KeyGen.Completes, KeyGen.WellFormed, Polled, Signers, GetOr0;
    HonestAlphaMius(s, p, h);
    HonestBetas(s, p, h);
    HonestSigners(s, p, h);
    Phase2Some(s.own[p].k, s.own[p].gamma, Polled(N(s), p, AlphaOf(s, p)), Polled(N(s), p, BetaOf(s, p)), Q(s));
    Phase2Some(s.own[p].k, WOf(s, p), Polled(N(s), p, MiuOf(s, p)), Polled(N(s), p, NiOf(s, p)), Q(s));
  }

  // === the sums =========================================================================

  lemma {:induction false} AlphaBeta(s: Session, p: nat, i: nat)
    requires Shaped(s) && p < N(s) && i < N(s)
    ensures Cong(AlphaOf(s, p)(i), KF(s)(p) * GammaF(s)(i) + MaskGammaF(s)(i, p), Q(s))
    ensures Cong(BetaOf(s, p)(i), 0 - MaskGammaF(s)(p, i), Q(s))
  {
    hide Mod;
    CongMod(Plaintext(s.own[p].k, s.own[i].gamma, s.own[i].maskGamma[p]), Q(s));
    BetaIs(s.own[p].maskGamma[i], Q(s));
  }

  lemma {:induction false} MiuNi(s: Session, p: nat, i: nat)
    requires Shaped(s) && p < N(s) && i < N(s)
    ensures Cong(MiuOf(s, p)(i), KF(s)(p) * WF(s)(i) + MaskWF(s)(i, p), Q(s))
    ensures Cong(NiOf(s, p)(i), 0 - MaskWF(s)(p, i), Q(s))
  {
    hide Mod, WOf;
    CongMod(Plaintext(s.own[p].k, WOf(s, i), s.own[i].maskW[p]), Q(s));
    BetaIs(s.own[p].maskW[i], Q(s));
  }

  lemma {:induction false} DeltaShare(s: Session, p: nat)
    requires Shaped(s) && p < N(s)
    ensures Cong(DeltaF(s)(p), PartyTotal(N(s), KF(s), GammaF(s), MaskGammaF(s))(p), Q(s))
  {
    hide Mod, AlphaOf, BetaOf, Phase2, PartyTotal, MaskGammaF;
    forall c: nat | c < N(s) - 1
      ensures Cong(AlphaOf(s, p)(Peer(p, c)), KF(s)(p) * GammaF(s)(Peer(p, c)) + MaskGammaF(s)(Peer(p, c), p), Q(s))
      ensures Cong(BetaOf(s, p)(Peer(p, c)), 0 - MaskGammaF(s)(p, Peer(p, c)), Q(s))
    {
      AlphaBeta(s, p, Peer(p, c));
    }
    Phase2Value(N(s), p, KF(s), GammaF(s), MaskGammaF(s), s.own[p].k, s.own[p].gamma,
                Polled(N(s), p, AlphaOf(s, p)), Polled(N(s), p, BetaOf(s, p)), Q(s));
  }

  lemma {:induction false} SigmaShare(s: Session, p: nat)
    requires Shaped(s) && p < N(s)
    ensures Cong(SigmaF(s)(p), PartyTotal(N(s), KF(s), WF(s), MaskWF(s))(p), Q(s))
  {
    hide Mod, MiuOf, NiOf, Phase2, PartyTotal, MaskWF, WOf;
    forall c: nat | c < N(s) - 1
      ensures Cong(MiuOf(s, p)(Peer(p, c)), KF(s)(p) * WF(s)(Peer(p, c)) + MaskWF(s)(Peer(p, c), p), Q(s))
      ensures Cong(NiOf(s, p)(Peer(p, c)), 0 - MaskWF(s)(p, Peer(p, c)), Q(s))
    {
      MiuNi(s, p, Peer(p, c));
    }
    Phase2Value(N(s), p, KF(s), WF(s), MaskWF(s), s.own[p].k, WOf(s, p),
                Polled(N(s), p, MiuOf(s, p)), Polled(N(s), p, NiOf(s, p)), Q(s));
  }

  // The sum of all delta_i is (sum k)(sum gamma).
  lemma {:induction false} DeltasSum(s: Session)
    requires Shaped(s)
    ensures Cong(DeltaSum(s), Sum(N(s), KF(s)) * Sum(N(s), GammaF(s)), Q(s))
  {
    hide Mod, DeltaF, KF, GammaF, MaskGammaF, PartyTotal;
    var d := PartyTotal(N(s), KF(s), GammaF(s), MaskGammaF(s));
    forall p: nat | p < N(s) ensures Cong(DeltaI(s)(p), d(p), Q(s)) {
      DeltaShare(s, p);
    }
    SumCong(N(s), DeltaI(s), d, Q(s));
    PairwiseSum(N(s), KF(s), GammaF(s), MaskGammaF(s));
    FoldAddIsSum(0, Tabulate(N(s), DeltaF(s)), DeltaI(s), Q(s));
  }

  // The sum of all w_i is the group's secret ...
  lemma {:induction false} WeightsSum(s: Session)
    requires WellFormed(s)
    ensures Cong(Sum(N(s), WF(s)), KeyGen.GroupPoly(s.g)[0], Q(s))
  {
    hide Mod;
    var f := KeyGen.GroupPoly(s.g);
    RemappedSharesSum(f, s.signers, s.g.n, Q(s));
    forall p: nat | p < N(s) ensures Cong(WF(s)(p), Remapped(f, s.signers, Q(s))(p), Q(s)) {
      CongMod(MapShareToNewParams(s.signers[p], s.signers, Q(s)) * ShareFor(f, s.signers[p] + 1, Q(s)), Q(s));
    }
    SumCong(N(s), WF(s), Remapped(f, s.signers, Q(s)), Q(s));
  }

  function WPoint(s: Session): nat -> Point {
    (p: nat) => MulPoint(GENERATOR, if Shaped(s) && p < N(s) then WOf(s, p) else 0, Q(s))
  }

  // ... so their points add up to the public key ...
  lemma {:induction false} WeightPointsSum(s: Session)
    requires WellFormed(s)
    ensures SumPoints(Tabulate(N(s), WPoint(s)), Q(s)) == Some(TheY(s))
  {
    hide Mod, WOf, KeyGen.WellFormed, KeyGen.Completes, Signers, Sum;
    var v := Tabulate(N(s), WPoint(s));
    forall p: nat | p < N(s) ensures v[p].log < Q(s) && Cong(v[p].log, WF(s)(p), Q(s)) {
      CongMod(WOf(s, p), Q(s));
    }
    SumPointsIsSum(v, WF(s), Q(s));
    WeightsSum(s);
  }

  // ... and the sum of all sigma_i is (sum k) times it.
  lemma {:induction false} SigmasSum(s: Session)
    requires WellFormed(s)
    ensures Cong(Sum(N(s), SigmaI(s)), Sum(N(s), KF(s)) * KeyGen.GroupPoly(s.g)[0], Q(s))
  {
    hide Mod;
    WeightsSum(s);
    SigmasSumW(s);
    CongScale(Sum(N(s), KF(s)), Sum(N(s), WF(s)), KeyGen.GroupPoly(s.g)[0], Q(s));
  }

  lemma {:induction false} SigmasSumW(s: Session)
    requires Shaped(s)
    ensures Cong(Sum(N(s), SigmaI(s)), Sum(N(s), KF(s)) * Sum(N(s), WF(s)), Q(s))
  {
    hide Mod, SigmaF, KF, WF, MaskWF, PartyTotal;
    var d := PartyTotal(N(s), KF(s), WF(s), MaskWF(s));
    forall p: nat | p < N(s) ensures Cong(SigmaI(s)(p), d(p), Q(s)) {
      SigmaShare(s, p);
    }
    SumCong(N(s), SigmaI(s), d, Q(s));
    PairwiseSum(N(s), KF(s), WF(s), MaskWF(s));
  }

  // Neither sum of nonce shares vanishes.
  ghost predicate NonceExists(s: Session) {
    Mod(Sum(N(s), KF(s)), Q(s)) != 0 && Mod(Sum(N(s), GammaF(s)), Q(s)) != 0
  }

  lemma {:induction false} DeltaSumNonZero(s: Session)
    requires WellFormed(s)
    ensures Mod(DeltaSum(s), Q(s)) != 0 <==> NonceExists(s)
    ensures NonceExists(s) ==> Cong(TheR(s).log * Sum(N(s), KF(s)), 1, Q(s)) && 0 < TheR(s).log < Q(s)
  {
    hide Mod, DeltaSum;
    DeltasSum(s);
    ProductZero(Sum(N(s), KF(s)), Sum(N(s), GammaF(s)), Q(s));
    if NonceExists(s) {
      NonceInverts(Sum(N(s), KF(s)), Sum(N(s), GammaF(s)), DeltaSum(s), TheR(s).log, Q(s));
      KNonZero(Sum(N(s), KF(s)), TheR(s).log, Q(s));
      ModSmall(TheR(s).log, Q(s));
    }
  }

  // === rounds 4 and 5 ===================================================================

  lemma {:induction false} HonestDeltaInv(s: Session, p: nat, h: seq<seq<Msg>>)
    requires WellFormed(s) && Ready(s, p, h, 4) && HonestSoFar(s, p, h)
    ensures DeltaInv(s, p, h) == if LiftableFor(s, p) && NonceExists(s) then Some(Inv(DeltaSum(s), Q(s))) else None
  {
    hide DeltaF, SigmaF, Mod, LiftableFor;
    HonestDeltaSigma(s, p, h);
    DeltaSumNonZero(s);
    var v := Deltas(s, h);
    forall k: nat | k < N(s) - 1 ensures v[k] == DeltaF(s)(Peer(p, k)) {
      assert HonestAt(s, p, 3, k, h[3][k]);
    }
    InsertMapped(N(s), p, v, DeltaF(s));
  }

  lemma {:induction false} HonestPhase4(s: Session, p: nat, h: seq<seq<Msg>>, deltaInv: nat)
    requires WellFormed(s) && Ready(s, p, h, 5) && HonestSoFar(s, p, h)
    ensures Phase4(deltaInv, GammaProofs(s, h), GammaDecommits(s, h), GammaComs(s, h), Q(s)).Some? <==> N(s) > 1
    ensures N(s) > 1 ==>
      AddPoints(Phase4(deltaInv, GammaProofs(s, h), GammaDecommits(s, h), GammaComs(s, h), Q(s)).value, MulPoint(GGamma(s, p), deltaInv, Q(s)), Q(s))
      == Point(Mod(Sum(N(s), GammaF(s)) * deltaInv, Q(s)))
  {
    hide Mod, GGamma, SumPoints, MulPoint, AddPoints, Sum, Signers, KeyGen.WellFormed, KeyGen.Completes, HonestSoFar, Typed;
    var proofs, decommits, coms := GammaProofs(s, h), GammaDecommits(s, h), GammaComs(s, h);
    forall k: nat | k < N(s) - 1
      ensures proofs[k].pk == decommits[k].gGamma == GGamma(s, Peer(p, k))
      ensures coms[k] == Commitment(decommits[k].gGamma, decommits[k].blind)
    {
      HonestGammas(s, p, h, k);
    }
    var gammas := seq(|decommits|, i requires 0 <= i < |decommits| => decommits[i].gGamma);
    if N(s) > 1 {
      GammaPoints(s, p, gammas, deltaInv);
    }
  }

  lemma {:induction false} HonestGammas(s: Session, p: nat, h: seq<seq<Msg>>, k: nat)
    requires Ready(s, p, h, 5) && HonestSoFar(s, p, h) && k < N(s) - 1
    ensures GammaProofs(s, h)[k].pk == GammaDecommits(s, h)[k].gGamma == GGamma(s, Peer(p, k))
    ensures GammaComs(s, h)[k] == Commitment(GammaDecommits(s, h)[k].gGamma, GammaDecommits(s, h)[k].blind)
  {
    hide Mod;
    assert HonestAt(s, p, 1, k, h[1][k]);
    assert HonestAt(s, p, 2, k, h[2][k]);
    assert HonestAt(s, p, 4, k, h[4][k]);
  }

  lemma {:induction false} GammaPoints(s: Session, p: nat, gammas: seq<Point>, deltaInv: nat)
    requires Shaped(s) && p < N(s) && N(s) > 1 && |gammas| == N(s) - 1
    requires forall k: nat :: k < N(s) - 1 ==> gammas[k] == GGamma(s, Peer(p, k))
    ensures SumPoints(gammas, Q(s)).Some?
    ensures AddPoints(MulPoint(SumPoints(gammas, Q(s)).value, deltaInv, Q(s)), MulPoint(GGamma(s, p), deltaInv, Q(s)), Q(s))
         == Point(Mod(Sum(N(s), GammaF(s)) * deltaInv, Q(s)))
  {
    hide Mod;
    forall i: nat | i < N(s) ensures GGamma(s, i).log < Q(s) && Cong(GGamma(s, i).log, GammaF(s)(i), Q(s)) {
      CongMod(s.own[i].gamma, Q(s));
    }
    NonceIs(N(s), p, GammaF(s), gammas, GGamma(s, p), deltaInv, Q(s));
  }

  // The session gets past the nonce: at least two signers, every conversion lossless, and
  // an invertible nonce.
  ghost predicate Completes(s: Session)
    requires Shaped(s)
  {
    N(s) > 1 && AllLiftable(s) && NonceExists(s)
  }

  lemma {:induction false} HonestLocal(s: Session, p: nat, h: seq<seq<Msg>>)
    requires WellFormed(s) && Ready(s, p, h, 5) && HonestSoFar(s, p, h)
    ensures N(s) == 1 ==> Local(s, p, h) == None
    ensures Completes(s) ==> Local(s, p, h) == Some(SigOf(s, p)) && RCoordinate(TheR(s), s.g.xcoor, Q(s)) == Some(TheRx(s))
  {
    hide DeltaF, SigmaF, Mod, DeltaSum, Phase4, GammaProofs, GammaDecommits, GammaComs, DeltaInv, DeltaSigma;
    HonestDeltaInv(s, p, h);
    HonestDeltaSigma(s, p, h);
    DeltaSumNonZero(s);
    if DeltaInv(s, p, h).Some? {
      HonestPhase4(s, p, h, Inv(DeltaSum(s), Q(s)));
    }
  }

  // === the signature ====================================================================

  lemma {:induction false} SameSignature(s: Session)
    requires Shaped(s)
    ensures SameSession(TheSigners(s), TheR(s), s.m, TheY(s))
  {
  }

  // The group's secret key, and what the signature has to contain.
  function Secret(s: Session): nat
    requires Shaped(s)
  {
    KeyGen.GroupPoly(s.g)[0]
  }

  function MessageTerm(s: Session): int
    requires Shaped(s)
  {
    s.m + TheRx(s) * Secret(s)
  }

  // The equation every honest share satisfies.
  lemma {:induction false} SignatureSum(s: Session)
    requires WellFormed(s)
    ensures Cong(Sum(N(s), SOf(TheSigners(s))), Sum(N(s), KF(s)) * MessageTerm(s), Q(s))
  {
    hide Mod, SigmaF, TheR, TheRx, TheY, Sum, FoldAdd;
    forall i: nat | i < N(s) ensures Cong(SOf(TheSigners(s))(i), s.m * KF(s)(i) + TheRx(s) * SigmaI(s)(i), Q(s)) {
      SignatureShareIs(s.own[i].k, s.m, TheRx(s), SigmaF(s)(i), Q(s));
    }
    SigmasSum(s);
    SharesAddUp(N(s), KF(s), SigmaI(s), SOf(TheSigners(s)), s.m, TheRx(s), Secret(s), Q(s));
  }

  // The signed combination: R times the sum of the shares is m + r*x.
  lemma {:induction false} SignedMessage(R: int, k: int, S: int, e: int, f: int, q: pos)
    requires Cong(R * k, 1, q) && Cong(S, k * e, q) && Cong(e, f, q)
    ensures Cong(R * S, f, q)
  {
    hide Mod;
    CongScale(R, S, k * e, q);
    Associate(R, k, e);
    CongMul(R * k, 1, e, e, q);
  }

  lemma {:induction false} MessageTermInExponent(m: nat, r: nat, x: nat, q: pos)
    ensures Cong(m + r * x, m + r * MulPoint(GENERATOR, x, q).log, q)
  {
    hide Mod;
    CongMod(x, q);
    CongScale(r, x, Mod(1 * x, q), q);
    CongAdd(m, m, r * x, r * Mod(1 * x, q), q);
  }

  // Honest shares pass the test of phase 5.
  lemma {:induction false} HonestBalance(s: Session)
    requires WellFormed(s) && NonceExists(s)
    ensures Cong(TheR(s).log * Sum(N(s), SOf(TheSigners(s))), s.m + TheRx(s) * TheY(s).log, Q(s))
  {
    hide Mod, Cong, TheR, TheRx, TheY, KF, SOf, Sum, TheSigners, MessageTerm, NonceExists, KeyGen.WellFormed, KeyGen.Completes, Signers;
    SignatureSum(s);
    DeltaSumNonZero(s);
    MessageTermOf(s);
    SignedMessageOf(s);
  }

  lemma {:induction false} MessageTermOf(s: Session)
    requires Shaped(s)
    ensures Cong(MessageTerm(s), s.m + TheRx(s) * TheY(s).log, Q(s))
  {
    hide Mod, TheRx, Cong;
    MessageTermInExponent(s.m, TheRx(s), Secret(s), Q(s));
  }

  lemma {:induction false} SignedMessageOf(s: Session)
    requires Shaped(s)
    requires Cong(TheR(s).log * Sum(N(s), KF(s)), 1, Q(s))
    requires Cong(Sum(N(s), SOf(TheSigners(s))), Sum(N(s), KF(s)) * MessageTerm(s), Q(s))
    requires Cong(MessageTerm(s), s.m + TheRx(s) * TheY(s).log, Q(s))
    ensures Cong(TheR(s).log * Sum(N(s), SOf(TheSigners(s))), s.m + TheRx(s) * TheY(s).log, Q(s))
  {
    hide *;
    SignedMessage(TheR(s).log, Sum(N(s), KF(s)), Sum(N(s), SOf(TheSigners(s))), MessageTerm(s), s.m + TheRx(s) * TheY(s).log, Q(s));
  }

  // === rounds 6 to 10 ===================================================================

  lemma {:induction false} HonestFirstVectors(s: Session, p: nat, h: seq<seq<Msg>>)
    requires Ready(s, p, h, 7) && HonestSoFar(s, p, h)
    ensures var v := TheSigners(s);
      && DecomAs(s, h) == Polled(N(s), p, AOf(v, Q(s)))
      && ComAs(s, h) == Polled(N(s), p, ComAOf(v, Q(s)))
      && ElGamals(s, h) == Polled(N(s), p, ProofOf(v))
      && InsertAt(DecomAs(s, h), p, AOf(v, Q(s))(p)) == Tabulate(N(s), AOf(v, Q(s)))
  {
    hide AOf, ComAOf, ProofOf, Mod;
    var v := TheSigners(s);
    forall k: nat | k < N(s) - 1
      ensures DecomAs(s, h)[k] == AOf(v, Q(s))(Peer(p, k))
      ensures ComAs(s, h)[k] == ComAOf(v, Q(s))(Peer(p, k))
      ensures ElGamals(s, h)[k] == ProofOf(v)(Peer(p, k))
    {
      assert HonestAt(s, p, 5, k, h[5][k]);
      assert HonestAt(s, p, 6, k, h[6][k]);
    }
    InsertMapped(N(s), p, DecomAs(s, h), AOf(v, Q(s)));
  }

  lemma {:induction false} HonestSecondVectors(s: Session, p: nat, h: seq<seq<Msg>>)
    requires Ready(s, p, h, 9) && HonestSoFar(s, p, h)
    ensures var v := TheSigners(s);
      && InsertAt(DecomDs(s, h), p, DOf(v, s.g.xcoor, Q(s))(p)) == Tabulate(N(s), DOf(v, s.g.xcoor, Q(s)))
      && InsertAt(ComDs(s, h), p, ComDOf(v, s.g.xcoor, Q(s))(p)) == Tabulate(N(s), ComDOf(v, s.g.xcoor, Q(s)))
  {
    hide DOf, ComDOf, Mod;
    var v := TheSigners(s);
    forall k: nat | k < N(s) - 1
      ensures DecomDs(s, h)[k] == DOf(v, s.g.xcoor, Q(s))(Peer(p, k))
      ensures ComDs(s, h)[k] == ComDOf(v, s.g.xcoor, Q(s))(Peer(p, k))
    {
      assert HonestAt(s, p, 7, k, h[7][k]);
      assert HonestAt(s, p, 8, k, h[8][k]);
    }
    InsertMapped(N(s), p, DecomDs(s, h), DOf(v, s.g.xcoor, Q(s)));
    InsertMapped(N(s), p, ComDs(s, h), ComDOf(v, s.g.xcoor, Q(s)));
  }

  lemma {:induction false} OwnFirst(s: Session, p: nat)
    requires Shaped(s) && p < N(s)
    ensures AOf(TheSigners(s), Q(s))(p) == MakePhase5A(SigOf(s, p), s.own[p].blindA, Q(s))
    ensures ComAOf(TheSigners(s), Q(s))(p) == CommitA(AOf(TheSigners(s), Q(s))(p))
    ensures ProofOf(TheSigners(s))(p) == ProvePhase5A(SigOf(s, p))
    ensures ComDOf(TheSigners(s), s.g.xcoor, Q(s))(p) == CommitD(DOf(TheSigners(s), s.g.xcoor, Q(s))(p))
  {
    hide Mod, SigOf;
  }

  lemma {:induction false} HonestSecond(s: Session, p: nat, h: seq<seq<Msg>>)
    requires WellFormed(s) && Completes(s) && Ready(s, p, h, 7) && HonestSoFar(s, p, h)
    ensures SecondDecommit(s, p, h) == Some(DOf(TheSigners(s), s.g.xcoor, Q(s))(p))
  {
    hide Mod, AOf, DOf, ComAOf, ProofOf, Phase5C, MakePhase5A, DecomAs, ComAs, ElGamals, Local, RCoordinate,
      NonceExists, AllLiftable, TheRx, TheR;
    HonestLocal(s, p, h);
    HonestFirstVectors(s, p, h);
    OwnFirst(s, p);
    SameSignature(s);
    Phase5CSucceeds(TheSigners(s), p, TheR(s), s.m, TheY(s), TheRx(s), s.g.xcoor, Q(s));
  }

  lemma {:induction false} ReleasedIs(s: Session, p: nat, h: seq<seq<Msg>>, sig: LocalSignature, d: Phase5D)
    requires Ready(s, p, h, 9) && Local(s, p, h) == Some(sig) && SecondDecommit(s, p, h) == Some(d)
    ensures Released(s, p, h) == CheckPhase5D(sig, InsertAt(DecomDs(s, h), p, d), InsertAt(ComDs(s, h), p, CommitD(d)),
                                              InsertAt(DecomAs(s, h), p, MakePhase5A(sig, s.own[p].blindA, Q(s))), Q(s))
  {
    hide Mod, InsertAt, CheckPhase5D, Local, SecondDecommit, MakePhase5A, CommitD, DecomDs, ComDs, DecomAs;
  }

  // The test of phase 5 on the honest vectors.
  lemma {:induction false} HonestCheck(s: Session, p: nat)
    requires WellFormed(s) && NonceExists(s) && N(s) > 1 && p < N(s) && RCoordinate(TheR(s), s.g.xcoor, Q(s)) == Some(TheRx(s))
    ensures var v := TheSigners(s);
      CheckPhase5D(SigOf(s, p), Tabulate(N(s), DOf(v, s.g.xcoor, Q(s))), Tabulate(N(s), ComDOf(v, s.g.xcoor, Q(s))), Tabulate(N(s), AOf(v, Q(s))), Q(s))
      == Some(SigOf(s, p).s)
  {
    hide Mod, Cong, AOf, DOf, ComDOf, SigOf, CheckPhase5D, RCoordinate, NonceExists, TheRx, TheR, TheY,
      SameSession, RhoOf, SOf, KeyGen.Completes, Signers, Shaped;
    SameSignature(s);
    HonestBalance(s);
    Phase5Exact(TheSigners(s), p, TheR(s), s.m, TheY(s), TheRx(s), s.g.xcoor, Q(s));
  }

  lemma {:induction false} HonestReleased(s: Session, p: nat, h: seq<seq<Msg>>)
    requires WellFormed(s) && Completes(s) && Ready(s, p, h, 9) && HonestSoFar(s, p, h)
    ensures Released(s, p, h) == Some(SigOf(s, p).s)
  {
    hide Mod, AOf, DOf, ComDOf, SigOf, CheckPhase5D, CommitD, MakePhase5A, Tabulate, InsertAt, DecomAs, DecomDs,
      ComDs, Local, SecondDecommit, Released, RCoordinate, NonceExists, AllLiftable, TheRx, TheR, TheSigners;
    HonestLocal(s, p, h);
    HonestSecond(s, p, h);
    ReleasedIs(s, p, h, SigOf(s, p), DOf(TheSigners(s), s.g.xcoor, Q(s))(p));
    HonestFirstVectors(s, p, h);
    HonestSecondVectors(s, p, h);
    OwnFirst(s, p);
    HonestCheck(s, p);
  }

  // What p's program sends in round r, after honest rounds.
  lemma {:induction false} HonestPost(s: Session, p: nat, r: nat, d: nat, h: seq<seq<Msg>>)
    requires WellFormed(s) && p < N(s) && d < N(s) && r < 10 && |h| == r && HonestSoFar(s, p, h)
    requires r == 2 ==> d != p
    requires r >= 6 ==> Completes(s)
    ensures r < 3 ==> Post(s, p, r, d, h) == Some(HonestMsg(s, p, r, d))
    ensures r == 3 ==> Post(s, p, r, d, h) == if LiftableFor(s, p) then Some(HonestMsg(s, p, r, d)) else None
    ensures r == 4 ==> Post(s, p, r, d, h) == if LiftableFor(s, p) && NonceExists(s) then Some(HonestMsg(s, p, r, d)) else None
    ensures r == 5 && N(s) == 1 ==> Post(s, p, r, d, h) == None
    ensures r >= 5 && Completes(s) ==> Post(s, p, r, d, h) == Some(HonestMsg(s, p, r, d))
  {
    hide Mod, AOf, DOf, ComAOf, ComDOf, ProofOf, MakePhase5A, CommitA, CommitD, SigOf, DeltaF, SigmaF,
      NonceExists, AllLiftable, LiftableFor, SignersVec, ReplyGamma, ReplyW, HonestReplyGamma, HonestReplyW,
      DeltaSigma, DeltaInv, Local, SecondDecommit, Released, MakeA, GGamma;
    HonestTyped(s, p, h);
    if r == 2 {
      HonestReplies(s, p, d, h);
    } else if r == 3 {
      HonestDeltaSigma(s, p, h);
    } else if r == 4 {
      HonestDeltaInv(s, p, h);
    } else if r >= 5 {
      HonestLocal(s, p, h);
      OwnFirst(s, p);
      if r == 7 || r == 8 {
        HonestSecond(s, p, h);
      } else if r == 9 {
        HonestReleased(s, p, h);
      }
    }
  }

  lemma {:induction false} HonestReplies(s: Session, p: nat, d: nat, h: seq<seq<Msg>>)
    requires Ready(s, p, h, 2) && HonestSoFar(s, p, h) && d < N(s) && d != p
    ensures var c := if d < p then d else d - 1;
      && ReplyGamma(s, p, c, SignersVec(s, p, h), h[1][c].a) == HonestReplyGamma(s, p, d)
      && ReplyW(s, p, c, SignersVec(s, p, h), h[1][c].a) == HonestReplyW(s, p, d)
  {
    hide Mod, MakeB, W;
    var c := if d < p then d else d - 1;
    assert Peer(p, c) == d;
    HonestSigners(s, p, h);
    assert HonestAt(s, p, 1, c, h[1][c]);
  }

  // The signature: s = k(m + r x) for the joint nonce k and the group's secret x.
  function TheS(s: Session): nat
    requires Shaped(s)
  {
    Mod(Sum(N(s), KF(s)) * MessageTerm(s), Q(s))
  }

  lemma {:induction false} HonestShareSum(s: Session, p: nat, h: seq<seq<Msg>>)
    requires WellFormed(s) && Ready(s, p, h, 10) && HonestSoFar(s, p, h)
    ensures FoldAdd(SigOf(s, p).s, Shares(s, h), Q(s)) == TheS(s)
  {
    hide Mod, SigOf, TheRx, Sum, FoldAdd;
    var f := SOf(TheSigners(s));
    forall k: nat | k < N(s) - 1 ensures Cong(Shares(s, h)[k], Skip(p, f)(k), Q(s)) {
      assert HonestAt(s, p, 9, k, h[9][k]);
    }
    FoldAddIsSum(SigOf(s, p).s, Shares(s, h), Skip(p, f), Q(s));
    SumPeers(N(s), p, f);
    SignatureSum(s);
    ShareReduced(s, p);
    ModSmall(FoldAdd(SigOf(s, p).s, Shares(s, h), Q(s)), Q(s));
  }

  lemma {:induction false} ShareReduced(s: Session, p: nat)
    requires Shaped(s) && p < N(s)
    ensures SigOf(s, p).s < Q(s)
  {
  }

  lemma {:induction false} HonestOutput(s: Session, p: nat, h: seq<seq<Msg>>)
    requires WellFormed(s) && Completes(s) && p < N(s) && |h| == 10 && HonestSoFar(s, p, h)
    ensures Output(s, p, h) == if TheS(s) == 0 then None else Some(Signature(TheRx(s), TheS(s)))
    ensures TheS(s) != 0 ==> Verify(Signature(TheRx(s), TheS(s)), TheY(s), s.m, s.g.xcoor, Q(s)) == Some(true)
  {
    hide Mod, Local, Shares, OutputSignature, Verify, NonceExists, AllLiftable, TheRx, TheR, Typed, HonestSoFar,
      RCoordinate, KF, TheS;
    HonestTyped(s, p, h);
    HonestLocal(s, p, h);
    HonestShareSum(s, p, h);
    SignatureIs(s);
    DeltaSumNonZero(s);
    OutputAccepts(SigOf(s, p), Shares(s, h), Sum(N(s), KF(s)), KeyGen.GroupPoly(s.g)[0], TheS(s), TheRx(s), s.g.xcoor, Q(s));
  }

  lemma {:induction false} SignatureIs(s: Session)
    requires Shaped(s)
    ensures Cong(TheS(s), Sum(N(s), KF(s)) * MessageTerm(s), Q(s))
    ensures Mod(TheS(s), Q(s)) == TheS(s)
    ensures Cong(TheY(s).log, KeyGen.GroupPoly(s.g)[0], Q(s))
  {
    hide Mod;
    CongMod(Sum(N(s), KF(s)) * MessageTerm(s), Q(s));
    CongMod(KeyGen.GroupPoly(s.g)[0], Q(s));
  }

  // === whole runs =======================================================================

  // How far an honest session gets.
  ghost predicate GetsTo(s: Session, m: nat)
    requires Shaped(s)
  {
    m <= 10 && (m > 3 ==> AllLiftable(s)) && (m > 4 ==> NonceExists(s)) && (m > 5 ==> N(s) > 1)
  }

  lemma {:induction false} HonestRounds(s: Session, m: nat)
    requires WellFormed(s) && GetsTo(s, m)
    ensures forall p: nat :: p < N(s) ==> LockHist(TheProtocol(s), p, m) == Some(History(TheProtocol(s), Honest(s), p, m))
    ensures forall p: nat, r: nat, k: nat :: p < N(s) && r < m && k < WriteCount(TheProtocol(s), r) ==>
      LockPost(TheProtocol(s), p, r, Recipient(TheProtocol(s), p, r, k)).Some?
  {
    hide Mod, Post, HonestMsg, LiftableAt, NonceExists, HonestSoFar, HonestAt;
    var pr := TheProtocol(s);
    forall p: nat, r: nat, k: nat | p < N(s) && r < m && k < WriteCount(pr, r) ensures Sends(pr, Honest(s), p, r, k) {
      HistoryHonest(s, p, r);
      HonestPost(s, p, r, Recipient(pr, p, r, k), History(pr, Honest(s), p, r));
    }
    ProgramsDetermineHistory(pr, Honest(s), m);
  }

  // Where the session stops when it does not complete.
  lemma {:induction false} StuckAt(s: Session, p: nat, m: nat)
    requires WellFormed(s) && p < N(s) && GetsTo(s, m) && 3 <= m <= 5
    requires m == 3 ==> !LiftableFor(s, p)
    requires m == 4 ==> !NonceExists(s)
    requires m == 5 ==> N(s) == 1
    ensures LockPost(TheProtocol(s), p, m, p) == None
  {
    hide Mod, Post, HonestMsg, LiftableAt, NonceExists, HonestSoFar, HonestAt;
    HonestRounds(s, m);
    HistoryHonest(s, p, m);
    HonestPost(s, p, m, p, History(TheProtocol(s), Honest(s), p, m));
  }

  // Nobody panics in a signing session exactly when there are at least two signers, every
  // conversion is lossless modulo q, and both nonce sums are non-zero.
  lemma {:induction false} NoPanicIff(s: Session)
    requires WellFormed(s)
    ensures NoPanic(TheProtocol(s)) <==> Completes(s)
  {
    hide Mod, Post, HonestMsg, LiftableAt, NonceExists;
    var pr := TheProtocol(s);
    if Completes(s) {
      HonestRounds(s, 10);
    } else {
      var p: nat, m: nat := 0, 5;
      if !AllLiftable(s) {
        var j: nat, i: nat :| j < N(s) && i < N(s) && i != j && !LiftableAt(s, j, i);
        p, m := j, 3;
      } else if !NonceExists(s) {
        m := 4;
      }
      StuckAt(s, p, m);
      assert Recipient(pr, p, m, 0) == p;
    }
  }

  // The whole program: nobody panics in a round, and every signer's final step outputs a
  // signature.
  ghost predicate EveryoneSigns(s: Session)
    requires Shaped(s)
  {
    NoPanic(TheProtocol(s)) && forall p: nat :: p < N(s) ==> SignsLockstep(s, p)
  }

  ghost predicate SignsLockstep(s: Session, p: nat)
    requires Shaped(s) && p < N(s)
  {
    var h := LockHist(TheProtocol(s), p, 10);
    h.Some? && Output(s, p, h.value).Some?
  }

  // Exactly when there are at least two signers, every conversion is lossless modulo q, both
  // nonce sums are non-zero, and m + r x is not 0.
  lemma {:induction false} EveryoneSignsIff(s: Session)
    requires WellFormed(s)
    ensures EveryoneSigns(s) <==> Completes(s) && Mod(MessageTerm(s), Q(s)) != 0
  {
    hide Mod, Post, Output, HonestMsg, HonestSoFar, NoPanic, TheRx, MessageTerm, NonceExists, AllLiftable, Verify, KeyGen.WellFormed, KeyGen.Completes, Signers;
    NoPanicIff(s);
    if Completes(s) {
      HonestRounds(s, 10);
      forall p: nat | p < N(s) ensures SignsLockstep(s, p) <==> Mod(MessageTerm(s), Q(s)) != 0 {
        HistoryHonest(s, p, 10);
        HonestOutput(s, p, History(TheProtocol(s), Honest(s), p, 10));
        SignatureZeroIff(s);
      }
      assert SignsLockstep(s, 0) <==> Mod(MessageTerm(s), Q(s)) != 0;
    }
  }

  lemma {:induction false} SignatureZeroIff(s: Session)
    requires WellFormed(s) && NonceExists(s)
    ensures TheS(s) == 0 <==> Mod(MessageTerm(s), Q(s)) == 0
  {
    hide Mod, MessageTerm;
    ProductZero(Sum(N(s), KF(s)), MessageTerm(s), Q(s));
  }

  // In every interleaving, every signer that finishes outputs the same ECDSA signature
  // (r, s) with r = x(R), R = k^-1 G and s = k(m + r x), and the verifier accepts it; only
  // when m + r x = 0 there is none.
  lemma {:induction false} EveryInterleavingSigns(s: Session, steps: seq<Step>, p: nat)
    requires WellFormed(s) && Completes(s) && p < N(s)
    requires Run(TheProtocol(s), steps).Some? && |Run(TheProtocol(s), steps).value.procs[p].hist| == 10
    ensures Output(s, p, Run(TheProtocol(s), steps).value.procs[p].hist)
         == if TheS(s) == 0 then None else Some(Signature(TheRx(s), TheS(s)))
    ensures TheS(s) != 0 ==> Verify(Signature(TheRx(s), TheS(s)), TheY(s), s.m, s.g.xcoor, Q(s)) == Some(true)
    ensures Cong(TheR(s).log * Sum(N(s), KF(s)), 1, Q(s))
    ensures TheS(s) == 0 <==> Mod(MessageTerm(s), Q(s)) == 0
  {
    hide Mod, Post, HonestMsg, Output, Verify, TheR, TheRx, HonestSoFar, MessageTerm;
    AsyncRefinesLockstep(TheProtocol(s), steps);
    HonestRounds(s, 10);
    HistoryHonest(s, p, 10);
    HonestOutput(s, p, History(TheProtocol(s), Honest(s), p, 10));
    DeltaSumNonZero(s);
    SignatureZeroIff(s);
  }

  // A session that completes always ends: every run is finite, and once no step is left
  // every signer has output the one signature, which the verifier accepts.
  lemma {:induction false} MaximalRunsSign(s: Session, steps: seq<Step>)
    requires WellFormed(s) && Completes(s) && Mod(MessageTerm(s), Q(s)) != 0
    requires Run(TheProtocol(s), steps).Some? && forall step :: !Enabled(TheProtocol(s), Run(TheProtocol(s), steps).value, step)
    ensures forall p: nat :: p < N(s) ==>
      Output(s, p, Run(TheProtocol(s), steps).value.procs[p].hist) == Some(Signature(TheRx(s), TheS(s)))
    ensures Verify(Signature(TheRx(s), TheS(s)), TheY(s), s.m, s.g.xcoor, Q(s)) == Some(true)
  {
    hide Mod, Post, Output, Verify, TheR, TheRx, TheS, MessageTerm, NoPanic, Enabled, Run, KeyGen.WellFormed,
      KeyGen.Completes, Signers;
    NoPanicIff(s);
    EveryRunEnds(TheProtocol(s), steps);
    forall p: nat | p < N(s)
      ensures Output(s, p, Run(TheProtocol(s), steps).value.procs[p].hist) == Some(Signature(TheRx(s), TheS(s)))
    {
      EveryInterleavingSigns(s, steps, p);
    }
    EveryInterleavingSigns(s, steps, 0);
  }

  // What a signer loads is what key generation saved, in any of its interleavings.
  lemma {:induction false} LoadsWhatKeyGenSaved(s: Session, p: nat, steps: seq<Step>)
    requires WellFormed(s) && p < N(s)
    requires Run(KeyGen.TheProtocol(s.g), steps).Some? && |Run(KeyGen.TheProtocol(s.g), steps).value.procs[s.signers[p]].hist| == 5
    ensures KeyGen.Output(s.g, s.signers[p], Run(KeyGen.TheProtocol(s.g), steps).value.procs[s.signers[p]].hist) == Some(File(s, p))
  {
    hide Mod, KeyGen.Output, KeyGen.Post;
    KeyGen.EveryInterleavingAgrees(s.g, steps, s.signers[p]);
  }

  // === arbitrary peers ==================================================================

  // Whatever a peer replies: when both of its replies are accepted, the one for the key
  // share proves the peer's own re-mapped share, and both shares are the proven combinations.
  lemma {:induction false} ReplyUsesShare(s: Session, p: nat, h: seq<seq<Msg>>, c: nat)
    requires WellFormed(s) && Ready(s, p, h, 3) && c < N(s) - 1 && AlphaMiu(s, p, h, c).Some?
    ensures var v, b := SignersVec(s, p, h), h[2][c]; var id := v[Peer(p, c)];
      && Cong(b.wB.bProof.secret, MapShareToNewParams(id, v, Q(s)) * ShareFor(KeyGen.GroupPoly(s.g), id + 1, Q(s)), Q(s))
      && Cong(AlphaMiu(s, p, h, c).value.0, b.gammaB.bProof.secret * s.own[p].k + b.gammaB.betaTagProof.secret, Q(s))
      && Cong(AlphaMiu(s, p, h, c).value.1, b.wB.bProof.secret * s.own[p].k + b.wB.betaTagProof.secret, Q(s))
  {
    hide Mod, Cong, GetAlpha, KeyGen.UpdateCommitmentsToXi, ShareFor, MapShareToNewParams, WellFormed, KeyGen.GetCommitmentsToXi, SignersVec;
    var v, b := SignersVec(s, p, h), h[2][c];
    var id := v[Peer(p, c)];
    var ek, x := KeyAt(s, s.signers[p]), ShareFor(KeyGen.GroupPoly(s.g), id + 1, Q(s));
    AcceptedReplyBinds(b.gammaB, ek, s.own[p].k, Q(s));
    AcceptedReplyBinds(b.wB, ek, s.own[p].k, Q(s));
    ProvenPoint(b.wB, ek, s.own[p].k, Q(s));
    ShareCommitment(s, p);
    KeyGen.UpdatedCommitmentIs(x, id, v, Q(s));
    ProvenScalar(b.wB.bProof.secret, MapShareToNewParams(id, v, Q(s)) * x, Q(s));
  }

  lemma {:induction false} ProvenPoint(m: MessageB, ek: EncryptionKey, a: nat, q: pos)
    requires GetAlpha(m, ek, a, q).Some?
    ensures m.bProof.pk == Point(Mod(m.bProof.secret, q))
  {
    hide Mod, Cong, GetAlpha;
    GetAlphaIff(m, ek, a, q);
  }

  lemma {:induction false} ShareCommitment(s: Session, p: nat)
    requires WellFormed(s) && p < N(s)
    ensures KeyGen.GetCommitmentsToXi(File(s, p).schemes, Q(s)).Some?
    ensures forall id: nat :: id < s.g.n ==>
      && id < |KeyGen.GetCommitmentsToXi(File(s, p).schemes, Q(s)).value|
      && KeyGen.GetCommitmentsToXi(File(s, p).schemes, Q(s)).value[id] == MulPoint(GENERATOR, ShareFor(KeyGen.GroupPoly(s.g), id + 1, Q(s)), Q(s))
  {
    hide Mod, ShareFor, Signers, KeyGen.Completes, KeyGen.GroupPoly, MulPoint;
    KeyGen.SchemesCommit(s.g);
    KeyGen.CommitmentsToXiAre(File(s, p).schemes, s.g.t, Q(s));
    forall id: nat | id < s.g.n
      ensures KeyGen.GetCommitmentsToXi(File(s, p).schemes, Q(s)).value[id] == MulPoint(GENERATOR, ShareFor(KeyGen.GroupPoly(s.g), id + 1, Q(s)), Q(s))
    {
      var i: nat := id + 1;
      assert KeyGen.GetCommitmentsToXi(File(s, p).schemes, Q(s)).value[i - 1] == MulPoint(GENERATOR, ShareFor(KeyGen.GroupPoly(s.g), i, Q(s)), Q(s));
    }
  }

  lemma {:induction false} ProvenScalar(x: nat, e: nat, q: pos)
    ensures Point(Mod(x, q)) == MulPoint(GENERATOR, Mod(e, q), q) ==> Cong(x, e, q)
  {
    hide Mod;
    assert GENERATOR.log * Mod(e, q) == Mod(e, q);
    CongMod(e, q);
  }

  // What a signer must have computed before it sends anything in the last five rounds.
  lemma {:induction false} PostNeeds(s: Session, p: nat, r: nat, d: nat, h: seq<seq<Msg>>)
    requires Post(s, p, r, d, h).Some? && r >= 5
    ensures r <= 9 && |h| == r && Ready(s, p, h, 5) && Nonce(s, p, h).Some? && Local(s, p, h).Some?
    ensures r >= 7 ==> Ready(s, p, h, 7) && SecondDecommit(s, p, h).Some?
    ensures r >= 9 ==> Ready(s, p, h, 9) && Released(s, p, h).Some?
  {
    hide Mod, Nonce, DeltaSigma, MakePhase5A, ProvePhase5A, Phase5C, CheckPhase5D, Phase5LocalSig, CommitA, CommitD;
  }

  // Whatever a signer receives: it computes the nonce, and so commits to a signature share,
  // only after every peer's nonce point was shown to be the one committed to in round 1 and
  // used in round 2.
  lemma {:induction false} NonceChecked(s: Session, p: nat, h: seq<seq<Msg>>)
    requires Ready(s, p, h, 5) && Nonce(s, p, h).Some?
    ensures N(s) > 1
    ensures forall k: nat :: k < N(s) - 1 ==>
      && h[1][k].com == Commitment(h[4][k].decommit.gGamma, h[4][k].decommit.blind)
      && h[2][k].gammaB.bProof.pk == h[4][k].decommit.gGamma
  {
    hide Mod, DeltaInv, DeltaSigma, SumPoints, MulPoint;
    var proofs, decommits, coms := GammaProofs(s, h), GammaDecommits(s, h), GammaComs(s, h);
    var deltaInv := DeltaInv(s, p, h).value;
    assert Phase4(deltaInv, proofs, decommits, coms, Q(s)).Some?;
    forall k: nat | k < N(s) - 1
      ensures h[1][k].com == Commitment(h[4][k].decommit.gGamma, h[4][k].decommit.blind)
      ensures h[2][k].gammaB.bProof.pk == h[4][k].decommit.gGamma
    {
      assert proofs[k].pk == decommits[k].gGamma && coms[k] == Commitment(decommits[k].gGamma, decommits[k].blind);
    }
  }

  // It makes its second commitment only after every peer opened the first one and proved that
  // V = x R + r G and B = r A, for the nonce R that it computed itself.
  lemma {:induction false} FirstChecked(s: Session, p: nat, h: seq<seq<Msg>>)
    requires Ready(s, p, h, 7) && SecondDecommit(s, p, h).Some?
    ensures Nonce(s, p, h).Some?
    ensures forall k: nat :: k < N(s) - 1 ==>
      var a, proof := h[6][k].decomA, h[6][k].proof;
      && h[5][k].comA == Commitment((a.V, a.A, a.B), a.blind)
      && Cong(a.V.log, proof.x * Nonce(s, p, h).value.log + proof.r, Q(s))
      && Cong(a.B.log, proof.r * a.A.log, Q(s))
  {
    hide Mod, Nonce, DeltaSigma, SumPoints, MakePhase5A, VerifyElGamal, FoldPoints, RCoordinate, CommitA;
    var R := Nonce(s, p, h).value;
    var decoms, coms, proofs := DecomAs(s, h), ComAs(s, h), ElGamals(s, h);
    forall k: nat | k < N(s) - 1
      ensures h[5][k].comA == Commitment((h[6][k].decomA.V, h[6][k].decomA.A, h[6][k].decomA.B), h[6][k].decomA.blind)
      ensures Cong(h[6][k].decomA.V.log, h[6][k].proof.x * R.log + h[6][k].proof.r, Q(s))
      ensures Cong(h[6][k].decomA.B.log, h[6][k].proof.r * h[6][k].decomA.A.log, Q(s))
    {
      assert coms[k] == CommitA(decoms[k]) && VerifyElGamal(proofs[k], decoms[k].A, R, decoms[k].V, decoms[k].B, Q(s));
      CommitmentA(h[6][k].decomA);
      ElGamalMeans(h[6][k].proof, h[6][k].decomA.A, R, h[6][k].decomA.V, h[6][k].decomA.B, Q(s));
    }
  }

  lemma {:induction false} CommitmentA(d: Phase5A)
    ensures CommitA(d) == Commitment((d.V, d.A, d.B), d.blind)
  {
  }

  lemma {:induction false} ElGamalMeans(proof: ElGamalProof, A: Point, R: Point, V: Point, B: Point, q: pos)
    requires VerifyElGamal(proof, A, R, V, B, q)
    ensures Cong(V.log, proof.x * R.log + proof.r, q) && Cong(B.log, proof.r * A.log, q)
  {
    hide Mod;
    CongMod(R.log * proof.x, q);
    assert GENERATOR.log * proof.r == proof.r;
    CongMod(proof.r, q);
    CongAdd(Mod(R.log * proof.x, q), R.log * proof.x, Mod(proof.r, q), proof.r, q);
    CongMod(Mod(R.log * proof.x, q) + Mod(proof.r, q), q);
    CongMod(A.log * proof.r, q);
  }

  function ULogs(v: seq<Phase5D>): nat -> int { (i: nat) => if i < |v| then v[i].u.log else 0 }
  function TLogs(v: seq<Phase5D>): nat -> int { (i: nat) => if i < |v| then v[i].t.log else 0 }
  function BLogs(v: seq<Phase5A>): nat -> int { (i: nat) => if i < |v| then v[i].B.log else 0 }

  lemma {:induction false} BalanceOf(d2: seq<Phase5D>, d1: seq<Phase5A>, q: pos)
    requires q > 1 && |d2| == |d1|
    ensures GENERATOR == Balance(d2, d1, q) <==> Cong(Sum(|d2|, TLogs(d2)) + Sum(|d2|, BLogs(d1)), Sum(|d2|, ULogs(d2)), q)
  {
    hide Mod, Balance, Sum;
    BalanceIff(d2, d1, TLogs(d2), BLogs(d1), ULogs(d2), q);
  }

  // It releases its share of the signature, and nothing else, only after every peer opened
  // both commitments and all t's and B's together balance all u's.
  lemma {:induction false} ReleaseChecked(s: Session, p: nat, d: nat, h: seq<seq<Msg>>)
    requires Q(s) > 1 && Post(s, p, 9, d, h).Some?
    ensures Typed(s, h) && |h| == 9 && Ready(s, p, h, 7) && Local(s, p, h).Some? && SecondDecommit(s, p, h).Some?
    ensures Post(s, p, 9, d, h) == Some(Round9(Local(s, p, h).value.s))
    ensures forall k: nat :: k < N(s) - 1 ==> h[7][k].comD == Commitment((h[8][k].decomD.u, h[8][k].decomD.t), h[8][k].decomD.blind)
    ensures var second := InsertAt(DecomDs(s, h), p, SecondDecommit(s, p, h).value);
      var first := InsertAt(DecomAs(s, h), p, MakePhase5A(Local(s, p, h).value, s.own[p].blindA, Q(s)));
      Cong(Sum(N(s), TLogs(second)) + Sum(N(s), BLogs(first)), Sum(N(s), ULogs(second)), Q(s))
  {
    hide Mod, Cong, Local, SecondDecommit, MakePhase5A, CommitD, Balance, Sum;
    var sig, own := Local(s, p, h).value, SecondDecommit(s, p, h).value;
    var second := InsertAt(DecomDs(s, h), p, own);
    var coms := InsertAt(ComDs(s, h), p, CommitD(own));
    var first := InsertAt(DecomAs(s, h), p, MakePhase5A(sig, s.own[p].blindA, Q(s)));
    assert CheckPhase5D(sig, second, coms, first, Q(s)).Some?;
    BalanceOf(second, first, Q(s));
    InsertedAt(DecomDs(s, h), p, own);
    InsertedAt(ComDs(s, h), p, CommitD(own));
    forall k: nat | k < N(s) - 1
      ensures h[7][k].comD == Commitment((h[8][k].decomD.u, h[8][k].decomD.t), h[8][k].decomD.blind)
    {
      assert coms[Peer(p, k)] == CommitD(second[Peer(p, k)]);
      CommitmentD(h[8][k].decomD);
    }
  }

  lemma {:induction false} CommitmentD(d: Phase5D)
    ensures CommitD(d) == Commitment((d.u, d.t), d.blind)
  {
  }

  // Whatever a signer receives: what it outputs meets the ECDSA equation for the group's
  // secret key and the message.
  lemma {:induction false} OutputIsEcdsa(s: Session, p: nat, h: seq<seq<Msg>>, sig: Signature)
    requires Shaped(s) && Prime(Q(s)) && p < N(s) && Output(s, p, h) == Some(sig)
    ensures Ecdsa(sig, Secret(s), s.m, s.g.xcoor, Q(s))
  {
    hide Mod, Ecdsa, Nonce, DeltaSigma, Shares, RCoordinate, OutputSignature;
    var own := Local(s, p, h).value;
    CongMod(Secret(s), Q(s));
    KeyOfSecret(s);
    LocalReduced(s, p, h);
    OutputIff(own, Shares(s, h), Secret(s), s.g.xcoor, Q(s));
  }

  lemma {:induction false} KeyOfSecret(s: Session)
    requires Shaped(s)
    ensures Cong(TheY(s).log, Secret(s), Q(s))
  {
    hide Mod;
    assert GENERATOR.log * Secret(s) == Secret(s);
    CongMod(Secret(s), Q(s));
  }

  lemma {:induction false} LocalReduced(s: Session, p: nat, h: seq<seq<Msg>>)
    requires Ready(s, p, h, 5) && Local(s, p, h).Some?
    ensures Local(s, p, h).value.s < Q(s) && Local(s, p, h).value.m == s.m && Local(s, p, h).value.y == TheY(s)
  {
    hide Mod, Nonce, DeltaSigma;
  }

  // The protocol in which p follows its program and the others do anything.
  function Facing(s: Session, p: nat, other: (nat, nat, nat, seq<seq<Msg>>) -> Option<Msg>): Protocol<Msg> {
    Protocol(N(s), 10, (r: nat) => r == 2,
      (i: nat, r: nat, d: nat, h: seq<seq<Msg>>) => if i == p then Post(s, p, r, d, h) else other(i, r, d, h))
  }

  // In every interleaving with arbitrary peers: whatever p outputs is an ECDSA signature, and
  // once p's share is on the board, so is every peer's opening of its two commitments.
  lemma {:induction false} SafeAmongOthers(s: Session, p: nat, other: (nat, nat, nat, seq<seq<Msg>>) -> Option<Msg>, steps: seq<Step>, k: nat)
    requires WellFormed(s) && p < N(s) && k < N(s) - 1 && Run(Facing(s, p, other), steps).Some?
    ensures var st := Run(Facing(s, p, other), steps).value;
      Output(s, p, st.procs[p].hist).Some? ==> Ecdsa(Output(s, p, st.procs[p].hist).value, Secret(s), s.m, s.g.xcoor, Q(s))
    ensures var b := Run(Facing(s, p, other), steps).value.board;
      Key(p, 9, None) in b ==>
        && OpensOnBoard(b, Peer(p, k))
  {
    hide Mod, Post, Output, Ecdsa, OpensOnBoard, KeyGen.WellFormed, KeyGen.Completes, Signers;
    var st := Run(Facing(s, p, other), steps).value;
    if Output(s, p, st.procs[p].hist).Some? {
      PrimeOrder(s);
      OutputIsEcdsa(s, p, st.procs[p].hist, Output(s, p, st.procs[p].hist).value);
    }
    if Key(p, 9, None) in st.board {
      PrimeOrder(s);
      ReleasedAmongOthers(s, p, other, steps, k);
    }
  }

  // What p opens in rounds 4, 6 and 8 it opens only when every signer has committed; its
  // nonce point is the one it committed to with its own randomness.
  lemma {:induction false} RevealsOwn(s: Session, p: nat, other: (nat, nat, nat, seq<seq<Msg>>) -> Option<Msg>, steps: seq<Step>, i: nat)
    requires Shaped(s) && p < N(s) && i < N(s) && Run(Facing(s, p, other), steps).Some?
    ensures var b, y := Run(Facing(s, p, other), steps).value.board, Point(Mod(s.own[p].gamma, Q(s)));
      && (Key(p, 4, None) in b ==>
            && Key(i, 1, None) in b && Key(p, 1, None) in b && b[Key(p, 1, None)].Round1?
            && b[Key(p, 1, None)].com == Commitment(y, s.own[p].blind)
            && b[Key(p, 4, None)] == Round4(SignDecommit(s.own[p].blind, y)))
      && (Key(p, 6, None) in b ==> Key(i, 5, None) in b)
      && (Key(p, 8, None) in b ==> Key(i, 7, None) in b)
  {
    hide Mod, Run, ProcInv, BoardInv, LockHist, RoundInv, Shaped, Post;
    var pr := Facing(s, p, other);
    var st := Run(pr, steps).value;
    AsyncRefinesLockstep(pr, steps);
    if Key(p, 6, None) in st.board {
      assert WriteKey(pr, p, 6, 0) == Key(p, 6, None);
      PostsAfterEarlier(pr, st, p, 6, 0, 5, i);
    }
    if Key(p, 8, None) in st.board {
      assert WriteKey(pr, p, 8, 0) == Key(p, 8, None);
      PostsAfterEarlier(pr, st, p, 8, 0, 7, i);
    }
    if Key(p, 4, None) in st.board {
      assert WriteKey(pr, p, 4, 0) == Key(p, 4, None) && WriteKey(pr, p, 1, 0) == Key(p, 1, None);
      PostsAfterEarlier(pr, st, p, 4, 0, 1, i);
      PostsAfterEarlier(pr, st, p, 4, 0, 1, p);
      PostedAfterReading(pr, st, p, 1, 0);
      PostedAfterReading(pr, st, p, 4, 0);
      OwnNonce(s, p, st.procs[p].hist[..1], st.procs[p].hist[..4]);
    }
  }

  lemma {:induction false} OwnNonce(s: Session, p: nat, h1: seq<seq<Msg>>, h4: seq<seq<Msg>>)
    requires Post(s, p, 1, p, h1).Some? && Post(s, p, 4, p, h4).Some?
    ensures Shaped(s) && p < N(s)
    ensures var y := Point(Mod(s.own[p].gamma, Q(s)));
      && Post(s, p, 1, p, h1).value.Round1? && Post(s, p, 1, p, h1).value.com == Commitment(y, s.own[p].blind)
      && Post(s, p, 4, p, h4).value == Round4(SignDecommit(s.own[p].blind, y))
  {
    hide Mod, DeltaInv, DeltaSigma, MakeA;
    assert GENERATOR.log * s.own[p].gamma == s.own[p].gamma;
  }

  lemma {:induction false} PrimeOrder(s: Session)
    requires WellFormed(s)
    ensures Prime(Q(s)) && Q(s) > 1
  {
  }

  // What a signer revealed on the board, its nonce point included, is what it had committed
  // to there.
  ghost predicate OpensOnBoard(b: map<Key, Msg>, i: nat) {
    && (forall r: nat :: r in {1, 4, 5, 6, 7, 8} ==> Key(i, r, None) in b && OfRound(b[Key(i, r, None)], r))
    && Opens(b[Key(i, 1, None)], b[Key(i, 4, None)], b[Key(i, 5, None)], b[Key(i, 6, None)], b[Key(i, 7, None)], b[Key(i, 8, None)])
  }

  ghost predicate Opens(com: Msg, gamma: Msg, comA: Msg, first: Msg, comD: Msg, second: Msg)
    requires com.Round1? && gamma.Round4? && comA.Round5? && first.Round6? && comD.Round7? && second.Round8?
  {
    && com.com == Commitment(gamma.decommit.gGamma, gamma.decommit.blind)
    && comA.comA == Commitment((first.decomA.V, first.decomA.A, first.decomA.B), first.decomA.blind)
    && comD.comD == Commitment((second.decomD.u, second.decomD.t), second.decomD.blind)
  }

  lemma {:induction false} OpenedBefore(s: Session, p: nat, h: seq<seq<Msg>>, k: nat)
    requires Q(s) > 1 && p < N(s) && k < N(s) - 1 && Post(s, p, 9, p, h).Some?
    ensures Typed(s, h) && |h| == 9 && Opens(h[1][k], h[4][k], h[5][k], h[6][k], h[7][k], h[8][k])
  {
    hide Mod, Post, Local, Nonce, SecondDecommit, Released, Cong;
    PostNeeds(s, p, 9, p, h);
    NonceChecked(s, p, h);
    FirstChecked(s, p, h);
    ReleaseChecked(s, p, p, h);
  }

  lemma {:induction false} ReleasedAmongOthers(s: Session, p: nat, other: (nat, nat, nat, seq<seq<Msg>>) -> Option<Msg>, steps: seq<Step>, k: nat)
    requires Shaped(s) && Q(s) > 1 && p < N(s) && k < N(s) - 1 && Run(Facing(s, p, other), steps).Some?
    requires Key(p, 9, None) in Run(Facing(s, p, other), steps).value.board
    ensures OpensOnBoard(Run(Facing(s, p, other), steps).value.board, Peer(p, k))
  {
    hide Mod, Post, Run, ProcInv, BoardInv, LockHist, Opens, Shaped, N, RoundInv;
    var pr := Facing(s, p, other);
    var st := Run(pr, steps).value;
    AsyncRefinesLockstep(pr, steps);
    assert WriteKey(pr, p, 9, 0) == Key(p, 9, None) && Recipient(pr, p, 9, 0) == p;
    PostedAfterReading(pr, st, p, 9, 0);
    var hist := st.procs[p].hist;
    OpenedBefore(s, p, hist[..9], k);
    ReadFromBoard(pr, st, p, 1, k);
    ReadFromBoard(pr, st, p, 4, k);
    ReadFromBoard(pr, st, p, 5, k);
    ReadFromBoard(pr, st, p, 6, k);
    ReadFromBoard(pr, st, p, 7, k);
    ReadFromBoard(pr, st, p, 8, k);
    forall r: nat | r < 9 ensures OfRound(hist[r][k], r) {
      assert hist[..9][r] == hist[r] && OfRound(hist[..9][r][k], r);
    }
  }
}
