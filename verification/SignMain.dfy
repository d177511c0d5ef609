// The loops of the signing program that turn polled answers into vectors, with the counters
// they run on.  Each is proved to build the vector that the protocol model works with.
module SignMain {
  import opened Results
  import opened Sums
  import opened Mta
  import opened Board
  import opened SignRun

  // Lines up the signers' indices: the own one at the own position, the others in order.
  method CollectSigners(ids: seq<nat>, ownId: nat, partyNum: nat) returns (signers: seq<nat>)
    requires 0 < partyNum <= |ids| + 1 && 0 < ownId && forall k :: 0 <= k < |ids| ==> ids[k] > 0
    ensures signers == InsertAt(FromOne(ids), partyNum - 1, ownId - 1)
  {
    hide InsertAt;
    var j := 0;
    ghost var whole := InsertAt(FromOne(ids), partyNum - 1, ownId - 1);
    InsertedAt(FromOne(ids), partyNum - 1, ownId - 1);
    signers := [];
    for i := 1 to |ids| + 2
      invariant j == if partyNum < i then i - 2 else i - 1
      invariant signers == whole[..i - 1]
    {
      assert whole[..i] == whole[..i - 1] + [whole[i - 1]];
      if i == partyNum {
        signers := signers + [ownId - 1];
      } else {
        signers := signers + [ids[j] - 1];
        j := j + 1;
      }
    }
    assert whole[..|whole|] == whole;
  }

  // Party identifiers count from 1, vector indices from 0.
  function FromOne(ids: seq<nat>): (v: seq<nat>)
    requires forall k :: 0 <= k < |ids| ==> ids[k] > 0
    ensures |v| == |ids| && forall k :: 0 <= k < |v| ==> v[k] == ids[k] - 1
  {
    seq(|ids|, k requires 0 <= k < |ids| => ids[k] - 1)
  }

  // Replies to every peer's first message, keeping the own shares.
  method MakeReplies(s: Session, partyNum: nat, h: seq<seq<Msg>>, signers: seq<nat>)
    returns (gammaSend: seq<MessageB>, betas: seq<nat>, wSend: seq<MessageB>, nis: seq<nat>)
    requires 0 < partyNum && Ready(s, partyNum - 1, h, 2) && signers == SignersVec(s, partyNum - 1, h)
    ensures |gammaSend| == |wSend| == N(s) - 1
    ensures forall c: nat :: c < N(s) - 1 ==> gammaSend[c] == ReplyGamma(s, partyNum - 1, c, signers, h[1][c].a).0
    ensures forall c: nat :: c < N(s) - 1 ==> wSend[c] == ReplyW(s, partyNum - 1, c, signers, h[1][c].a).0
    ensures betas == Betas(s, partyNum - 1, h) && nis == Nis(s, partyNum - 1, h)
  {
    hide MakeB, W, KeyAt, SignersVec;
    var p, j := partyNum - 1, 0;
    gammaSend, betas, wSend, nis := [], [], [], [];
    for i := 1 to N(s) + 1
      invariant j == (if partyNum < i then i - 2 else i - 1)
      invariant |gammaSend| == |wSend| == |betas| == |nis| == j
      invariant forall c: nat :: c < j ==> (gammaSend[c], betas[c]) == ReplyGamma(s, p, c, signers, h[1][c].a)
      invariant forall c: nat :: c < j ==> (wSend[c], nis[c]) == ReplyW(s, p, c, signers, h[1][c].a)
    {
      if i != partyNum {
        assert Peer(p, j) == i - 1;
        var (mGamma, beta) := MakeB(s.own[p].gamma, KeyAt(s, signers[i - 1]), h[1][j].a, s.own[p].maskGamma[i - 1], Q(s));
        var (mW, ni) := MakeB(W(s, p, signers), KeyAt(s, signers[i - 1]), h[1][j].a, s.own[p].maskW[i - 1], Q(s));
        gammaSend, wSend := gammaSend + [mGamma], wSend + [mW];
        betas, nis := betas + [beta], nis + [ni];
        j := j + 1;
      }
    }
  }

  // Sends the replies, one message to every peer.
  method SendReplies(store: Store<Msg>, partyNum: nat, n: nat, gammaSend: seq<MessageB>, wSend: seq<MessageB>, uuid: nat)
    requires 0 < partyNum <= n && |gammaSend| == |wSend| == n - 1
    modifies store
    ensures store.entries == Sent(old(store.entries), partyNum, 2, ReplyMessages(gammaSend, wSend), uuid)
  {
    var j := 0;
    ghost var msgs := ReplyMessages(gammaSend, wSend);
    for i := 1 to n + 1
      invariant j == (if partyNum < i then i - 2 else i - 1)
      invariant store.entries == Sent(old(store.entries), partyNum, 2, msgs[..j], uuid)
    {
      if i != partyNum {
        assert Peer(partyNum - 1, j) == i - 1;
        assert msgs[..j + 1][..j] == msgs[..j];
        store.SendP2p(partyNum, i, 2, Round2(gammaSend[j], wSend[j]), uuid);
        j := j + 1;
      }
    }
    assert msgs[..j] == msgs;
  }

  function ReplyMessages(gammaSend: seq<MessageB>, wSend: seq<MessageB>): (v: seq<Msg>)
    requires |gammaSend| == |wSend|
    ensures |v| == |gammaSend| && forall c :: 0 <= c < |v| ==> v[c] == Round2(gammaSend[c], wSend[c])
  {
    seq(|gammaSend|, c requires 0 <= c < |gammaSend| => Round2(gammaSend[c], wSend[c]))
  }

  // Opens the replies received, in peer order, checking each against its proofs and against
  // the peer's public share; None as soon as one check fails.
  method OpenReplies(s: Session, partyNum: nat, h: seq<seq<Msg>>) returns (r: Option<(seq<nat>, seq<nat>)>)
    requires 0 < partyNum && Ready(s, partyNum - 1, h, 3)
    ensures r == match AlphaMius(s, partyNum - 1, h) case None => None case Some(v) => Some((Firsts(v), Seconds(v)))
  {
    hide AlphaMiu;
    var p, j := partyNum - 1, 0;
    var alphas: seq<nat>, mius: seq<nat> := [], [];
    for i := 1 to N(s) + 1
      invariant j == (if partyNum < i then i - 2 else i - 1)
      invariant |alphas| == |mius| == j
      invariant forall c: nat :: c < j ==> AlphaMiu(s, p, h, c) == Some((alphas[c], mius[c]))
    {
      if i != partyNum {
        var shares := AlphaMiu(s, p, h, j);
        if shares.None? {
          return None;
        }
        alphas, mius := alphas + [shares.value.0], mius + [shares.value.1];
        j := j + 1;
      }
    }
    ghost var v := AlphaMius(s, p, h).value;
    assert Firsts(v) == alphas && Seconds(v) == mius;
    r := Some((alphas, mius));
  }
}
