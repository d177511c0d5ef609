// The loops of the key generation program, with the counters they run on: j counts the
// other parties, k all parties.
module KeyGenMain {
  import opened Results
  import opened Sums
  import opened Feldman
  import opened Zq
  import opened Board
  import opened KeyGen

  // Lines up public points and decommitments, and derives one channel key per peer; None
  // when a pair of points has no channel key.
  method CollectKeys(g: Dealing, partyNum: nat, h: seq<seq<Msg>>)
    returns (r: Option<(seq<Point>, seq<Decommit1>, seq<nat>)>)
    requires 0 < partyNum <= g.n && Sized(g) && Typed(g, h) && |h| > 1
    ensures r.Some? <==> forall k: nat :: k < g.n - 1 ==> ChannelKey(g, PublicPoint(g, partyNum - 1), h[1][k].decom.y).Some?
    ensures r.Some? ==> r.value.0 == Ys(g, partyNum - 1, h) && r.value.1 == Decommits(g, partyNum - 1, h) && |r.value.2| == g.n - 1
    ensures r.Some? ==> forall k: nat :: k < g.n - 1 ==>
      ChannelKey(g, PublicPoint(g, partyNum - 1), h[1][k].decom.y) == Some(r.value.2[k])
  {
    hide MakeDecommit1, PublicPoint, ChannelKey;
    var p, j := partyNum - 1, 0;
    var ys: seq<Point>, decoms: seq<Decommit1>, encKeys: seq<nat> := [], [], [];
    ghost var all := Decommits(g, p, h);
    for i := 1 to g.n + 1
      invariant j == |encKeys| == (if partyNum < i then i - 2 else i - 1)
      invariant |ys| == i - 1
      invariant decoms == all[..i - 1]
      invariant forall m: nat :: m < i - 1 ==> ys[m] == all[m].y
      invariant forall k: nat :: k < j ==> ChannelKey(g, PublicPoint(g, p), h[1][k].decom.y) == Some(encKeys[k])
    {
      if i == partyNum {
        ys := ys + [PublicPoint(g, p)];
        decoms := decoms + [MakeDecommit1(g, p)];
        OwnDecommit(g, p);
      } else {
        var decom := h[1][j].decom;
        assert all[i - 1] == decom;
        ys, decoms := ys + [decom.y], decoms + [decom];
        var key := ChannelKey(g, PublicPoint(g, p), decom.y);
        if key.None? {
          return None;
        }
        encKeys := encKeys + [key.value];
        j := j + 1;
      }
    }
    assert ys == Ys(g, p, h);
    assert decoms == all;
    r := Some((ys, decoms, encKeys));
  }

  lemma {:induction false} OwnDecommit(g: Dealing, p: nat)
    requires Sized(g) && p < g.n
    ensures MakeDecommit1(g, p).y == PublicPoint(g, p)
  {
  }

  // Sends every peer its own share under the channel key of that peer.
  method SendShares(store: Store<Msg>, partyNum: nat, n: nat, encKeys: seq<nat>, shares: seq<nat>, uuid: nat)
    requires 0 < partyNum <= n && |encKeys| == n - 1 && |shares| == n
    modifies store
    ensures store.entries == Sent(old(store.entries), partyNum, 2, ShareMessages(partyNum - 1, encKeys, shares), uuid)
  {
    var j, k := 0, 0;
    ghost var msgs := ShareMessages(partyNum - 1, encKeys, shares);
    for i := 1 to n + 1
      invariant k == i - 1 && j == (if partyNum < i then i - 2 else i - 1)
      invariant store.entries == Sent(old(store.entries), partyNum, 2, msgs[..j], uuid)
    {
      if i != partyNum {
        assert Peer(partyNum - 1, j) == k;
        assert msgs[..j + 1][..j] == msgs[..j];
        store.SendP2p(partyNum, i, 2, Round3(Sealed(encKeys[j], shares[k])), uuid);
        j := j + 1;
      }
      k := k + 1;
    }
    assert msgs[..j] == msgs;
  }

  // The c-th peer's own share, sealed with the channel key of that peer.
  function ShareMessages(p: nat, encKeys: seq<nat>, shares: seq<nat>): (v: seq<Msg>)
    requires p < |shares| == |encKeys| + 1
    ensures |v| == |encKeys| && forall c: nat :: c < |v| ==> v[c] == Round3(Sealed(encKeys[c], shares[Peer(p, c)]))
  {
    seq(|encKeys|, c requires 0 <= c < |encKeys| => Round3(Sealed(encKeys[c], shares[Peer(p, c)])))
  }

  // Opens the shares received with the same channel keys; None when one does not open.
  method OpenShares(g: Dealing, partyNum: nat, h: seq<seq<Msg>>, encKeys: seq<nat>, own: seq<nat>) returns (r: Option<seq<nat>>)
    requires 0 < partyNum <= g.n && Typed(g, h) && |h| > 2 && |encKeys| == g.n - 1 && |own| == g.n
    ensures r == if forall k: nat :: k < g.n - 1 ==> encKeys[k] == h[2][k].sealed.key
                 then Some(InsertAt(Opened(g, h), partyNum - 1, own[partyNum - 1])) else None
  {
    hide InsertAt;
    var p, j := partyNum - 1, 0;
    var v: seq<nat> := [];
    ghost var o := Opened(g, h);
    ghost var whole := InsertAt(o, p, own[p]);
    InsertedAt(o, p, own[p]);
    for i := 1 to g.n + 1
      invariant j == (if partyNum < i then i - 2 else i - 1)
      invariant v == whole[..i - 1]
      invariant forall k: nat :: k < j ==> encKeys[k] == h[2][k].sealed.key
    {
      assert whole[..i] == whole[..i - 1] + [whole[i - 1]];
      if i == partyNum {
        v := v + [own[i - 1]];
      } else {
        if encKeys[j] != h[2][j].sealed.key {
          return None;
        }
        assert o[j] == Mod(h[2][j].sealed.plain, g.q);
        v := v + [Mod(h[2][j].sealed.plain, g.q)];
        j := j + 1;
      }
    }
    assert whole[..|whole|] == whole;
    r := Some(v);
  }
}
