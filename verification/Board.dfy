// The shared bulletin board and the loops with which a party uses it.
//
// Party numbers are 1 .. n here, as on the wire; the protocol modules count from 0.
module Board {
  import opened Results
  import opened Sums
  import opened Rounds

  // first: sender, second: round, third: session, fourth: recipient, 0 for a broadcast.
  datatype TupleKey = TupleKey(first: nat, second: nat, third: nat, fourth: nat)

  // The store key for a protocol message of one session.
  function Tuple(key: Key, uuid: nat): TupleKey {
    TupleKey(key.sender + 1, key.round, uuid, match key.recipient case None => 0 case Some(d) => d + 1)
  }

  // Different messages, and messages of different sessions, never share a store key.
  lemma {:induction false} TupleInjective(a: Key, b: Key, u: nat, v: nat)
    ensures Tuple(a, u) == Tuple(b, v) <==> a == b && u == v
  {
  }

  // The store holds exactly the given messages of the session.
  ghost predicate Holds<M>(store: map<TupleKey, M>, uuid: nat, board: map<Key, M>) {
    forall key: Key :: (key in board <==> Tuple(key, uuid) in store) && (key in board ==> board[key] == store[Tuple(key, uuid)])
  }

  // A write of one session adds that message to its board and leaves the others alone.
  lemma {:induction false} SetExtends<M>(store: map<TupleKey, M>, uuid: nat, board: map<Key, M>, key: Key, u: nat, value: M)
    requires Holds(store, uuid, board)
    ensures Holds(store[Tuple(key, u) := value], uuid, if u == uuid then board[key := value] else board)
  {
    var store', board' := store[Tuple(key, u) := value], if u == uuid then board[key := value] else board;
    forall k: Key
      ensures k in board' <==> Tuple(k, uuid) in store'
      ensures k in board' ==> board'[k] == store'[Tuple(k, uuid)]
    {
      TupleInjective(k, key, uuid, u);
    }
  }

  // What the party with number partyNum polls from its k-th peer in a round.
  function PollKey(partyNum: nat, round: nat, p2p: bool, k: nat, uuid: nat): TupleKey
    requires partyNum > 0
  {
    Tuple(Key(Peer(partyNum - 1, k), round, if p2p then Some(partyNum - 1) else None), uuid)
  }

  // Where the party with number partyNum sends the message for its c-th peer.
  function SendKey(partyNum: nat, round: nat, c: nat, uuid: nat): TupleKey
    requires partyNum > 0
  {
    Tuple(Key(partyNum - 1, round, Some(Peer(partyNum - 1, c))), uuid)
  }

  // The store after msgs[c] was sent to the c-th peer, for every c.
  function Sent<M>(store: map<TupleKey, M>, partyNum: nat, round: nat, msgs: seq<M>, uuid: nat): map<TupleKey, M>
    requires partyNum > 0
  {
    if msgs == [] then store
    else
      var c := |msgs| - 1;
      Sent(store, partyNum, round, msgs[..c], uuid)[SendKey(partyNum, round, c, uuid) := msgs[c]]
  }

  // Every message lands where its recipient polls for it, none overwrites another, and
  // nothing else changes.
  lemma {:induction false} SentContents<M>(store: map<TupleKey, M>, partyNum: nat, round: nat, msgs: seq<M>, uuid: nat)
    requires partyNum > 0
    ensures var after := Sent(store, partyNum, round, msgs, uuid);
      && (forall c: nat :: c < |msgs| ==> SendKey(partyNum, round, c, uuid) in after)
      && (forall c: nat :: c < |msgs| ==> after[SendKey(partyNum, round, c, uuid)] == msgs[c])
      && (forall key :: (forall c: nat :: c < |msgs| ==> key != SendKey(partyNum, round, c, uuid)) ==>
            (key in after <==> key in store) && (key in after ==> after[key] == store[key]))
    decreases |msgs|
  {
    if msgs != [] {
      SentContents(store, partyNum, round, msgs[..|msgs| - 1], uuid);
    }
  }

  lemma {:induction false} SentIsPolled(partyNum: nat, round: nat, c: nat, k: nat, uuid: nat)
    requires partyNum > 0 && Peer(Peer(partyNum - 1, c), k) == partyNum - 1
    ensures SendKey(partyNum, round, c, uuid) == PollKey(Peer(partyNum - 1, c) + 1, round, true, k, uuid)
  {
  }

  class Store<M> {
    var entries: map<TupleKey, M>

    constructor ()
      ensures entries == map[]
    {
      entries := map[];
    }

    method Set(key: TupleKey, value: M)
      modifies this
      ensures entries == old(entries)[key := value]
    {
      entries := entries[key := value];
    }

    method Get(key: TupleKey) returns (r: Option<M>)
      ensures r == if key in entries then Some(entries[key]) else None
    {
      r := if key in entries then Some(entries[key]) else None;
    }

    method Broadcast(partyNum: nat, round: nat, data: M, uuid: nat)
      requires partyNum > 0
      modifies this
      ensures entries == old(entries)[Tuple(Key(partyNum - 1, round, None), uuid) := data]
    {
      Set(TupleKey(partyNum, round, uuid, 0), data);
    }

    method SendP2p(partyFrom: nat, partyTo: nat, round: nat, data: M, uuid: nat)
      requires partyFrom > 0 && partyTo > 0
      modifies this
      ensures entries == old(entries)[Tuple(Key(partyFrom - 1, round, Some(partyTo - 1)), uuid) := data]
    {
      Set(TupleKey(partyFrom, round, uuid, partyTo), data);
    }

    // Collects the round's messages of all other parties; None while one is still missing.
    method Poll(partyNum: nat, n: nat, round: nat, uuid: nat, p2p: bool) returns (ans: Option<seq<M>>)
      requires 0 < partyNum <= n
      ensures ans.Some? <==> forall k: nat :: k < n - 1 ==> PollKey(partyNum, round, p2p, k, uuid) in entries
      ensures ans.Some? ==> |ans.value| == n - 1
      ensures ans.Some? ==> forall k: nat :: k < n - 1 ==> ans.value[k] == entries[PollKey(partyNum, round, p2p, k, uuid)]
    {
      var v: seq<M> := [];
      for i := 1 to n + 1
        invariant |v| == if i <= partyNum then i - 1 else i - 2
        invariant forall k: nat :: k < |v| ==> PollKey(partyNum, round, p2p, k, uuid) in entries
        invariant forall k: nat :: k < |v| ==> v[k] == entries[PollKey(partyNum, round, p2p, k, uuid)]
      {
        if i != partyNum {
          var key := TupleKey(i, round, uuid, if p2p then partyNum else 0);
          assert key == PollKey(partyNum, round, p2p, |v|, uuid);
          var answer := Get(key);
          if answer.None? {
            return None;
          }
          v := v + [answer.value];
        }
      }
      ans := Some(v);
    }
  }

  // A party that polls a store holding the board of a reachable state, and gets an answer,
  // has exactly the vector that the lockstep execution delivers.
  lemma {:induction false} PollIsLockstep<M>(pr: Protocol<M>, s: State<M>, partyNum: nat, r: nat, store: map<TupleKey, M>, uuid: nat, ans: seq<M>)
    requires RoundInv(pr, s) && 0 < partyNum <= pr.n && r == |s.procs[partyNum - 1].hist|
    requires Holds(store, uuid, s.board) && |ans| == pr.n - 1
    requires forall k: nat :: k < pr.n - 1 ==> PollKey(partyNum, r, pr.p2p(r), k, uuid) in store
    requires forall k: nat :: k < pr.n - 1 ==> ans[k] == store[PollKey(partyNum, r, pr.p2p(r), k, uuid)]
    ensures LockReads(pr, partyNum - 1, r) == Some(ans)
  {
    var p := partyNum - 1;
    forall k: nat | k < pr.n - 1 ensures LockRead(pr, p, r, k) == Some(ans[k]) {
      ReadIsWrite(pr, p, r, k);
      assert PollKey(partyNum, r, pr.p2p(r), k, uuid) == Tuple(ReadKey(pr, p, r, k), uuid);
      assert BoardInv(pr, s, Peer(p, k), r, WriteIndex(pr, Peer(p, k), r, p));
    }
    ReadsAre(pr, p, r, ans);
  }

  // Puts the own value among the polled ones, appending to the given vector.  A party
  // number outside 1 .. |ansVec| + 1 runs past the end of the answers and panics.
  method FormatVecFromReads<T>(ansVec: seq<T>, partyNum: nat, valueI: T, into: seq<T>) returns (newVec: Option<seq<T>>)
    ensures newVec == if 1 <= partyNum <= |ansVec| + 1 then Some(into + InsertAt(ansVec, partyNum - 1, valueI)) else None
  {
    hide InsertAt;
    var v, j := into, 0;
    ghost var inside := 1 <= partyNum <= |ansVec| + 1;
    ghost var whole := if inside then InsertAt(ansVec, partyNum - 1, valueI) else ansVec;
    if inside { InsertedAt(ansVec, partyNum - 1, valueI); }
    for i := 1 to |ansVec| + 2
      invariant j == (if 1 <= partyNum < i then i - 2 else i - 1) && j <= |ansVec|
      invariant i - 1 <= |whole| && v == into + whole[..i - 1]
    {
      ghost var before := whole[..i - 1];
      if i == partyNum {
        v := v + [valueI];
      } else {
        if j >= |ansVec| {
          return None;
        }
        v := v + [ansVec[j]];
        j := j + 1;
      }
      assert whole[..i] == before + [whole[i - 1]];
      Reassociate(into, before, whole[i - 1]);
    }
    assert whole[..|whole|] == whole;
    newVec := Some(v);
  }

  lemma {:induction false} Reassociate<T>(a: seq<T>, b: seq<T>, x: T)
    ensures a + (b + [x]) == a + b + [x]
  {
  }
}
