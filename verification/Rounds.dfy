// The parties as processes stepping over a shared write-once board, in any interleaving.
//
// In each round a party writes its messages (one broadcast, or one message to every other
// party), then polls the other parties' messages in party order, and moves on when it has
// them all.  Every poll reads one board entry, and is enabled once the entry is there.
// Parties are numbered from 0 here: index p is the party with number p + 1.
module Rounds {
  import opened Results
  import opened Zq
  import opened Sums

  // post(p, r, d, hist): what party p sends to d in round r (d is p itself for a broadcast)
  // after having polled hist in the rounds before; None when p has panicked.
  datatype Protocol<!M> = Protocol(
    n: nat,
    rounds: nat,
    p2p: nat -> bool,
    post: (nat, nat, nat, seq<seq<M>>) -> Option<M>)

  // The store's key: sender, round and recipient ("" for a broadcast) within one session.
  datatype Key = Key(sender: nat, round: nat, recipient: Option<nat>)

  // A party's completed rounds, its writes in the current round, and its reads so far.
  datatype Proc<M> = Proc(hist: seq<seq<M>>, sent: nat, got: seq<M>)

  datatype State<M> = State(board: map<Key, M>, procs: seq<Proc<M>>)

  datatype Step = Write(p: nat) | Read(p: nat) | Finish(p: nat)

  // --- the message traffic of one round -------------------------------------------------

  function WriteCount<M>(pr: Protocol<M>, r: nat): nat
    requires pr.n > 0
  {
    if pr.p2p(r) then pr.n - 1 else 1
  }

  function Recipient<M>(pr: Protocol<M>, p: nat, r: nat, k: nat): nat {
    if pr.p2p(r) then Peer(p, k) else p
  }

  function WriteKey<M>(pr: Protocol<M>, p: nat, r: nat, k: nat): Key {
    Key(p, r, if pr.p2p(r) then Some(Peer(p, k)) else None)
  }

  function ReadKey<M>(pr: Protocol<M>, p: nat, r: nat, k: nat): Key {
    Key(Peer(p, k), r, if pr.p2p(r) then Some(p) else None)
  }

  // The position of the write that i makes for p.
  function WriteIndex<M>(pr: Protocol<M>, i: nat, r: nat, p: nat): nat
    requires i != p
  {
    if !pr.p2p(r) then 0 else if p < i then p else p - 1
  }

  lemma {:induction false} ReadIsWrite<M>(pr: Protocol<M>, p: nat, r: nat, k: nat)
    requires p < pr.n && k < pr.n - 1
    ensures Peer(p, k) < pr.n && Peer(p, k) != p
    ensures WriteIndex(pr, Peer(p, k), r, p) < WriteCount(pr, r)
    ensures ReadKey(pr, p, r, k) == WriteKey(pr, Peer(p, k), r, WriteIndex(pr, Peer(p, k), r, p))
    ensures Recipient(pr, Peer(p, k), r, WriteIndex(pr, Peer(p, k), r, p)) == if pr.p2p(r) then p else Peer(p, k)
  {
  }

  // --- asynchronous steps ---------------------------------------------------------------

  function Init<M>(pr: Protocol<M>): State<M> {
    State(map[], seq(pr.n, _ => Proc([], 0, [])))
  }

  predicate Enabled<M>(pr: Protocol<M>, s: State<M>, step: Step)
    requires |s.procs| == pr.n
  {
    step.p < pr.n &&
    var p := step.p;
    var me := s.procs[p];
    var r := |me.hist|;
    r < pr.rounds &&
    match step
    case Write(_) => me.sent < WriteCount(pr, r) && pr.post(p, r, Recipient(pr, p, r, me.sent), me.hist).Some?
    case Read(_) => me.sent == WriteCount(pr, r) && |me.got| < pr.n - 1 && ReadKey(pr, p, r, |me.got|) in s.board
    case Finish(_) => me.sent == WriteCount(pr, r) && |me.got| == pr.n - 1
  }

  function Next<M>(pr: Protocol<M>, s: State<M>, step: Step): (s': State<M>)
    requires |s.procs| == pr.n && Enabled(pr, s, step)
    ensures |s'.procs| == pr.n
  {
    var p := step.p;
    var me := s.procs[p];
    var r := |me.hist|;
    match step
    case Write(_) =>
      State(s.board[WriteKey(pr, p, r, me.sent) := pr.post(p, r, Recipient(pr, p, r, me.sent), me.hist).value],
            s.procs[p := me.(sent := me.sent + 1)])
    case Read(_) => s.(procs := s.procs[p := me.(got := me.got + [s.board[ReadKey(pr, p, r, |me.got|)]])])
    case Finish(_) => s.(procs := s.procs[p := Proc(me.hist + [me.got], 0, [])])
  }

  // The state after a schedule, for any choice of steps; None when a step was not enabled.
  function Run<M>(pr: Protocol<M>, steps: seq<Step>): (s: Option<State<M>>)
    ensures s.Some? ==> |s.value.procs| == pr.n
  {
    if steps == [] then Some(Init(pr))
    else
      var s0 :- Run(pr, steps[..|steps| - 1]);
      var last := steps[|steps| - 1];
      if Enabled(pr, s0, last) then Some(Next(pr, s0, last)) else None
  }

  // --- the synchronous reference --------------------------------------------------------

  // What i sends in round r when all parties move in lockstep.
  ghost function LockPost<M>(pr: Protocol<M>, i: nat, r: nat, d: nat): Option<M>
    requires pr.n > 0
    decreases r, 1
  {
    var h :- LockHist(pr, i, r);
    pr.post(i, r, d, h)
  }

  // What p receives from its k-th peer in round r.
  ghost function LockRead<M>(pr: Protocol<M>, p: nat, r: nat, k: nat): Option<M>
    requires pr.n > 0
    decreases r, 2
  {
    LockPost(pr, Peer(p, k), r, if pr.p2p(r) then p else Peer(p, k))
  }

  // What p polls in round r.
  ghost function LockReads<M>(pr: Protocol<M>, p: nat, r: nat): (v: Option<seq<M>>)
    requires pr.n > 0
    ensures v.Some? ==> |v.value| == pr.n - 1 && forall k: nat :: k < pr.n - 1 ==> LockRead(pr, p, r, k) == Some(v.value[k])
    decreases r, 3
  {
    if forall k: nat :: k < pr.n - 1 ==> LockRead(pr, p, r, k).Some?
    then Some(seq(pr.n - 1, k requires 0 <= k < pr.n - 1 => LockRead(pr, p, r, k).value))
    else None
  }

  // What p has polled in rounds 0 .. r-1.
  ghost function LockHist<M>(pr: Protocol<M>, p: nat, r: nat): (h: Option<seq<seq<M>>>)
    requires pr.n > 0
    ensures h.Some? ==> |h.value| == r
    decreases r, 0
  {
    if r == 0 then Some([])
    else
      var h :- LockHist(pr, p, r - 1);
      var v :- LockReads(pr, p, r - 1);
      Some(h + [v])
  }

  // --- the invariant --------------------------------------------------------------------

  ghost predicate ProcInv<M>(pr: Protocol<M>, p: nat, me: Proc<M>)
    requires pr.n > 0
  {
    && |me.hist| <= pr.rounds
    && LockHist(pr, p, |me.hist|) == Some(me.hist)
    && me.sent <= WriteCount(pr, |me.hist|)
    && |me.got| <= pr.n - 1
    && (me.got != [] ==> me.sent == WriteCount(pr, |me.hist|))
    && (|me.hist| == pr.rounds ==> me.sent == 0)
    && forall k: nat :: k < |me.got| ==> LockRead(pr, p, |me.hist|, k) == Some(me.got[k])
  }

  // The k-th message of round r has been written by a process in this position.
  predicate Wrote<M>(me: Proc<M>, r: nat, k: nat) {
    r < |me.hist| || (r == |me.hist| && k < me.sent)
  }

  predicate HasRead<M>(me: Proc<M>, r: nat, k: nat) {
    r < |me.hist| || (r == |me.hist| && k < |me.got|)
  }

  ghost predicate BoardInv<M>(pr: Protocol<M>, s: State<M>, p: nat, r: nat, k: nat)
    requires pr.n > 0 && p < |s.procs|
  {
    && (WriteKey(pr, p, r, k) in s.board <==> Wrote(s.procs[p], r, k))
    && (WriteKey(pr, p, r, k) in s.board ==>
          LockPost(pr, p, r, Recipient(pr, p, r, k)) == Some(s.board[WriteKey(pr, p, r, k)]))
  }

  ghost predicate RoundInv<M>(pr: Protocol<M>, s: State<M>) {
    && pr.n > 0
    && |s.procs| == pr.n
    && (forall p: nat :: p < pr.n ==> ProcInv(pr, p, s.procs[p]))
    && (forall p: nat, r: nat, k: nat :: p < pr.n && k < WriteCount(pr, r) ==> BoardInv(pr, s, p, r, k))
    && (forall p: nat, r: nat, k: nat :: p < pr.n && k < pr.n - 1 && HasRead(s.procs[p], r, k) ==> ReadKey(pr, p, r, k) in s.board)
  }

  lemma {:induction false} InvInit<M>(pr: Protocol<M>)
    requires pr.n > 0
    ensures RoundInv(pr, Init(pr))
  {
  }

  lemma {:induction false} InvWrite<M>(pr: Protocol<M>, s: State<M>, p: nat)
    requires RoundInv(pr, s) && Enabled(pr, s, Write(p))
    ensures RoundInv(pr, Next(pr, s, Write(p)))
  {
    var s' := Next(pr, s, Write(p));
    var me := s.procs[p];
    forall i: nat, r: nat, k: nat | i < pr.n && k < WriteCount(pr, r) ensures BoardInv(pr, s', i, r, k) {
      assert BoardInv(pr, s, i, r, k);
      if WriteKey(pr, i, r, k) == WriteKey(pr, p, |me.hist|, me.sent) {
        assert i == p && r == |me.hist| && k == me.sent;
      }
    }
  }

  lemma {:induction false} InvRead<M>(pr: Protocol<M>, s: State<M>, p: nat)
    requires RoundInv(pr, s) && Enabled(pr, s, Read(p))
    ensures RoundInv(pr, Next(pr, s, Read(p)))
  {
    var s' := Next(pr, s, Read(p));
    var me := s.procs[p];
    var r, k := |me.hist|, |me.got|;
    ReadIsWrite(pr, p, r, k);
    assert BoardInv(pr, s, Peer(p, k), r, WriteIndex(pr, Peer(p, k), r, p));
    assert ProcInv(pr, p, s'.procs[p]);
    forall i: nat, r: nat, k: nat | i < pr.n && k < WriteCount(pr, r) ensures BoardInv(pr, s', i, r, k) {
      assert BoardInv(pr, s, i, r, k);
    }
  }

  lemma {:induction false} InvFinish<M>(pr: Protocol<M>, s: State<M>, p: nat)
    requires RoundInv(pr, s) && Enabled(pr, s, Finish(p))
    ensures RoundInv(pr, Next(pr, s, Finish(p)))
  {
    var s' := Next(pr, s, Finish(p));
    var me := s.procs[p];
    var r := |me.hist|;
    assert ProcInv(pr, p, me);
    ReadsAre(pr, p, r, me.got);
    assert ProcInv(pr, p, s'.procs[p]);
    forall i: nat, r: nat, k: nat | i < pr.n && k < WriteCount(pr, r) ensures BoardInv(pr, s', i, r, k) {
      assert BoardInv(pr, s, i, r, k);
    }
  }

  // Every interleaving keeps the invariant: in particular every message on the board and
  // everything a party has read is what the lockstep execution would have produced.
  lemma {:induction false} AsyncRefinesLockstep<M>(pr: Protocol<M>, steps: seq<Step>)
    requires pr.n > 0 && Run(pr, steps).Some?
    ensures RoundInv(pr, Run(pr, steps).value)
    ensures forall p: nat :: p < pr.n ==>
      LockHist(pr, p, |Run(pr, steps).value.procs[p].hist|) == Some(Run(pr, steps).value.procs[p].hist)
  {
    if steps == [] {
      InvInit(pr);
    } else {
      var last := steps[|steps| - 1];
      var s0 := Run(pr, steps[..|steps| - 1]).value;
      AsyncRefinesLockstep(pr, steps[..|steps| - 1]);
      match last
      case Write(p) => InvWrite(pr, s0, p);
      case Read(p) => InvRead(pr, s0, p);
      case Finish(p) => InvFinish(pr, s0, p);
    }
    var s := Run(pr, steps).value;
    assert forall p: nat :: p < pr.n ==> ProcInv(pr, p, s.procs[p]);
  }

  // A message on the board was posted by its sender's program, on what the sender had read
  // from the board in the rounds before.
  lemma {:induction false} PostedAfterReading<M>(pr: Protocol<M>, s: State<M>, p: nat, r: nat, k: nat)
    requires RoundInv(pr, s) && p < pr.n && k < WriteCount(pr, r) && WriteKey(pr, p, r, k) in s.board
    ensures r <= |s.procs[p].hist|
    ensures var h := s.procs[p].hist[..r]; pr.post(p, r, Recipient(pr, p, r, k), h) == Some(s.board[WriteKey(pr, p, r, k)])
  {
    assert BoardInv(pr, s, p, r, k);
    var me := s.procs[p];
    assert ProcInv(pr, p, me);
    if r < |me.hist| {
      LockHistPrefix(pr, p, r, |me.hist|);
    } else {
      assert me.hist[..r] == me.hist;
    }
  }

  lemma {:induction false} ReadFromBoard<M>(pr: Protocol<M>, s: State<M>, p: nat, r: nat, k: nat)
    requires RoundInv(pr, s) && p < pr.n && r < |s.procs[p].hist| && k < pr.n - 1
    ensures |s.procs[p].hist[r]| == pr.n - 1
    ensures ReadKey(pr, p, r, k) in s.board && s.board[ReadKey(pr, p, r, k)] == s.procs[p].hist[r][k]
  {
    assert ProcInv(pr, p, s.procs[p]);
    LockHistPrefix(pr, p, r, |s.procs[p].hist|);
    assert HasRead(s.procs[p], r, k);
    ReadIsWrite(pr, p, r, k);
    assert BoardInv(pr, s, Peer(p, k), r, WriteIndex(pr, Peer(p, k), r, p));
  }

  // --- the round barrier ----------------------------------------------------------------

  lemma {:induction false} PeerAt(p: nat, i: nat) returns (k: nat)
    requires i != p
    ensures Peer(p, k) == i
    ensures i < p ==> k == i
    ensures i > p ==> k == i - 1
  {
    k := if i < p then i else i - 1;
  }

  // Any two parties are at most one round apart.
  lemma {:induction false} RoundBarrier<M>(pr: Protocol<M>, s: State<M>, p: nat, i: nat)
    requires RoundInv(pr, s) && p < pr.n && i < pr.n
    ensures |s.procs[p].hist| <= |s.procs[i].hist| + 1
  {
    var h := |s.procs[p].hist|;
    if i != p && h > 0 {
      var k := PeerAt(p, i);
      assert HasRead(s.procs[p], h - 1, k);
      ReadIsWrite(pr, p, h - 1, k);
      assert BoardInv(pr, s, i, h - 1, WriteIndex(pr, i, h - 1, p));
    }
  }

  // Nothing of round r + 1 is on the board before every party has broadcast in round r.
  lemma {:induction false} NoEarlyReveal<M>(pr: Protocol<M>, s: State<M>, p: nat, r: nat, k: nat, i: nat)
    requires RoundInv(pr, s) && p < pr.n && i < pr.n && k < WriteCount(pr, r + 1)
    requires WriteKey(pr, p, r + 1, k) in s.board && !pr.p2p(r)
    ensures Key(i, r, None) in s.board
  {
    assert BoardInv(pr, s, p, r + 1, k);
    assert BoardInv(pr, s, i, r, 0);
    if i != p {
      var j := PeerAt(p, i);
      assert HasRead(s.procs[p], r, j);
      ReadIsWrite(pr, p, r, j);
    }
  }

  // Nor is anything of any later round.
  lemma {:induction false} PostsAfterEarlier<M>(pr: Protocol<M>, s: State<M>, p: nat, r: nat, k: nat, earlier: nat, i: nat)
    requires RoundInv(pr, s) && p < pr.n && i < pr.n && k < WriteCount(pr, r) && earlier < r
    requires WriteKey(pr, p, r, k) in s.board && !pr.p2p(earlier)
    ensures Key(i, earlier, None) in s.board
  {
    assert BoardInv(pr, s, p, r, k);
    assert BoardInv(pr, s, i, earlier, 0);
    if i != p {
      var j := PeerAt(p, i);
      assert HasRead(s.procs[p], earlier, j);
      ReadIsWrite(pr, p, earlier, j);
    }
  }

  // Parties that have finished a broadcast round, each with its own message inserted, hold
  // the same n-vector.
  lemma {:induction false} SameVector<M>(pr: Protocol<M>, s: State<M>, p: nat, i: nat, r: nat)
    requires RoundInv(pr, s) && p < pr.n && i < pr.n && !pr.p2p(r)
    requires r < |s.procs[p].hist| && r < |s.procs[i].hist|
    ensures LockPost(pr, p, r, p).Some? && LockPost(pr, i, r, i).Some?
    ensures |s.procs[p].hist[r]| == |s.procs[i].hist[r]| == pr.n - 1
    ensures InsertAt(s.procs[p].hist[r], p, LockPost(pr, p, r, p).value)
         == InsertAt(s.procs[i].hist[r], i, LockPost(pr, i, r, i).value)
  {
    assert BoardInv(pr, s, p, r, 0) && BoardInv(pr, s, i, r, 0);
    VectorOf(pr, s, p, r);
    VectorOf(pr, s, i, r);
    assert InsertAt(s.procs[p].hist[r], p, LockPost(pr, p, r, p).value)
        == InsertAt(s.procs[i].hist[r], i, LockPost(pr, i, r, i).value);
  }

  lemma {:induction false} VectorOf<M>(pr: Protocol<M>, s: State<M>, p: nat, r: nat)
    requires RoundInv(pr, s) && p < pr.n && !pr.p2p(r) && r < |s.procs[p].hist|
    requires LockPost(pr, p, r, p).Some?
    ensures |s.procs[p].hist[r]| == pr.n - 1
    ensures forall j: nat :: j < pr.n ==>
      Some(InsertAt(s.procs[p].hist[r], p, LockPost(pr, p, r, p).value)[j]) == LockPost(pr, j, r, j)
  {
    LockHistPrefix(pr, p, r, |s.procs[p].hist|);
    var v := s.procs[p].hist[r];
    forall j: nat | j < pr.n ensures Some(InsertAt(v, p, LockPost(pr, p, r, p).value)[j]) == LockPost(pr, j, r, j) {
      if j != p {
        var k := PeerAt(p, j);
        assert LockRead(pr, p, r, k) == Some(v[k]);
      }
    }
  }

  lemma {:induction false} LockHistPrefix<M>(pr: Protocol<M>, p: nat, r: nat, m: nat)
    requires pr.n > 0 && r < m && LockHist(pr, p, m).Some?
    ensures LockHist(pr, p, r) == Some(LockHist(pr, p, m).value[..r])
    ensures |LockHist(pr, p, m).value[r]| == pr.n - 1
    ensures forall k: nat :: k < pr.n - 1 ==> LockRead(pr, p, r, k) == Some(LockHist(pr, p, m).value[r][k])
    decreases m
  {
    var h := LockHist(pr, p, m - 1).value;
    assert LockHist(pr, p, m).value[..m - 1] == h;
    if r < m - 1 {
      LockHistPrefix(pr, p, r, m - 1);
      assert LockHist(pr, p, m).value[..r] == h[..r];
    }
  }

  // --- executions in which every party follows its program ------------------------------

  // What p receives from i in round r, when i sends e(i, r, recipient).
  function From<M>(pr: Protocol<M>, e: (nat, nat, nat) -> M, r: nat, p: nat): nat -> M {
    (i: nat) => e(i, r, if pr.p2p(r) then p else i)
  }

  function History<M>(pr: Protocol<M>, e: (nat, nat, nat) -> M, p: nat, r: nat): (h: seq<seq<M>>)
    requires p < pr.n
    ensures |h| == r
  {
    seq(r, s requires 0 <= s < r => Polled(pr.n, p, From(pr, e, s, p)))
  }

  // p's program sends e in round r once p has polled what the others send before.
  ghost predicate Sends<M>(pr: Protocol<M>, e: (nat, nat, nat) -> M, p: nat, r: nat, k: nat)
    requires p < pr.n
  {
    pr.post(p, r, Recipient(pr, p, r, k), History(pr, e, p, r)) == Some(e(p, r, Recipient(pr, p, r, k)))
  }

  lemma {:induction false} ProgramsDetermineHistory<M>(pr: Protocol<M>, e: (nat, nat, nat) -> M, m: nat)
    requires pr.n > 0
    requires forall p: nat, r: nat, k: nat :: p < pr.n && r < m && k < WriteCount(pr, r) ==> Sends(pr, e, p, r, k)
    ensures forall p: nat :: p < pr.n ==> LockHist(pr, p, m) == Some(History(pr, e, p, m))
    ensures forall p: nat, r: nat, k: nat :: p < pr.n && r < m && k < WriteCount(pr, r) ==>
      LockPost(pr, p, r, Recipient(pr, p, r, k)) == Some(e(p, r, Recipient(pr, p, r, k)))
  {
    if m > 0 {
      var r := m - 1;
      ProgramsDetermineHistory(pr, e, r);
      forall p: nat, k: nat | p < pr.n && k < WriteCount(pr, r)
        ensures LockPost(pr, p, r, Recipient(pr, p, r, k)) == Some(e(p, r, Recipient(pr, p, r, k)))
      {
        assert Sends(pr, e, p, r, k);
      }
      forall p: nat | p < pr.n ensures LockHist(pr, p, m) == Some(History(pr, e, p, m)) {
        var v := Polled(pr.n, p, From(pr, e, r, p));
        forall k: nat | k < pr.n - 1 ensures LockRead(pr, p, r, k) == Some(v[k]) {
          ReadIsWrite(pr, p, r, k);
        }
        ReadsAre(pr, p, r, v);
        assert History(pr, e, p, m) == History(pr, e, p, r) + [v];
      }
    }
  }

  lemma {:induction false} ReadsAre<M>(pr: Protocol<M>, p: nat, r: nat, v: seq<M>)
    requires pr.n > 0 && |v| == pr.n - 1
    requires forall k: nat :: k < pr.n - 1 ==> LockRead(pr, p, r, k) == Some(v[k])
    ensures LockReads(pr, p, r) == Some(v)
  {
    assert forall k: nat :: k < pr.n - 1 ==> LockRead(pr, p, r, k).Some?;
    assert LockReads(pr, p, r).Some?;
    assert LockReads(pr, p, r).value == v;
  }

  // --- progress -------------------------------------------------------------------------

  // Nobody panics in the lockstep execution.
  ghost predicate NoPanic<M>(pr: Protocol<M>) {
    pr.n > 0 && forall i: nat, r: nat, k: nat :: i < pr.n && r < pr.rounds && k < WriteCount(pr, r) ==> LockPost(pr, i, r, Recipient(pr, i, r, k)).Some?
  }

  predicate Done<M>(pr: Protocol<M>, s: State<M>)
  {
    forall p: nat :: p < |s.procs| ==> |s.procs[p].hist| == pr.rounds
  }

  lemma {:induction false} Slowest<M>(procs: seq<Proc<M>>) returns (p: nat)
    requires procs != []
    ensures p < |procs| && forall i: nat :: i < |procs| ==> |procs[p].hist| <= |procs[i].hist|
  {
    if |procs| == 1 {
      p := 0;
    } else {
      p := Slowest(procs[..|procs| - 1]);
      if |procs[|procs| - 1].hist| < |procs[p].hist| { p := |procs| - 1; }
    }
  }

  // Until everyone has finished, some party can step.
  lemma {:induction false} Progress<M>(pr: Protocol<M>, s: State<M>) returns (step: Step)
    requires RoundInv(pr, s) && NoPanic(pr) && !Done(pr, s)
    ensures Enabled(pr, s, step)
  {
    var p := Slowest(s.procs);
    var me := s.procs[p];
    var r := |me.hist|;
    assert r < pr.rounds by {
      var j: nat :| j < |s.procs| && |s.procs[j].hist| != pr.rounds;
      assert ProcInv(pr, j, s.procs[j]);
    }
    assert ProcInv(pr, p, me);
    if me.sent < WriteCount(pr, r) {
      assert LockPost(pr, p, r, Recipient(pr, p, r, me.sent)).Some?;
      step := Write(p);
    } else if |me.got| == pr.n - 1 {
      step := Finish(p);
    } else {
      var i := Peer(p, |me.got|);
      ReadIsWrite(pr, p, r, |me.got|);
      var j := WriteIndex(pr, i, r, p);
      assert BoardInv(pr, s, i, r, j);
      assert ProcInv(pr, i, s.procs[i]);
      if ReadKey(pr, p, r, |me.got|) in s.board {
        step := Read(p);
      } else {
        assert LockPost(pr, i, r, Recipient(pr, i, r, s.procs[i].sent)).Some?;
        step := Write(i);
      }
    }
  }

  // The steps taken so far, with a bonus for every completed round.
  function Effort<M>(pr: Protocol<M>, procs: seq<Proc<M>>): nat {
    if procs == [] then 0
    else Effort(pr, procs[1..]) + |procs[0].hist| * (2 * pr.n + 1) + procs[0].sent + |procs[0].got|
  }

  lemma {:induction false} EffortUpdate<M>(pr: Protocol<M>, procs: seq<Proc<M>>, p: nat, me: Proc<M>)
    requires p < |procs|
    requires |procs[p].hist| * (2 * pr.n + 1) + procs[p].sent + |procs[p].got| < |me.hist| * (2 * pr.n + 1) + me.sent + |me.got|
    ensures Effort(pr, procs) < Effort(pr, procs[p := me])
  {
    if p > 0 {
      assert procs[p := me][1..] == procs[1..][p - 1 := me];
      EffortUpdate(pr, procs[1..], p - 1, me);
    } else {
      assert procs[p := me][1..] == procs[1..];
    }
  }

  lemma {:induction false} EffortBounded<M>(pr: Protocol<M>, procs: seq<Proc<M>>)
    requires forall p :: 0 <= p < |procs| ==> |procs[p].hist| <= pr.rounds && procs[p].sent <= pr.n && |procs[p].got| <= pr.n
    ensures Effort(pr, procs) <= |procs| * (pr.rounds * (2 * pr.n + 1) + 2 * pr.n)
  {
    if procs != [] {
      EffortBounded(pr, procs[1..]);
      var c := pr.rounds * (2 * pr.n + 1) + 2 * pr.n;
      Distribute(|procs| - 1, 1, c);
      Monotone(|procs[0].hist|, pr.rounds, 2 * pr.n + 1);
    }
  }

  lemma {:induction false} Monotone(a: nat, b: nat, c: nat)
    requires a <= b
    ensures a * c <= b * c
  {
  }

  // Every run is bounded: each step increases an effort that has an upper limit.
  lemma {:induction false} StepsAreBounded<M>(pr: Protocol<M>, s: State<M>, step: Step)
    requires RoundInv(pr, s) && Enabled(pr, s, step)
    ensures Effort(pr, s.procs) < Effort(pr, Next(pr, s, step).procs)
         <= pr.n * (pr.rounds * (2 * pr.n + 1) + 2 * pr.n)
  {
    var p := step.p;
    var s' := Next(pr, s, step);
    assert ProcInv(pr, p, s.procs[p]);
    if step.Finish? { Distribute(|s.procs[p].hist|, 1, 2 * pr.n + 1); }
    EffortUpdate(pr, s.procs, p, s'.procs[p]);
    match step {
      case Write(_) => InvWrite(pr, s, p);
      case Read(_) => InvRead(pr, s, p);
      case Finish(_) => InvFinish(pr, s, p);
    }
    assert forall i: nat :: i < pr.n ==> ProcInv(pr, i, s'.procs[i]);
    EffortBounded(pr, s'.procs);
  }

  // On every run: parties stay within one round of each other, and no message of round
  // r + 1 is on the board before every party's broadcast of round r.
  lemma {:induction false} BarrierOnEveryRun<M>(pr: Protocol<M>, steps: seq<Step>, p: nat, i: nat, r: nat, k: nat)
    requires pr.n > 0 && Run(pr, steps).Some? && p < pr.n && i < pr.n
    ensures var s := Run(pr, steps).value;
      && |s.procs[p].hist| <= |s.procs[i].hist| + 1
      && (k < WriteCount(pr, r + 1) && WriteKey(pr, p, r + 1, k) in s.board && !pr.p2p(r) ==> Key(i, r, None) in s.board)
  {
    var s := Run(pr, steps).value;
    AsyncRefinesLockstep(pr, steps);
    RoundBarrier(pr, s, p, i);
    if k < WriteCount(pr, r + 1) && WriteKey(pr, p, r + 1, k) in s.board && !pr.p2p(r) {
      NoEarlyReveal(pr, s, p, r, k, i);
    }
  }

  // Every run is finite, and when nobody panics one that cannot be extended has finished
  // all rounds for all parties.
  lemma {:induction false} EveryRunEnds<M>(pr: Protocol<M>, steps: seq<Step>)
    requires pr.n > 0 && Run(pr, steps).Some?
    ensures |steps| <= pr.n * (pr.rounds * (2 * pr.n + 1) + 2 * pr.n)
    ensures NoPanic(pr) && (forall step :: !Enabled(pr, Run(pr, steps).value, step)) ==> Done(pr, Run(pr, steps).value)
  {
    var s := Run(pr, steps).value;
    AsyncRefinesLockstep(pr, steps);
    StepsTaken(pr, steps);
    EffortOfState(pr, s);
    if NoPanic(pr) && !Done(pr, s) {
      var step := Progress(pr, s);
    }
  }

  lemma {:induction false} EffortOfState<M>(pr: Protocol<M>, s: State<M>)
    requires RoundInv(pr, s)
    ensures Effort(pr, s.procs) <= pr.n * (pr.rounds * (2 * pr.n + 1) + 2 * pr.n)
  {
    assert forall i: nat :: i < pr.n ==> ProcInv(pr, i, s.procs[i]);
    EffortBounded(pr, s.procs);
  }

  lemma {:induction false} StepsTaken<M>(pr: Protocol<M>, steps: seq<Step>)
    requires pr.n > 0 && Run(pr, steps).Some?
    ensures |steps| <= Effort(pr, Run(pr, steps).value.procs)
    decreases |steps|
  {
    if steps != [] {
      var front := steps[..|steps| - 1];
      StepsTaken(pr, front);
      AsyncRefinesLockstep(pr, front);
      StepsAreBounded(pr, Run(pr, front).value, steps[|steps| - 1]);
    }
  }
}
