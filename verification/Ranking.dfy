// The index by votes over the producers table, and the two functions that walk it.
module Ranking {
  import opened Voting

  // Secondary index key; rows with equal keys are ordered by their primary key.
  function ByVotes(p: Producer): real {
    if p.isActive then -p.totalVotes else p.totalVotes
  }

  predicate Before(m: map<Name, Producer>, a: Name, b: Name)
    requires a in m && b in m
  {
    ByVotes(m[a]) < ByVotes(m[b]) || (ByVotes(m[a]) == ByVotes(m[b]) && a < b)
  }

  // idx lists every row of the table once, in index order.
  ghost predicate IsIndex(m: map<Name, Producer>, idx: seq<Name>) {
    && (forall i :: 0 <= i < |idx| ==> idx[i] in m)
    && (forall a :: a in m ==> a in idx)
    && (forall i, j :: 0 <= i < j < |idx| ==> Before(m, idx[i], idx[j]))
  }

  // Some row comes first ...
  lemma {:induction false} FirstExists(m: map<Name, Producer>) returns (a: Name)
    requires m != map[]
    ensures a in m && forall b :: b in m && b != a ==> Before(m, a, b)
    decreases |m|
  {
    var k :| k in m;
    if m - {k} == map[] {
      a := k;
      assert forall b :: b in m ==> b == k || b in m - {k};
    } else {
      var c := FirstExists(m - {k});
      a := if Before(m, k, c) then k else c;
      forall b | b in m && b != a ensures Before(m, a, b) {
        if b != k { assert b in m - {k}; }
      }
    }
  }

  // ... so every table has an index, ...
  lemma {:induction false} IndexExists(m: map<Name, Producer>) returns (idx: seq<Name>)
    ensures IsIndex(m, idx)
    decreases |m|
  {
    if m == map[] {
      idx := [];
    } else {
      var a := FirstExists(m);
      var rest := IndexExists(m - {a});
      idx := [a] + rest;
      PrependFirst(m, a, rest);
    }
  }

  lemma {:induction false} PrependFirst(m: map<Name, Producer>, a: Name, rest: seq<Name>)
    requires a in m && IsIndex(m - {a}, rest)
    requires forall b :: b in m && b != a ==> Before(m, a, b)
    ensures IsIndex(m, [a] + rest)
  {
    var idx := [a] + rest;
    forall b | b in m ensures b in idx {
      if b != a { assert b in m - {a}; }
    }
    forall i, j | 0 <= i < j < |idx| ensures Before(m, idx[i], idx[j]) {
      if i > 0 { assert Before(m - {a}, rest[i - 1], rest[j - 1]); }
    }
  }

  // ... and only one.
  lemma {:induction false} IndexUnique(m: map<Name, Producer>, x: seq<Name>, y: seq<Name>)
    requires IsIndex(m, x) && IsIndex(m, y)
    ensures x == y
    decreases |m|
  {
    hide IsIndex;
    EmptyTogether(m, x, y);
    if x != [] {
      var a := x[0];
      SameFirst(m, x, y);
      DropFirst(m, x);
      DropFirst(m, y);
      IndexUnique(m - {a}, x[1..], y[1..]);
      assert x == [a] + x[1..] && y == [a] + y[1..];
    }
  }

  lemma {:induction false} EmptyTogether(m: map<Name, Producer>, x: seq<Name>, y: seq<Name>)
    requires IsIndex(m, x) && IsIndex(m, y)
    ensures x == [] <==> y == []
  {
    hide Before;
    assert x != [] ==> x[0] in y;
    assert y != [] ==> y[0] in x;
  }

  lemma {:induction false} SameFirst(m: map<Name, Producer>, x: seq<Name>, y: seq<Name>)
    requires IsIndex(m, x) && IsIndex(m, y) && x != [] && y != []
    ensures x[0] == y[0] && x[0] in m
  {
    assert x[0] in y && y[0] in x;
    var i :| 0 <= i < |y| && y[i] == x[0];
    var j :| 0 <= j < |x| && x[j] == y[0];
    assert i > 0 ==> Before(m, y[0], x[0]);
    assert j > 0 ==> Before(m, x[0], y[0]);
  }

  lemma {:induction false} DropFirst(m: map<Name, Producer>, x: seq<Name>)
    requires IsIndex(m, x) && x != []
    ensures IsIndex(m - {x[0]}, x[1..])
  {
    forall a | a in m - {x[0]} ensures a in x[1..] {
      assert a in x;
      var i :| 0 <= i < |x| && x[i] == a;
      assert x[1..][i - 1] == a;
    }
  }

  ghost predicate NoRepeats(idx: seq<Name>) {
    forall i, j :: 0 <= i < j < |idx| ==> idx[i] != idx[j]
  }

  // An index lists every row exactly once.
  lemma {:induction false} IndexListsOnce(m: map<Name, Producer>, idx: seq<Name>)
    requires IsIndex(m, idx)
    ensures NoRepeats(idx) && |idx| == |m| && forall a :: a in idx <==> a in m
    decreases |m|
  {
    forall i, j | 0 <= i < j < |idx| ensures idx[i] != idx[j] {
      assert Before(m, idx[i], idx[j]);
    }
    if idx == [] {
      assert m == map[] by { assert forall a :: a !in m; }
    } else {
      DropFirst(m, idx);
      IndexListsOnce(m - {idx[0]}, idx[1..]);
      assert |m - {idx[0]}| == |m| - 1 by { RemoveOne(m, idx[0]); }
    }
  }

  lemma {:induction false} RemoveOne(m: map<Name, Producer>, a: Name)
    requires a in m
    ensures |m - {a}| == |m| - 1
  {
    assert (m - {a}).Keys == m.Keys - {a};
    assert |(m - {a}).Keys| == |m.Keys| - 1;
  }

  // --- walking the index ----------------------------------------------------------------

  // The position in the index, and 0 for an account that is not there.
  function Rank(idx: seq<Name>, account: Name): (r: nat)
    ensures account in idx ==> r < |idx| && idx[r] == account && account !in idx[..r]
    ensures account !in idx ==> r == 0
  {
    if idx == [] then 0
    else if idx[0] == account then 0
    else if account in idx[1..] then 1 + Rank(idx[1..], account)
    else 0
  }

  method GetRank(idx: seq<Name>, account: Name) returns (rank: nat)
    ensures rank == Rank(idx, account)
  {
    var i := 0;
    while i < |idx|
      invariant i <= |idx| && account !in idx[..i]
    {
      if idx[i] == account {
        FirstPosition(idx, account, i);
        return i;
      }
      i := i + 1;
    }
    assert idx[..i] == idx;
    rank := 0;
  }

  lemma {:induction false} FirstPosition(idx: seq<Name>, account: Name, i: nat)
    requires i < |idx| && idx[i] == account && account !in idx[..i]
    ensures Rank(idx, account) == i
  {
    var r := Rank(idx, account);
    forall k | 0 <= k < r ensures idx[k] != account {
      assert idx[..r][k] == idx[k];
    }
    forall k | 0 <= k < i ensures idx[k] != account {
      assert idx[..i][k] == idx[k];
    }
  }

  method GetTopNodes(idx: seq<Name>, top: nat, jobId: nat) returns (nodes: seq<Name>)
    ensures nodes == idx
  {
    nodes := [];
    for i := 0 to |idx|
      invariant nodes == idx[..i]
    {
      nodes := nodes + [idx[i]];
    }
  }

  // get_rank inverts get_top_nodes.
  lemma {:induction false} RankInverts(m: map<Name, Producer>, idx: seq<Name>, i: nat)
    requires IsIndex(m, idx) && i < |idx|
    ensures Rank(idx, idx[i]) == i
  {
    forall k | 0 <= k < |idx| && k != i ensures idx[k] != idx[i] {
      var lo, hi := if k < i then k else i, if k < i then i else k;
      assert Before(m, idx[lo], idx[hi]);
    }
  }

  // --- what the index order means -------------------------------------------------------

  // With non-negative totals: active producers by non-increasing votes, inactive ones by
  // non-decreasing votes, and everybody active with votes before everybody inactive.
  lemma {:induction false} RankingOrder(m: map<Name, Producer>, idx: seq<Name>, i: nat, j: nat)
    requires IsIndex(m, idx) && i < |idx| && j < |idx|
    requires forall p :: p in m ==> m[p].totalVotes >= 0.0
    ensures i < j && m[idx[i]].isActive && m[idx[j]].isActive ==> m[idx[i]].totalVotes >= m[idx[j]].totalVotes
    ensures i < j && !m[idx[i]].isActive && !m[idx[j]].isActive ==> m[idx[i]].totalVotes <= m[idx[j]].totalVotes
    ensures m[idx[i]].isActive && m[idx[i]].totalVotes > 0.0 && !m[idx[j]].isActive ==> i < j
  {
    if i < j {
      assert Before(m, idx[i], idx[j]);
    } else if j < i {
      assert Before(m, idx[j], idx[i]);
    }
  }

  // In every reachable state of the voting contract.
  lemma {:induction false} ReachableRanking(ar: Arithmetic, actions: seq<Action>, idx: seq<Name>, i: nat, j: nat)
    requires ValidArithmetic(ar) && IsIndex(Run(ar, actions).producers, idx) && i < |idx| && j < |idx|
    ensures var m := Run(ar, actions).producers;
      && Rank(idx, idx[i]) == i
      && (i < j && m[idx[i]].isActive && m[idx[j]].isActive ==> m[idx[i]].totalVotes >= m[idx[j]].totalVotes)
      && (m[idx[i]].isActive && m[idx[i]].totalVotes > 0.0 && !m[idx[j]].isActive ==> i < j)
  {
    VotesEqualRecount(ar, actions);
    TotalsNonNegative(Run(ar, actions), ar);
    RankInverts(Run(ar, actions).producers, idx, i);
    RankingOrder(Run(ar, actions).producers, idx, i, j);
  }
}
