// Finite sums of integers and scalar folds, and the vectors a party builds by skipping
// itself.
module Sums {
  import opened Zq

  function Sum(n: nat, f: nat -> int): int {
    if n == 0 then 0 else Sum(n - 1, f) + f(n - 1)
  }

  lemma {:induction false} SumCong(n: nat, f: nat -> int, g: nat -> int, q: pos)
    requires forall i: nat :: i < n ==> Cong(f(i), g(i), q)
    ensures Cong(Sum(n, f), Sum(n, g), q)
  {
    hide Mod;
    if n > 0 {
      SumCong(n - 1, f, g, q);
      CongAdd(Sum(n - 1, f), Sum(n - 1, g), f(n - 1), g(n - 1), q);
    }
  }

  lemma {:induction false} SumEq(n: nat, f: nat -> int, g: nat -> int)
    requires forall i: nat :: i < n ==> f(i) == g(i)
    ensures Sum(n, f) == Sum(n, g)
  {
    if n > 0 { SumEq(n - 1, f, g); }
  }

  // The sum of f + c*g.
  lemma {:induction false} SumLinear(n: nat, f: nat -> int, c: int, g: nat -> int, h: nat -> int)
    requires forall i: nat :: i < n ==> h(i) == f(i) + c * g(i)
    ensures Sum(n, h) == Sum(n, f) + c * Sum(n, g)
  {
    if n > 0 {
      SumLinear(n - 1, f, c, g, h);
      Distribute(Sum(n - 1, g), g(n - 1), c);
    }
  }

  // --- double sums ----------------------------------------------------------------------

  function Line(f: (nat, nat) -> int, i: nat): nat -> int {
    (j: nat) => f(i, j)
  }

  function Row(m: nat, f: (nat, nat) -> int): nat -> int {
    (i: nat) => Sum(m, Line(f, i))
  }

  function Flip(f: (nat, nat) -> int): (nat, nat) -> int {
    (i: nat, j: nat) => f(j, i)
  }

  lemma {:induction false} SumSwap(n: nat, m: nat, f: (nat, nat) -> int)
    ensures Sum(n, Row(m, f)) == Sum(m, Row(n, Flip(f)))
  {
    if n == 0 {
      SumScale(m, 0, Row(0, Flip(f)), Row(0, Flip(f)));
    } else {
      SumSwap(n - 1, m, f);
      SumLinear(m, Row(n - 1, Flip(f)), 1, Line(f, n - 1), Row(n, Flip(f)));
    }
  }

  // --- skipping oneself -----------------------------------------------------------------

  // The k-th party other than p, in increasing order.
  function Peer(p: nat, k: nat): nat {
    if k < p then k else k + 1
  }

  function Skip<T>(p: nat, f: nat -> T): nat -> T {
    (k: nat) => f(Peer(p, k))
  }

  // What p holds about the others, in party order: the order in which p polls them.
  function Polled<T>(n: nat, p: nat, f: nat -> T): (v: seq<T>)
    requires p < n
    ensures |v| == n - 1 && forall k: nat :: k < n - 1 ==> v[k] == f(Peer(p, k))
  {
    seq(n - 1, k requires 0 <= k < n - 1 => f(Peer(p, k)))
  }

  function InsertAt<T>(v: seq<T>, p: nat, x: T): (w: seq<T>)
    requires p <= |v|
  {
    v[..p] + [x] + v[p..]
  }

  function RemoveAt<T>(v: seq<T>, p: nat): (w: seq<T>)
    requires p < |v|
  {
    v[..p] + v[p + 1..]
  }

  function Tabulate<T>(n: nat, f: nat -> T): (v: seq<T>)
    ensures |v| == n && forall i: nat :: i < n ==> v[i] == f(i)
  {
    seq(n, i requires 0 <= i < n => f(i))
  }

  // Index alignment: inserting one's own value into the polled vector puts party i's value
  // at index i, and removing one's own index gives the polled vector back.
  lemma {:induction false} InsertOwn<T>(n: nat, p: nat, f: nat -> T)
    requires p < n
    ensures InsertAt(Polled(n, p, f), p, f(p)) == Tabulate(n, f)
    ensures RemoveAt(Tabulate(n, f), p) == Polled(n, p, f)
  {
    var u, t := Polled(n, p, f), Tabulate(n, f);
    InsertedAt(u, p, f(p));
    RemovedAt(t, p);
    var v, w := InsertAt(u, p, f(p)), RemoveAt(t, p);
    forall i: nat | i < n ensures v[i] == t[i] {
      if i < p {
        assert v[i] == u[i];
        assert u[i] == f(Peer(p, i));
      } else if i > p {
        assert v[i] == u[i - 1] == f(Peer(p, i - 1));
      }
    }
    forall k: nat | k < n - 1 ensures w[k] == u[k] {
      assert w[k] == t[Peer(p, k)];
    }
    assert v == t && w == u;
  }

  lemma {:induction false} InsertedAt<T>(v: seq<T>, p: nat, x: T)
    requires p <= |v|
    ensures |InsertAt(v, p, x)| == |v| + 1
    ensures InsertAt(v, p, x)[p] == x
    ensures forall i: nat :: i < p ==> InsertAt(v, p, x)[i] == v[i]
    ensures forall i: nat :: p < i <= |v| ==> InsertAt(v, p, x)[i] == v[i - 1]
  {
  }

  lemma {:induction false} RemovedAt<T>(v: seq<T>, p: nat)
    requires p < |v|
    ensures |RemoveAt(v, p)| == |v| - 1
    ensures forall k: nat :: k < |v| - 1 ==> RemoveAt(v, p)[k] == v[Peer(p, k)]
  {
  }

  lemma {:induction false} InsertMapped<T>(n: nat, p: nat, v: seq<T>, f: nat -> T)
    requires p < n && |v| == n - 1
    requires forall k: nat :: k < n - 1 ==> v[k] == f(Peer(p, k))
    ensures InsertAt(v, p, f(p)) == Tabulate(n, f)
  {
    assert v == Polled(n, p, f);
    InsertOwn(n, p, f);
  }

  lemma {:induction false} SumPeers(n: nat, p: nat, f: nat -> int)
    requires p < n
    ensures Sum(n - 1, Skip(p, f)) == Sum(n, f) - f(p)
  {
    if p == n - 1 {
      assert forall i: nat :: i < n - 1 ==> Skip(p, f)(i) == f(Peer(p, i)) == f(i);
      SumEq(n - 1, Skip(p, f), f);
    } else {
      SumPeers(n - 1, p, f);
      assert Skip(p, f)(n - 2) == f(Peer(p, n - 2)) == f(n - 1);
    }
  }

  // --- scalar folds ---------------------------------------------------------------------

  // v.iter().fold(init, |acc, x| acc + x) over scalars.
  function FoldAdd(init: nat, v: seq<nat>, q: pos): nat {
    if v == [] then init else Mod(FoldAdd(init, v[..|v| - 1], q) + v[|v| - 1], q)
  }

  lemma {:induction false} FoldAddIsSum(init: nat, v: seq<nat>, f: nat -> int, q: pos)
    requires forall i: nat :: i < |v| ==> Cong(v[i], f(i), q)
    ensures Cong(FoldAdd(init, v, q), init + Sum(|v|, f), q)
    ensures v != [] || init < q ==> FoldAdd(init, v, q) < q
  {
    hide Mod;
    if v != [] {
      var k := |v| - 1;
      FoldAddIsSum(init, v[..k], f, q);
      CongAdd(FoldAdd(init, v[..k], q), init + Sum(k, f), v[k], f(k), q);
      CongMod(FoldAdd(init, v[..k], q) + v[k], q);
    }
  }

  // --- the pairwise conversion sum ------------------------------------------------------

  function Times(k: nat -> int, g: nat -> int): (nat, nat) -> int {
    (i: nat, j: nat) => k(i) * g(j)
  }

  // What party i holds after converting with party j: its own part of k(i)*g(j), masked by
  // j's mask b(j, i), and minus the mask it chose itself for k(j)*g(i).
  function Converted(k: nat -> int, g: nat -> int, b: (nat, nat) -> int, i: nat): nat -> int {
    (j: nat) => k(i) * g(j) + b(j, i) - b(i, j)
  }

  // Party p's total: its own product and what it holds from all conversions.
  function PartyTotal(n: nat, k: nat -> int, g: nat -> int, b: (nat, nat) -> int): nat -> int
    requires n > 0
  {
    (p: nat) => k(p) * g(p) + Sum(n - 1, Skip(p, Converted(k, g, b, p)))
  }

  // Over all parties the masks cancel, and the totals add up to the product of the sums.
  lemma {:induction false} PairwiseSum(n: nat, k: nat -> int, g: nat -> int, b: (nat, nat) -> int)
    requires n > 0
    ensures Sum(n, PartyTotal(n, k, g, b)) == Sum(n, k) * Sum(n, g)
  {
    var d := PartyTotal(n, k, g, b);
    var f := Row(n, Times(k, g));
    var e: nat -> int := (i: nat) => f(i) + 1 * Row(n, Flip(b))(i);
    forall i: nat | i < n ensures d(i) == e(i) + (-1) * Row(n, b)(i) {
      PartyRow(n, i, k, g, b);
    }
    SumLinear(n, f, 1, Row(n, Flip(b)), e);
    SumLinear(n, e, -1, Row(n, b), d);
    SumSwap(n, n, b);
    ProductOfSums(n, n, k, g);
  }

  lemma {:induction false} PartyRow(n: nat, i: nat, k: nat -> int, g: nat -> int, b: (nat, nat) -> int)
    requires i < n
    ensures Sum(n - 1, Skip(i, Converted(k, g, b, i))) + k(i) * g(i)
         == Row(n, Times(k, g))(i) + Row(n, Flip(b))(i) - Row(n, b)(i)
  {
    var t := Converted(k, g, b, i);
    SumPeers(n, i, t);
    var f := Line(Times(k, g), i);
    var e: nat -> int := (j: nat) => f(j) + 1 * Flip(b)(i, j);
    SumLinear(n, f, 1, Line(Flip(b), i), e);
    SumLinear(n, e, -1, Line(b, i), t);
  }

  lemma {:induction false} ProductOfSums(n: nat, m: nat, k: nat -> int, g: nat -> int)
    ensures Sum(n, Row(m, Times(k, g))) == Sum(n, k) * Sum(m, g)
  {
    if n > 0 {
      ProductOfSums(n - 1, m, k, g);
      SumScale(m, k(n - 1), g, Line(Times(k, g), n - 1));
      Distribute(Sum(n - 1, k), k(n - 1), Sum(m, g));
    }
  }

  lemma {:induction false} SumScale(m: nat, c: int, g: nat -> int, h: nat -> int)
    requires forall i: nat :: i < m ==> h(i) == c * g(i)
    ensures Sum(m, h) == c * Sum(m, g)
  {
    if m > 0 {
      SumScale(m - 1, c, g, h);
      Distribute(Sum(m - 1, g), g(m - 1), c);
    }
  }
}
