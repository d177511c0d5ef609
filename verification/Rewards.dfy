// The distribution contract: rewards credited per node and job, and paid out.
//
// `credited` and `paid` are logs that the contract does not store; they are kept here to
// state where every credited row went.
module Rewards {
  import opened Results
  import opened MapSum
  import opened Ranking
  import opened Zq
  import Voting

  type Name = Voting.Name

  datatype Rule = Rule(period: nat, rewardAmount: int, standbyAmount: int, rankThreshold: nat, standbyThreshold: nat)

  // The memo of a row: the job, the position in the ranking (from 1) and the time.
  datatype Memo = Memo(jobId: nat, position: nat, time: nat)

  datatype Row = Row(amount: int, memo: Memo)

  datatype State = State(
    rules: map<nat, Rule>,
    history: map<nat, nat>,
    pending: map<Name, seq<Row>>,
    credited: map<Name, seq<Row>>,
    paid: map<Name, seq<Row>>)

  const TWO_32: int := 0x1_0000_0000

  function RowsIn(table: map<Name, seq<Row>>, node: Name): seq<Row> { if node in table then table[node] else [] }
  function Pending(s: State, node: Name): seq<Row> { RowsIn(s.pending, node) }
  function Credited(s: State, node: Name): seq<Row> { RowsIn(s.credited, node) }
  function Paid(s: State, node: Name): seq<Row> { RowsIn(s.paid, node) }

  function SumOf(rows: seq<Row>): int { if rows == [] then 0 else SumOf(rows[..|rows| - 1]) + rows[|rows| - 1].amount }

  // --- crediting ------------------------------------------------------------------------

  // What the node with this rank gets.
  function AmountFor(rule: Rule, rank: nat): int {
    if rank < rule.rankThreshold then rule.rewardAmount else rule.standbyAmount
  }

  function RowFor(rule: Rule, rank: nat, jobId: nat, now: nat): Row {
    Row(AmountFor(rule, rank), Memo(jobId, rank + 1, now))
  }

  function Credit(s: State, node: Name, row: Row): State {
    s.(pending := s.pending[node := Pending(s, node) + [row]], credited := s.credited[node := Credited(s, node) + [row]])
  }

  // Credits the first i nodes of the ranking.
  function CreditUpTo(s: State, rule: Rule, nodes: seq<Name>, jobId: nat, now: nat, i: nat): State
    requires i <= |nodes|
  {
    if i == 0 then s
    else Credit(CreditUpTo(s, rule, nodes, jobId, now, i - 1), nodes[i - 1], RowFor(rule, Rank(nodes, nodes[i - 1]), jobId, now))
  }

  // The rule in force is always the one with number 2; 32-bit addition wraps around.
  predicate Due(s: State, jobId: nat, now: nat)
    requires 2 in s.rules
  {
    jobId in s.history ==> now >= (s.history[jobId] + s.rules[2].period) % TWO_32
  }

  function Calculated(s: State, nodes: seq<Name>, jobId: nat, now: nat): Option<State> {
    if 2 !in s.rules || !Due(s, jobId, now) then None
    else Some(CreditUpTo(Started(s, jobId, now), s.rules[2], nodes, jobId, now, |nodes|))
  }

  function Started(s: State, jobId: nat, now: nat): State {
    s.(history := s.history[jobId := now])
  }

  // --- paying ---------------------------------------------------------------------------

  // Every pending row goes out by its own transfer; `accepted` says whether the token
  // contract takes the node's transfers.
  function PaidOut(s: State, node: Name, accepted: Name -> bool): Option<State> {
    if Pending(s, node) == [] then Some(s)
    else if !accepted(node) then None
    else Some(s.(pending := s.pending - {node}, paid := s.paid[node := Paid(s, node) + Pending(s, node)]))
  }

  function PaidAll(s: State, nodes: seq<Name>, accepted: Name -> bool): Option<State>
    decreases |nodes|
  {
    if nodes == [] then Some(s)
    else
      var s' :- PaidAll(s, nodes[..|nodes| - 1], accepted);
      PaidOut(s', nodes[|nodes| - 1], accepted)
  }

  // Both jobs are calculated over the ranking, then all registered producers are paid.
  function Uptimed(s: State, account: Name, ranking: seq<Name>, producers: seq<Name>, now: nat, accepted: Name -> bool): Option<State> {
    if account !in producers then None
    else
      var s' :- BothCalculated(s, ranking, now);
      PaidAll(s', producers, accepted)
  }

  function BothCalculated(s: State, ranking: seq<Name>, now: nat): Option<State> {
    var s' :- Calculated(s, ranking, 1, now);
    Calculated(s', ranking, 2, now)
  }

  datatype Action =
    | SetRule(id: nat, rule: Rule)
    | Calc(nodes: seq<Name>, jobId: nat, now: nat)
    | GetReward(node: Name, accepted: Name -> bool)
    | Uptime(account: Name, ranking: seq<Name>, producers: seq<Name>, now: nat, accepted: Name -> bool)

  function Apply(s: State, a: Action): Option<State> {
    match a
    case SetRule(id, rule) => Some(s.(rules := s.rules[id := rule]))
    case Calc(nodes, jobId, now) => Calculated(s, nodes, jobId, now)
    case GetReward(node, accepted) => PaidOut(s, node, accepted)
    case Uptime(account, ranking, producers, now, accepted) => Uptimed(s, account, ranking, producers, now, accepted)
  }

  function Run(actions: seq<Action>): State
    decreases |actions|
  {
    if actions == [] then State(map[], map[], map[], map[], map[])
    else
      var s := Run(actions[..|actions| - 1]);
      match Apply(s, actions[|actions| - 1]) case Some(s') => s' case None => s
  }

  // --- credited = paid + pending --------------------------------------------------------

  // Row by row and in order.
  ghost predicate Balanced(s: State) {
    forall node :: Credited(s, node) == Paid(s, node) + Pending(s, node)
  }

  lemma {:induction false} Reassociate(a: seq<Row>, b: seq<Row>, c: seq<Row>)
    ensures (a + b) + c == a + (b + c)
  {
  }

  lemma {:induction false} CreditBalanced(s: State, node: Name, row: Row)
    requires Balanced(s)
    ensures Balanced(Credit(s, node, row))
  {
    var s' := Credit(s, node, row);
    forall n ensures Credited(s', n) == Paid(s', n) + Pending(s', n) {
      assert Credited(s, n) == Paid(s, n) + Pending(s, n);
      Reassociate(Paid(s, n), Pending(s, n), [row]);
    }
  }

  lemma {:induction false} CreditUpToBalanced(s: State, rule: Rule, nodes: seq<Name>, jobId: nat, now: nat, i: nat)
    requires i <= |nodes| && Balanced(s)
    ensures Balanced(CreditUpTo(s, rule, nodes, jobId, now, i))
    decreases i
  {
    if i > 0 {
      CreditUpToBalanced(s, rule, nodes, jobId, now, i - 1);
      CreditBalanced(CreditUpTo(s, rule, nodes, jobId, now, i - 1), nodes[i - 1], RowFor(rule, Rank(nodes, nodes[i - 1]), jobId, now));
    }
  }

  lemma {:induction false} CalculatedBalanced(s: State, nodes: seq<Name>, jobId: nat, now: nat)
    requires Balanced(s) && Calculated(s, nodes, jobId, now).Some?
    ensures Balanced(Calculated(s, nodes, jobId, now).value)
  {
    var s0 := Started(s, jobId, now);
    assert Balanced(s0) by {
      forall n ensures Credited(s0, n) == Paid(s0, n) + Pending(s0, n) {
        assert Credited(s, n) == Paid(s, n) + Pending(s, n);
      }
    }
    CreditUpToBalanced(s0, s.rules[2], nodes, jobId, now, |nodes|);
  }

  lemma {:induction false} PaidOutBalanced(s: State, node: Name, accepted: Name -> bool)
    requires Balanced(s) && PaidOut(s, node, accepted).Some?
    ensures Balanced(PaidOut(s, node, accepted).value) && Pending(PaidOut(s, node, accepted).value, node) == []
    ensures forall n :: Pending(s, n) == [] ==> Pending(PaidOut(s, node, accepted).value, n) == []
  {
    var s' := PaidOut(s, node, accepted).value;
    forall n ensures Credited(s', n) == Paid(s', n) + Pending(s', n) {
      assert Credited(s, n) == Paid(s, n) + Pending(s, n);
    }
  }

  lemma {:induction false} PaidAllBalanced(s: State, nodes: seq<Name>, accepted: Name -> bool)
    requires Balanced(s) && PaidAll(s, nodes, accepted).Some?
    ensures Balanced(PaidAll(s, nodes, accepted).value)
    ensures forall n :: n in nodes || Pending(s, n) == [] ==> Pending(PaidAll(s, nodes, accepted).value, n) == []
    decreases |nodes|
  {
    if nodes != [] {
      var front, last := nodes[..|nodes| - 1], nodes[|nodes| - 1];
      PaidAllBalanced(s, front, accepted);
      PaidOutBalanced(PaidAll(s, front, accepted).value, last, accepted);
      assert nodes == front + [last];
    }
  }

  // Over every run, the rows credited to a node are those paid followed by those pending,
  // and so are their sums.
  lemma {:induction false} CreditedIsPaidOrPending(actions: seq<Action>, node: Name)
    ensures Credited(Run(actions), node) == Paid(Run(actions), node) + Pending(Run(actions), node)
    ensures SumOf(Credited(Run(actions), node)) == SumOf(Paid(Run(actions), node)) + SumOf(Pending(Run(actions), node))
  {
    RunBalanced(actions);
    SumConcat(Paid(Run(actions), node), Pending(Run(actions), node));
  }

  lemma {:induction false} SumConcat(a: seq<Row>, b: seq<Row>)
    ensures SumOf(a + b) == SumOf(a) + SumOf(b)
    decreases |b|
  {
    if b == [] {
      assert a + b == a;
    } else {
      assert (a + b)[..|a + b| - 1] == a + b[..|b| - 1];
      SumConcat(a, b[..|b| - 1]);
    }
  }

  lemma {:induction false} RunBalanced(actions: seq<Action>)
    ensures Balanced(Run(actions))
    decreases |actions|
  {
    if actions != [] {
      var s := Run(actions[..|actions| - 1]);
      RunBalanced(actions[..|actions| - 1]);
      var a := actions[|actions| - 1];
      if Apply(s, a).Some? {
        match a
        case SetRule(id, rule) =>
          forall n ensures Credited(Run(actions), n) == Paid(Run(actions), n) + Pending(Run(actions), n) {
            assert Credited(s, n) == Paid(s, n) + Pending(s, n);
          }
        case Calc(nodes, jobId, now) => CalculatedBalanced(s, nodes, jobId, now);
        case GetReward(node, accepted) => PaidOutBalanced(s, node, accepted);
        case Uptime(account, ranking, producers, now, accepted) => UptimeSettles(s, account, ranking, producers, now, accepted);
      }
    }
  }

  // A successful uptime call leaves no registered producer with anything pending.
  lemma {:induction false} UptimeSettles(s: State, account: Name, ranking: seq<Name>, producers: seq<Name>, now: nat, accepted: Name -> bool)
    requires Balanced(s) && Uptimed(s, account, ranking, producers, now, accepted).Some?
    ensures Balanced(Uptimed(s, account, ranking, producers, now, accepted).value)
    ensures forall n :: n in producers ==> Pending(Uptimed(s, account, ranking, producers, now, accepted).value, n) == []
  {
    var s1 := Calculated(s, ranking, 1, now).value;
    CalculatedBalanced(s, ranking, 1, now);
    CalculatedBalanced(s1, ranking, 2, now);
    PaidAllBalanced(Calculated(s1, ranking, 2, now).value, producers, accepted);
  }

  // --- how much one calculation credits -------------------------------------------------

  lemma {:induction false} RankIsPosition(nodes: seq<Name>, i: nat)
    requires NoRepeats(nodes) && i < |nodes|
    ensures Rank(nodes, nodes[i]) == i
  {
    var r := Rank(nodes, nodes[i]);
    assert nodes[r] == nodes[i];
  }

  lemma {:induction false} CreditEffect(s: State, to: Name, row: Row, node: Name)
    ensures Pending(Credit(s, to, row), node) == if node == to then Pending(s, node) + [row] else Pending(s, node)
    ensures Credited(Credit(s, to, row), node) == if node == to then Credited(s, node) + [row] else Credited(s, node)
  {
  }

  // Every ranked node gets exactly one row, the one for its rank; others get none.
  lemma {:induction false} CreditsEachOnce(s: State, rule: Rule, nodes: seq<Name>, jobId: nat, now: nat, i: nat, node: Name)
    requires NoRepeats(nodes) && i <= |nodes|
    ensures var rows := if node in nodes && Rank(nodes, node) < i then [RowFor(rule, Rank(nodes, node), jobId, now)] else [];
      && Pending(CreditUpTo(s, rule, nodes, jobId, now, i), node) == Pending(s, node) + rows
      && Credited(CreditUpTo(s, rule, nodes, jobId, now, i), node) == Credited(s, node) + rows
    decreases i
  {
    hide Pending, Credited, Credit, RowFor, Rank;
    if i > 0 {
      CreditsEachOnce(s, rule, nodes, jobId, now, i - 1, node);
      RankIsPosition(nodes, i - 1);
      CreditEffect(CreditUpTo(s, rule, nodes, jobId, now, i - 1), nodes[i - 1], RowFor(rule, i - 1, jobId, now), node);
    }
  }

  lemma {:induction false} CreditKeepsTables(s: State, rule: Rule, nodes: seq<Name>, jobId: nat, now: nat, i: nat)
    requires i <= |nodes|
    ensures CreditUpTo(s, rule, nodes, jobId, now, i).rules == s.rules
    ensures CreditUpTo(s, rule, nodes, jobId, now, i).history == s.history
    decreases i
  {
    if i > 0 { CreditKeepsTables(s, rule, nodes, jobId, now, i - 1); }
  }

  // The whole effect of one calculation.
  lemma {:induction false} CalculationAdds(s: State, nodes: seq<Name>, jobId: nat, now: nat, node: Name)
    requires NoRepeats(nodes) && Calculated(s, nodes, jobId, now).Some?
    ensures var s' := Calculated(s, nodes, jobId, now).value;
      var rows := if node in nodes then [RowFor(s.rules[2], Rank(nodes, node), jobId, now)] else [];
      && Pending(s', node) == Pending(s, node) + rows && Credited(s', node) == Credited(s, node) + rows
      && s'.rules == s.rules && s'.history == s.history[jobId := now]
  {
    hide CreditUpTo, RowFor, Rank;
    CreditsEachOnce(Started(s, jobId, now), s.rules[2], nodes, jobId, now, |nodes|, node);
    CreditKeepsTables(Started(s, jobId, now), s.rules[2], nodes, jobId, now, |nodes|);
  }

  function Min(a: nat, b: nat): nat { if a < b then a else b }

  function AmountIn(): (Name, seq<Row>) -> real { (node: Name, rows: seq<Row>) => SumOf(rows) as real }

  // In total, over all nodes: the reward for the ranks below the threshold, the standby
  // amount for the rest.
  lemma {:induction false} CreditTotal(s: State, rule: Rule, nodes: seq<Name>, jobId: nat, now: nat, i: nat)
    requires NoRepeats(nodes) && i <= |nodes|
    ensures Total(CreditUpTo(s, rule, nodes, jobId, now, i).credited, AmountIn()) == Total(s.credited, AmountIn()) + InTotal(rule, i) as real
    decreases i
  {
    hide Rank, InTotal, RowFor, Total;
    NothingInTotal(rule);
    if i > 0 {
      CreditTotal(s, rule, nodes, jobId, now, i - 1);
      RankIsPosition(nodes, i - 1);
      OneCredit(CreditUpTo(s, rule, nodes, jobId, now, i - 1), nodes[i - 1], RowFor(rule, i - 1, jobId, now));
      OneRankMore(rule, i - 1, jobId, now);
    }
  }

  lemma {:induction false} OneCredit(s: State, node: Name, row: Row)
    ensures Total(Credit(s, node, row).credited, AmountIn()) == Total(s.credited, AmountIn()) + row.amount as real
  {
    hide Total;
    Update(s.credited, AmountIn(), node, Credited(s, node) + [row]);
    SumConcat(Credited(s, node), [row]);
    assert [row][..0] == [];
  }

  function InTotal(rule: Rule, i: nat): int {
    Min(i, rule.rankThreshold) * rule.rewardAmount + (i - Min(i, rule.rankThreshold)) * rule.standbyAmount
  }

  lemma {:induction false} NothingInTotal(rule: Rule)
    ensures InTotal(rule, 0) == 0
  {
  }

  lemma {:induction false} OneRankMore(rule: Rule, i: nat, jobId: nat, now: nat)
    ensures InTotal(rule, i + 1) == InTotal(rule, i) + RowFor(rule, i, jobId, now).amount
  {
    if i < rule.rankThreshold {
      OneMore(i, rule.rewardAmount);
    } else {
      OneMore(i - rule.rankThreshold, rule.standbyAmount);
    }
  }

  lemma {:induction false} OneMore(n: int, x: int)
    ensures (n + 1) * x == n * x + x
  {
  }

  // So one calculation over n nodes credits that much in total, and records its time.
  lemma {:induction false} CalculationCredits(s: State, nodes: seq<Name>, jobId: nat, now: nat)
    requires NoRepeats(nodes) && Calculated(s, nodes, jobId, now).Some?
    ensures var s', rule, n := Calculated(s, nodes, jobId, now).value, s.rules[2], |nodes|;
      && Total(s'.credited, AmountIn()) - Total(s.credited, AmountIn())
           == (Min(n, rule.rankThreshold) * rule.rewardAmount + (n - Min(n, rule.rankThreshold)) * rule.standbyAmount) as real
      && s'.history == s.history[jobId := now]
  {
    CreditTotal(Started(s, jobId, now), s.rules[2], nodes, jobId, now, |nodes|);
    CreditKeepsTables(Started(s, jobId, now), s.rules[2], nodes, jobId, now, |nodes|);
  }

  // The ranking is the index of the voting contract's table: in every reachable state of
  // that contract a calculation credits every registered producer, active or not, exactly
  // once, and in total the amounts for as many nodes as are registered.
  lemma {:induction false} ProducersCredited(ar: Voting.Arithmetic, votes: seq<Voting.Action>, idx: seq<Name>, s: State, jobId: nat, now: nat, node: Name)
    requires IsIndex(Voting.Run(ar, votes).producers, idx) && Calculated(s, idx, jobId, now).Some?
    ensures NoRepeats(idx)
    ensures var s', rule, n := Calculated(s, idx, jobId, now).value, s.rules[2], |Voting.Run(ar, votes).producers|;
      && Total(s'.credited, AmountIn()) - Total(s.credited, AmountIn())
           == (Min(n, rule.rankThreshold) * rule.rewardAmount + (n - Min(n, rule.rankThreshold)) * rule.standbyAmount) as real
      && Credited(s', node) == Credited(s, node)
           + if node in Voting.Run(ar, votes).producers then [RowFor(rule, Rank(idx, node), jobId, now)] else []
  {
    IndexListsOnce(Voting.Run(ar, votes).producers, idx);
    CalculationCredits(s, idx, jobId, now);
    CalculationAdds(s, idx, jobId, now, node);
  }

  // An uptime call over the index of a reachable state of the voting contract, after any run
  // of this one: it was made for a registered producer, pays every registered producer
  // everything pending and its two new rows, and leaves nobody registered with a pending row.
  lemma {:induction false} UptimePaysProducers(ar: Voting.Arithmetic, votes: seq<Voting.Action>, actions: seq<Action>, account: Name, idx: seq<Name>,
      producers: seq<Name>, now: nat, accepted: Name -> bool, node: Name)
    requires var m := Voting.Run(ar, votes).producers; IsIndex(m, idx) && forall n :: n in producers <==> n in m
    requires Uptimed(Run(actions), account, idx, producers, now, accepted).Some?
    requires node in Voting.Run(ar, votes).producers
    ensures account in Voting.Run(ar, votes).producers
    ensures var s, s' := Run(actions), Uptimed(Run(actions), account, idx, producers, now, accepted).value;
      && 2 in s.rules && Pending(s', node) == []
      && Paid(s', node) == Paid(s, node) + Pending(s, node)
           + [RowFor(s.rules[2], Rank(idx, node), 1, now)] + [RowFor(s.rules[2], Rank(idx, node), 2, now)]
  {
    hide CreditUpTo, Rank, RowFor, PaidAll, Due, Voting.Run, IsIndex, Pending, Paid, Credited, Balanced, Run;
    var m, s := Voting.Run(ar, votes).producers, Run(actions);
    IndexListsOnce(m, idx);
    RunBalanced(actions);
    UptimeSettles(s, account, idx, producers, now, accepted);
    var s1 := Calculated(s, idx, 1, now).value;
    var s2 := Calculated(s1, idx, 2, now).value;
    var s' := PaidAll(s2, producers, accepted).value;
    CalculationAdds(s, idx, 1, now, node);
    CalculationAdds(s1, idx, 2, now, node);
    PaidAllKeeps(s2, producers, accepted);
    SameCredited(s2, s', node);
    BalancedAt(s, node);
    BalancedAt(s', node);
  }

  lemma {:induction false} SameCredited(s: State, s': State, node: Name)
    requires s.credited == s'.credited
    ensures Credited(s, node) == Credited(s', node)
  {
  }

  lemma {:induction false} BalancedAt(s: State, node: Name)
    requires Balanced(s)
    ensures Credited(s, node) == Paid(s, node) + Pending(s, node)
    ensures Pending(s, node) == [] ==> Credited(s, node) == Paid(s, node)
  {
  }

  // --- the standby threshold ------------------------------------------------------------

  function WithStandby(s: State, threshold: nat): State
    requires 2 in s.rules
  {
    s.(rules := s.rules[2 := s.rules[2].(standbyThreshold := threshold)])
  }

  // The standby threshold has no influence on any calculation ...
  lemma {:induction false} StandbyIgnored(s: State, threshold: nat, nodes: seq<Name>, jobId: nat, now: nat)
    requires 2 in s.rules
    ensures Calculated(WithStandby(s, threshold), nodes, jobId, now)
         == match Calculated(s, nodes, jobId, now) case None => None case Some(s') => Some(s'.(rules := WithStandby(s, threshold).rules))
  {
    hide CreditUpTo, Rank;
    if Due(s, jobId, now) {
      StandbyIgnoredUpTo(Started(s, jobId, now), s.rules[2], threshold, WithStandby(s, threshold).rules, nodes, jobId, now, |nodes|);
    }
  }

  lemma {:induction false} StandbyIgnoredUpTo(s: State, rule: Rule, threshold: nat, rules: map<nat, Rule>, nodes: seq<Name>, jobId: nat, now: nat, i: nat)
    requires i <= |nodes|
    ensures CreditUpTo(s.(rules := rules), rule.(standbyThreshold := threshold), nodes, jobId, now, i)
         == CreditUpTo(s, rule, nodes, jobId, now, i).(rules := rules)
    decreases i
  {
    hide Rank, Credit, RowFor, CreditUpTo;
    CreditMore(s, rule, nodes, jobId, now, i);
    CreditMore(s.(rules := rules), rule.(standbyThreshold := threshold), nodes, jobId, now, i);
    if i > 0 {
      StandbyIgnoredUpTo(s, rule, threshold, rules, nodes, jobId, now, i - 1);
      StandbyIgnoredRow(CreditUpTo(s, rule, nodes, jobId, now, i - 1), rule, threshold, rules, nodes[i - 1], Rank(nodes, nodes[i - 1]), jobId, now);
    }
  }

  lemma {:induction false} StandbyIgnoredRow(s: State, rule: Rule, threshold: nat, rules: map<nat, Rule>, node: Name, rank: nat, jobId: nat, now: nat)
    ensures Credit(s.(rules := rules), node, RowFor(rule.(standbyThreshold := threshold), rank, jobId, now))
         == Credit(s, node, RowFor(rule, rank, jobId, now)).(rules := rules)
  {
  }

  // A row for a position beyond the rank threshold, with the standby amount.
  predicate IsStandbyRow(rule: Rule, row: Row) {
    row.amount == rule.standbyAmount && row.memo.position > rule.rankThreshold
  }

  ghost predicate GetsStandby(s: State, s': State, rule: Rule, node: Name) {
    exists row :: IsStandbyRow(rule, row) && Credited(s', node) == Credited(s, node) + [row]
  }

  // ... so even with threshold 0, a standby row is credited exactly when there are more
  // nodes than the rank threshold.
  lemma {:induction false} StandbyCreditedIff(s: State, nodes: seq<Name>, jobId: nat, now: nat)
    requires NoRepeats(nodes) && Calculated(s, nodes, jobId, now).Some?
    ensures (exists node :: GetsStandby(s, Calculated(s, nodes, jobId, now).value, s.rules[2], node)) <==> |nodes| > s.rules[2].rankThreshold
  {
    var s', rule := Calculated(s, nodes, jobId, now).value, s.rules[2];
    if |nodes| > rule.rankThreshold {
      var node := nodes[rule.rankThreshold];
      RankIsPosition(nodes, rule.rankThreshold);
      CalculationAdds(s, nodes, jobId, now, node);
      assert IsStandbyRow(rule, RowFor(rule, rule.rankThreshold, jobId, now));
      assert GetsStandby(s, s', rule, node);
    } else {
      forall node ensures !GetsStandby(s, s', rule, node) {
        CalculationAdds(s, nodes, jobId, now, node);
        forall row | Credited(s', node) == Credited(s, node) + [row] ensures !IsStandbyRow(rule, row) {
          assert Credited(s', node)[|Credited(s, node)|] == row;
        }
      }
    }
  }

  // --- how often ------------------------------------------------------------------------

  // The times at which a job credited these rows, and at which it was calculated in a run.
  function JobTimes(rows: seq<Row>, jobId: nat): seq<nat> {
    if rows == [] then []
    else
      var last := rows[|rows| - 1].memo;
      JobTimes(rows[..|rows| - 1], jobId) + if last.jobId == jobId then [last.time] else []
  }

  function CalcTimes(actions: seq<Action>, jobId: nat): seq<nat>
    decreases |actions|
  {
    if actions == [] then []
    else
      var front, a := actions[..|actions| - 1], actions[|actions| - 1];
      CalcTimes(front, jobId) + if Calculates(a, jobId) && Apply(Run(front), a).Some? then [a.now] else []
  }

  predicate Calculates(a: Action, jobId: nat) {
    (a.Calc? && a.jobId == jobId) || (a.Uptime? && (jobId == 1 || jobId == 2))
  }

  // The period in force never changes, rankings have no repeats, and no deadline of the job
  // wraps.
  ghost predicate Calm(a: Action, jobId: nat, period: nat) {
    match a
    case SetRule(id, rule) => id == 2 ==> rule.period == period
    case Calc(nodes, job, now) => NoRepeats(nodes) && (job == jobId ==> now + period < TWO_32)
    case GetReward(node, accepted) => true
    case Uptime(account, ranking, producers, now, accepted) => NoRepeats(ranking) && (jobId == 1 || jobId == 2 ==> now + period < TWO_32)
  }

  ghost predicate Apart(t: seq<nat>, period: nat) {
    forall k :: 0 < k < |t| ==> t[k - 1] + period <= t[k]
  }

  // Times of one job: apart, and none after the last calculation.
  ghost predicate Spaced(s: State, jobId: nat, period: nat, t: seq<nat>) {
    Apart(t, period) && (t != [] ==> jobId in s.history && t[|t| - 1] <= s.history[jobId])
  }

  // What a run keeps: the history is the last calculation, and both the calculations and
  // the rows of every node are spaced.
  ghost predicate Timely(s: State, jobId: nat, period: nat, t: seq<nat>) {
    && (2 in s.rules ==> s.rules[2].period == period)
    && (jobId in s.history ==> s.history[jobId] + period < TWO_32)
    && (jobId in s.history <==> t != []) && (t != [] ==> t[|t| - 1] == s.history[jobId])
    && Apart(t, period)
    && forall node :: Spaced(s, jobId, period, JobTimes(Credited(s, node), jobId))
  }

  lemma {:induction false} ApartAppend(t: seq<nat>, now: nat, period: nat)
    requires Apart(t, period) && (t != [] ==> t[|t| - 1] + period <= now)
    ensures Apart(t + [now], period)
  {
  }

  lemma {:induction false} JobTimesAppend(rows: seq<Row>, row: Row, jobId: nat)
    ensures JobTimes(rows + [row], jobId) == JobTimes(rows, jobId) + if row.memo.jobId == jobId then [row.memo.time] else []
    ensures rows + [] == rows
  {
    assert (rows + [row])[..|rows|] == rows;
  }

  lemma {:induction false} CalculatedTimely(s: State, nodes: seq<Name>, job: nat, now: nat, jobId: nat, period: nat, t: seq<nat>)
    requires Timely(s, jobId, period, t) && Calculated(s, nodes, job, now).Some?
    requires NoRepeats(nodes) && (job == jobId ==> now + period < TWO_32)
    ensures Timely(Calculated(s, nodes, job, now).value, jobId, period, t + if job == jobId then [now] else [])
  {
    hide CreditUpTo, Rank, JobTimes, Spaced, Credited;
    var s' := Calculated(s, nodes, job, now).value;
    assert t + [] == t;
    assert job == jobId && t != [] ==> t[|t| - 1] + period <= now;
    if job == jobId { ApartAppend(t, now, period); }
    CreditKeepsTables(Started(s, job, now), s.rules[2], nodes, job, now, |nodes|);
    forall node ensures Spaced(s', jobId, period, JobTimes(Credited(s', node), jobId)) {
      SpacedAfter(s, nodes, job, now, jobId, period, node);
    }
  }

  lemma {:induction false} SpacedAfter(s: State, nodes: seq<Name>, job: nat, now: nat, jobId: nat, period: nat, node: Name)
    requires 2 in s.rules && Calculated(s, nodes, job, now).Some? && NoRepeats(nodes)
    requires Spaced(s, jobId, period, JobTimes(Credited(s, node), jobId))
    requires job == jobId && jobId in s.history ==> s.history[jobId] + period <= now
    ensures Spaced(Calculated(s, nodes, job, now).value, jobId, period, JobTimes(Credited(Calculated(s, nodes, job, now).value, node), jobId))
  {
    hide Calculated, Rank, JobTimes, Credited, Pending;
    var t := JobTimes(Credited(s, node), jobId);
    CalculationAdds(s, nodes, job, now, node);
    JobTimesAppend(Credited(s, node), RowFor(s.rules[2], Rank(nodes, node), job, now), jobId);
    if job == jobId { ApartAppend(t, now, period); }
    NoTimesAdded(t);
  }

  lemma {:induction false} NoTimesAdded(t: seq<nat>)
    ensures t + [] == t
  {
  }

  lemma {:induction false} PaidAllKeeps(s: State, nodes: seq<Name>, accepted: Name -> bool)
    requires PaidAll(s, nodes, accepted).Some?
    ensures var s' := PaidAll(s, nodes, accepted).value; s'.rules == s.rules && s'.history == s.history && s'.credited == s.credited
    decreases |nodes|
  {
    if nodes != [] { PaidAllKeeps(s, nodes[..|nodes| - 1], accepted); }
  }

  lemma {:induction false} SameTimely(s: State, s': State, jobId: nat, period: nat, t: seq<nat>)
    requires Timely(s, jobId, period, t) && s'.history == s.history && s'.credited == s.credited
    requires 2 in s'.rules ==> s'.rules[2].period == period
    ensures Timely(s', jobId, period, t)
  {
    forall node ensures Spaced(s', jobId, period, JobTimes(Credited(s', node), jobId)) {
      assert Spaced(s, jobId, period, JobTimes(Credited(s, node), jobId));
    }
  }

  lemma {:induction false} ActionTimely(s: State, a: Action, jobId: nat, period: nat, t: seq<nat>)
    requires Timely(s, jobId, period, t) && Calm(a, jobId, period) && Apply(s, a).Some?
    ensures Timely(Apply(s, a).value, jobId, period, t + if Calculates(a, jobId) then [a.now] else [])
  {
    hide Spaced, Apart, Calculated, PaidAll, Pending;
    assert t + [] == t;
    match a
    case SetRule(id, rule) => SameTimely(s, Apply(s, a).value, jobId, period, t);
    case Calc(nodes, job, now) => CalculatedTimely(s, nodes, job, now, jobId, period, t);
    case GetReward(node, accepted) => SameTimely(s, Apply(s, a).value, jobId, period, t);
    case Uptime(account, ranking, producers, now, accepted) =>
      var s1 := Calculated(s, ranking, 1, now).value;
      var s2 := Calculated(s1, ranking, 2, now).value;
      var t1 := t + if jobId == 1 then [now] else [];
      CalculatedTimely(s, ranking, 1, now, jobId, period, t);
      CalculatedTimely(s1, ranking, 2, now, jobId, period, t1);
      PaidAllKeeps(s2, producers, accepted);
      SameTimely(s2, Apply(s, a).value, jobId, period, t1 + if jobId == 2 then [now] else []);
  }

  lemma {:induction false} RunTimely(actions: seq<Action>, jobId: nat, period: nat)
    requires forall i :: 0 <= i < |actions| ==> Calm(actions[i], jobId, period)
    ensures Timely(Run(actions), jobId, period, CalcTimes(actions, jobId))
    decreases |actions|
  {
    if actions != [] {
      hide Timely, Calm, Apply;
      var front, a := actions[..|actions| - 1], actions[|actions| - 1];
      RunTimely(front, jobId, period);
      assert CalcTimes(front, jobId) + [] == CalcTimes(front, jobId);
      if Apply(Run(front), a).Some? { ActionTimely(Run(front), a, jobId, period, CalcTimes(front, jobId)); }
    }
  }

  // The history holds the time of the last calculation that went through, on every run.
  lemma {:induction false} HistoryIsLast(actions: seq<Action>, jobId: nat)
    ensures var t, h := CalcTimes(actions, jobId), Run(actions).history;
      if t == [] then jobId !in h else jobId in h && h[jobId] == t[|t| - 1]
    decreases |actions|
  {
    if actions != [] {
      hide Apply, Calculates;
      var front, a := actions[..|actions| - 1], actions[|actions| - 1];
      HistoryIsLast(front, jobId);
      if Apply(Run(front), a).Some? { ActionHistory(Run(front), a, jobId); }
    }
  }

  lemma {:induction false} ActionHistory(s: State, a: Action, jobId: nat)
    requires Apply(s, a).Some?
    ensures var h, h' := s.history, Apply(s, a).value.history;
      if Calculates(a, jobId) then jobId in h' && h'[jobId] == a.now
      else (jobId in h' <==> jobId in h) && (jobId in h ==> h'[jobId] == h[jobId])
  {
    hide CreditUpTo, PaidAll, Due, PaidOut;
    match a
    case SetRule(id, rule) =>
    case Calc(nodes, job, now) => CalculatedHistory(s, nodes, job, now);
    case GetReward(node, accepted) => PaidOutKeeps(s, node, accepted);
    case Uptime(account, ranking, producers, now, accepted) =>
      var s1 := Calculated(s, ranking, 1, now).value;
      CalculatedHistory(s, ranking, 1, now);
      CalculatedHistory(s1, ranking, 2, now);
      PaidAllKeeps(Calculated(s1, ranking, 2, now).value, producers, accepted);
  }

  lemma {:induction false} CalculatedHistory(s: State, nodes: seq<Name>, jobId: nat, now: nat)
    requires Calculated(s, nodes, jobId, now).Some?
    ensures Calculated(s, nodes, jobId, now).value.history == s.history[jobId := now]
  {
    hide CreditUpTo;
    CreditKeepsTables(Started(s, jobId, now), s.rules[2], nodes, jobId, now, |nodes|);
  }

  lemma {:induction false} PaidOutKeeps(s: State, node: Name, accepted: Name -> bool)
    requires PaidOut(s, node, accepted).Some?
    ensures PaidOut(s, node, accepted).value.history == s.history
  {
  }

  // How many of the times lie between the two bounds.
  function CountWithin(t: seq<nat>, from: nat, to: nat): nat {
    if t == [] then 0
    else
      var last := t[|t| - 1];
      CountWithin(t[..|t| - 1], from, to) + if from <= last <= to then 1 else 0
  }

  lemma {:induction false} ApartCount(t: seq<nat>, period: nat, from: nat, to: nat)
    requires Apart(t, period)
    ensures var c := CountWithin(t, from, to); c > 0 ==> from + (c - 1) * period <= to && from + (c - 1) * period <= t[|t| - 1]
    decreases |t|
  {
    if t != [] {
      var front, c := t[..|t| - 1], CountWithin(t[..|t| - 1], from, to);
      assert forall k :: 0 <= k < |front| ==> front[k] == t[k];
      ApartCount(front, period, from, to);
      if c > 0 { OneMore(c - 1, period); }
      assert (0 as int) * period == 0;
    }
  }

  lemma {:induction false} AtMost(n: nat, d: nat, w: nat)
    requires d > 0 && n * d <= w
    ensures n <= w / d
  {
    DivisionSplits(w, d);
    OneMore(w / d, d);
    CancelFactor(n, w / d + 1, d);
  }

  lemma {:induction false} CancelFactor(a: int, b: int, d: nat)
    requires a * d < b * d
    ensures a < b
  {
  }

  lemma {:induction false} CountBound(t: seq<nat>, period: nat, from: nat, window: nat)
    requires period > 0 && Apart(t, period)
    ensures CountWithin(t, from, from + window) <= 1 + window / period
  {
    var c := CountWithin(t, from, from + window);
    ApartCount(t, period, from, from + window);
    if c > 0 { AtMost(c - 1, period, window); }
  }

  // On every run with an unchanged period and without 32-bit wrap, in any window of length
  // `window`, a job credits a node at most 1 + window/period times, and is calculated at
  // most that often: whatever payouts, other jobs and rankings come in between.
  lemma {:induction false} CreditsPerWindow(actions: seq<Action>, node: Name, jobId: nat, period: nat, from: nat, window: nat)
    requires period > 0 && forall i :: 0 <= i < |actions| ==> Calm(actions[i], jobId, period)
    ensures CountWithin(JobTimes(Credited(Run(actions), node), jobId), from, from + window) <= 1 + window / period
    ensures CountWithin(CalcTimes(actions, jobId), from, from + window) <= 1 + window / period
  {
    RunTimely(actions, jobId, period);
    assert Spaced(Run(actions), jobId, period, JobTimes(Credited(Run(actions), node), jobId));
    CountBound(JobTimes(Credited(Run(actions), node), jobId), period, from, window);
    CountBound(CalcTimes(actions, jobId), period, from, window);
  }

  // --- when a calculation goes through --------------------------------------------------

  // The rule that a run last stored under a number.
  function LastRule(actions: seq<Action>, id: nat): Option<Rule>
    decreases |actions|
  {
    if actions == [] then None
    else
      var a := actions[|actions| - 1];
      if a.SetRule? && a.id == id then Some(a.rule) else LastRule(actions[..|actions| - 1], id)
  }

  lemma {:induction false} RuleIsLast(actions: seq<Action>, id: nat)
    ensures var rules := Run(actions).rules;
      match LastRule(actions, id) case None => id !in rules case Some(rule) => id in rules && rules[id] == rule
    decreases |actions|
  {
    hide Apply;
    if actions != [] {
      var front, a := actions[..|actions| - 1], actions[|actions| - 1];
      RuleIsLast(front, id);
      if Apply(Run(front), a).Some? { ActionRules(Run(front), a); }
      SetRuleSucceeds(Run(front), a);
    }
  }

  lemma {:induction false} SetRuleSucceeds(s: State, a: Action)
    ensures a.SetRule? ==> Apply(s, a).Some?
  {
  }

  lemma {:induction false} ActionRules(s: State, a: Action)
    requires Apply(s, a).Some?
    ensures Apply(s, a).value.rules == if a.SetRule? then s.rules[a.id := a.rule] else s.rules
  {
    hide CreditUpTo, PaidAll, Due, PaidOut;
    match a
    case SetRule(id, rule) =>
    case Calc(nodes, job, now) => CalculatedRules(s, nodes, job, now);
    case GetReward(node, accepted) => PaidOutRules(s, node, accepted);
    case Uptime(account, ranking, producers, now, accepted) =>
      var s1 := Calculated(s, ranking, 1, now).value;
      CalculatedRules(s, ranking, 1, now);
      CalculatedRules(s1, ranking, 2, now);
      PaidAllKeeps(Calculated(s1, ranking, 2, now).value, producers, accepted);
  }

  lemma {:induction false} CalculatedRules(s: State, nodes: seq<Name>, jobId: nat, now: nat)
    requires Calculated(s, nodes, jobId, now).Some?
    ensures Calculated(s, nodes, jobId, now).value.rules == s.rules
  {
    hide CreditUpTo;
    CreditKeepsTables(Started(s, jobId, now), s.rules[2], nodes, jobId, now, |nodes|);
  }

  lemma {:induction false} PaidOutRules(s: State, node: Name, accepted: Name -> bool)
    requires PaidOut(s, node, accepted).Some?
    ensures PaidOut(s, node, accepted).value.rules == s.rules
  {
  }

  // After any run, whether a job may be calculated again: a rule was stored under number 2,
  // and its period has passed since the job's last calculation, in 32-bit arithmetic.
  ghost predicate Passed(actions: seq<Action>, jobId: nat, now: nat) {
    var rule, t := LastRule(actions, 2), CalcTimes(actions, jobId);
    rule.Some? && (t == [] || (t[|t| - 1] + rule.value.period) % 0x1_0000_0000 <= now)
  }

  lemma {:induction false} DueAfterRun(actions: seq<Action>, jobId: nat, now: nat)
    ensures Passed(actions, jobId, now) <==> 2 in Run(actions).rules && Due(Run(actions), jobId, now)
  {
    hide Run, Apply;
    RuleIsLast(actions, 2);
    HistoryIsLast(actions, jobId);
  }

  // Calculating succeeds exactly then; the node at position i, from 0, gets the reward for a
  // rank below the threshold and the standby amount otherwise, with a memo of the job, the
  // position from 1 and the time, and nobody else gets anything.
  lemma {:induction false} CalculationIff(actions: seq<Action>, nodes: seq<Name>, jobId: nat, now: nat)
    ensures Apply(Run(actions), Calc(nodes, jobId, now)).Some? <==> Passed(actions, jobId, now)
    ensures NoRepeats(nodes) && Apply(Run(actions), Calc(nodes, jobId, now)).Some? ==>
      var s, s', rule := Run(actions), Apply(Run(actions), Calc(nodes, jobId, now)).value, LastRule(actions, 2).value;
      && (forall i: nat :: i < |nodes| ==>
            Pending(s', nodes[i]) == Pending(s, nodes[i]) + [Row(if i < rule.rankThreshold then rule.rewardAmount else rule.standbyAmount, Memo(jobId, i + 1, now))])
      && (forall node :: node !in nodes ==> Pending(s', node) == Pending(s, node))
  {
    hide Run, CreditUpTo, Due, Pending, Credited, Rank, Passed;
    DueAfterRun(actions, jobId, now);
    RuleIsLast(actions, 2);
    if NoRepeats(nodes) && Passed(actions, jobId, now) {
      var s, rule := Run(actions), LastRule(actions, 2).value;
      var s' := Calculated(s, nodes, jobId, now).value;
      forall i: nat | i < |nodes|
        ensures Pending(s', nodes[i]) == Pending(s, nodes[i])
          + [Row(if i < rule.rankThreshold then rule.rewardAmount else rule.standbyAmount, Memo(jobId, i + 1, now))]
      {
        RankIsPosition(nodes, i);
        CalculationAdds(s, nodes, jobId, now, nodes[i]);
      }
      forall node | node !in nodes ensures Pending(s', node) == Pending(s, node) {
        CalculationAdds(s, nodes, jobId, now, node);
        NothingAdded(Pending(s, node));
      }
    }
  }

  lemma {:induction false} NothingAdded(rows: seq<Row>)
    ensures rows + [] == rows
  {
  }

  // A payout succeeds exactly when there is nothing to pay or the node takes the transfers;
  // it pays this node's rows in order, and touches no other node's.
  lemma {:induction false} PayoutEffect(s: State, node: Name, accepted: Name -> bool, other: Name)
    ensures Apply(s, GetReward(node, accepted)).Some? <==> Pending(s, node) == [] || accepted(node)
    ensures Apply(s, GetReward(node, accepted)).Some? ==>
      var s' := Apply(s, GetReward(node, accepted)).value;
      && Pending(s', node) == [] && Paid(s', node) == Paid(s, node) + Pending(s, node)
      && (other != node ==> Pending(s', other) == Pending(s, other) && Paid(s', other) == Paid(s, other))
      && s'.rules == s.rules && s'.history == s.history && s'.credited == s.credited
  {
  }

  lemma {:induction false} PaidAllSucceeds(s: State, nodes: seq<Name>, accepted: Name -> bool)
    ensures PaidAll(s, nodes, accepted).Some? <==> forall n :: n in nodes && Pending(s, n) != [] ==> accepted(n)
    ensures PaidAll(s, nodes, accepted).Some? ==>
      forall n :: Pending(PaidAll(s, nodes, accepted).value, n) == if n in nodes then [] else Pending(s, n)
    decreases |nodes|
  {
    if nodes != [] {
      var front, last := nodes[..|nodes| - 1], nodes[|nodes| - 1];
      assert nodes == front + [last];
      PaidAllSucceeds(s, front, accepted);
    }
  }

  lemma {:induction false} PendingAfterCredits(s: State, rule: Rule, nodes: seq<Name>, jobId: nat, now: nat, i: nat, node: Name)
    requires i <= |nodes|
    ensures Pending(CreditUpTo(s, rule, nodes, jobId, now, i), node) != [] <==> Pending(s, node) != [] || node in nodes[..i]
    decreases i
  {
    hide Pending, Credited, Credit, RowFor, Rank, CreditUpTo;
    CreditMore(s, rule, nodes, jobId, now, i);
    if i > 0 {
      var before := CreditUpTo(s, rule, nodes, jobId, now, i - 1);
      PendingAfterCredits(s, rule, nodes, jobId, now, i - 1, node);
      PendingMore(before, nodes[i - 1], RowFor(rule, Rank(nodes, nodes[i - 1]), jobId, now), node);
      InPrefix(nodes, i, node);
    }
  }

  lemma {:induction false} CreditMore(s: State, rule: Rule, nodes: seq<Name>, jobId: nat, now: nat, i: nat)
    requires i <= |nodes|
    ensures i == 0 ==> CreditUpTo(s, rule, nodes, jobId, now, i) == s
    ensures i > 0 ==>
      CreditUpTo(s, rule, nodes, jobId, now, i) == Credit(CreditUpTo(s, rule, nodes, jobId, now, i - 1), nodes[i - 1], RowFor(rule, Rank(nodes, nodes[i - 1]), jobId, now))
  {
    hide Credit, RowFor, Rank;
  }

  lemma {:induction false} PendingMore(s: State, to: Name, row: Row, node: Name)
    ensures Pending(Credit(s, to, row), node) != [] <==> Pending(s, node) != [] || node == to
  {
    hide Pending, Credited, Credit;
    CreditEffect(s, to, row, node);
    assert (Pending(s, node) + [row])[|Pending(s, node)|] == row;
  }

  lemma {:induction false} InPrefix(nodes: seq<Name>, i: nat, node: Name)
    requires 0 < i <= |nodes|
    ensures node in nodes[..i] <==> node in nodes[..i - 1] || node == nodes[i - 1]
  {
    assert nodes[..i] == nodes[..i - 1] + [nodes[i - 1]];
  }

  lemma {:induction false} PendingAfterCalculation(s: State, nodes: seq<Name>, jobId: nat, now: nat, node: Name)
    requires Calculated(s, nodes, jobId, now).Some?
    ensures Pending(Calculated(s, nodes, jobId, now).value, node) != [] <==> Pending(s, node) != [] || node in nodes
  {
    hide CreditUpTo;
    PendingAfterCredits(Started(s, jobId, now), s.rules[2], nodes, jobId, now, |nodes|, node);
    assert nodes[..|nodes|] == nodes;
  }

  // An uptime call succeeds exactly when it is made for a registered producer, both jobs may
  // be calculated again, and every producer with something to be paid takes the transfers.
  lemma {:induction false} UptimeIff(actions: seq<Action>, account: Name, ranking: seq<Name>, producers: seq<Name>, now: nat, accepted: Name -> bool)
    ensures Apply(Run(actions), Uptime(account, ranking, producers, now, accepted)).Some? <==>
      && account in producers && Passed(actions, 1, now) && Passed(actions, 2, now)
      && forall n :: n in producers && (n in ranking || Pending(Run(actions), n) != []) ==> accepted(n)
  {
    hide Run, CreditUpTo, Due, Pending, Passed, PaidAll;
    var s := Run(actions);
    DueAfterRun(actions, 1, now);
    DueAfterRun(actions, 2, now);
    if Calculated(s, ranking, 1, now).Some? {
      var s1 := Calculated(s, ranking, 1, now).value;
      SecondDue(s, ranking, now);
      if Calculated(s1, ranking, 2, now).Some? {
        var s2 := Calculated(s1, ranking, 2, now).value;
        forall n ensures Pending(s2, n) != [] <==> Pending(s, n) != [] || n in ranking {
          PendingAfterCalculation(s, ranking, 1, now, n);
          PendingAfterCalculation(s1, ranking, 2, now, n);
        }
        PaidAllSucceeds(s2, producers, accepted);
      }
    }
  }

  // Calculating job 1 has no influence on whether job 2 is due.
  lemma {:induction false} SecondDue(s: State, nodes: seq<Name>, now: nat)
    requires Calculated(s, nodes, 1, now).Some?
    ensures var s1 := Calculated(s, nodes, 1, now).value;
      2 in s.rules && s1.rules == s.rules && (Due(s1, 2, now) <==> Due(s, 2, now))
  {
    CalculatedRules(s, nodes, 1, now);
    CalculatedHistory(s, nodes, 1, now);
  }

  // --- the contract, updating its tables in place ---------------------------------------

  class Contract {
    var rules: map<nat, Rule>
    var history: map<nat, nat>
    var pending: map<Name, seq<Row>>
    var credited: map<Name, seq<Row>>
    var paid: map<Name, seq<Row>>

    constructor ()
      ensures Now() == State(map[], map[], map[], map[], map[])
    {
      rules, history, pending, credited, paid := map[], map[], map[], map[], map[];
    }

    function Now(): State
      reads this
    {
      State(rules, history, pending, credited, paid)
    }

    method SetRewardRule(id: nat, rule: Rule)
      modifies this
      ensures Some(Now()) == Apply(old(Now()), SetRule(id, rule))
    {
      rules := rules[id := rule];
    }

    method AddReward(node: Name, row: Row)
      modifies this
      ensures Now() == Credit(old(Now()), node, row)
    {
      pending := pending[node := RowsIn(pending, node) + [row]];
      credited := credited[node := RowsIn(credited, node) + [row]];
    }

    method CalcRewards(nodes: seq<Name>, jobId: nat, now: nat) returns (ok: bool)
      modifies this
      ensures ok == Calculated(old(Now()), nodes, jobId, now).Some?
      ensures Now() == if ok then Calculated(old(Now()), nodes, jobId, now).value else old(Now())
    {
      hide Rank;
      if 2 !in rules {
        return false;
      }
      var rule := rules[2];
      if jobId in history && now < (history[jobId] + rule.period) % TWO_32 {
        return false;
      }
      history := history[jobId := now];
      ghost var start := Now();
      var top := GetTopNodes(nodes, rule.standbyThreshold, jobId);
      for i := 0 to |top|
        invariant Now() == CreditUpTo(start, rule, nodes, jobId, now, i)
      {
        var rank := GetRank(nodes, top[i]);
        var amount;
        if rank < rule.rankThreshold {
          amount := rule.rewardAmount;
        } else {
          amount := rule.standbyAmount;
        }
        AddReward(top[i], Row(amount, Memo(jobId, rank + 1, now)));
      }
      ok := true;
    }

    // Pays the rows one by one and erases each; a refused transfer rolls everything back.
    method Payout(node: Name, accepted: Name -> bool) returns (ok: bool)
      modifies this
      ensures ok == PaidOut(old(Now()), node, accepted).Some?
      ensures Now() == if ok then PaidOut(old(Now()), node, accepted).value else old(Now())
    {
      if node !in pending || pending[node] == [] {
        return true;
      }
      if !accepted(node) {
        return false;
      }
      var rows, done := pending[node], RowsIn(paid, node);
      ghost var all, before, k := rows, done, 0;
      while rows != []
        invariant 0 <= k <= |all| && rows == all[k..] && done == before + all[..k]
        invariant Now() == old(Now())
        decreases |rows|
      {
        assert all[..k + 1] == all[..k] + [all[k]];
        done := done + [rows[0]];
        rows := rows[1..];
        k := k + 1;
      }
      assert all[..k] == all;
      paid := paid[node := done];
      pending := pending - {node};
      ok := true;
    }

    method UptimeCall(account: Name, ranking: seq<Name>, producers: seq<Name>, now: nat, accepted: Name -> bool) returns (ok: bool)
      modifies this
      ensures ok == Uptimed(old(Now()), account, ranking, producers, now, accepted).Some?
      ensures Now() == if ok then Uptimed(old(Now()), account, ranking, producers, now, accepted).value else old(Now())
    {
      hide Calculated, PaidOut, Due;
      var ru, hi, pe, cr, pa := rules, history, pending, credited, paid;
      if account !in producers {
        return false;
      }
      ok := CalcRewards(ranking, 1, now);
      if ok {
        ok := CalcRewards(ranking, 2, now);
      }
      if !ok {
        rules, history, pending, credited, paid := ru, hi, pe, cr, pa;
        return;
      }
      ghost var start := Now();
      for i := 0 to |producers|
        invariant Some(Now()) == PaidAll(start, producers[..i], accepted)
      {
        assert producers[..i + 1][..i] == producers[..i];
        ok := Payout(producers[i], accepted);
        if !ok {
          PaidPrefixFails(start, producers, i + 1, accepted);
          rules, history, pending, credited, paid := ru, hi, pe, cr, pa;
          return;
        }
      }
      assert producers[..|producers|] == producers;
      ok := true;
    }
  }

  lemma {:induction false} PaidPrefixFails(s: State, nodes: seq<Name>, i: nat, accepted: Name -> bool)
    requires i <= |nodes|
    ensures PaidAll(s, nodes[..i], accepted).None? ==> PaidAll(s, nodes, accepted).None?
    decreases |nodes|
  {
    if i < |nodes| {
      PaidPrefixFails(s, nodes[..|nodes| - 1], i, accepted);
      assert nodes[..|nodes| - 1][..i] == nodes[..i];
    } else {
      assert nodes[..i] == nodes;
    }
  }
}
