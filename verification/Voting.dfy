// The voting contract: cached vote totals per producer, updated in place on every vote,
// re-vote and unstake.  Votes are reals; the square root is any non-negative function.
module Voting {
  import opened Results
  import opened MapSum

  type Name = nat

  datatype Profile = Profile(producerName: string, url: string, key: string, nodeId: string)

  datatype Producer = Producer(totalVotes: real, isActive: bool, profile: Profile, jobIds: seq<nat>)

  datatype Voter = Voter(producers: seq<Name>, date: nat, votesPerProd: real, tokens: nat)

  datatype State = State(producers: map<Name, Producer>, voters: map<Name, Voter>)

  // What the environment provides: the square root, and the weight that an empty list gets.
  datatype Arithmetic = Arithmetic(sqrt: nat -> real, empty: real)

  ghost predicate ValidArithmetic(ar: Arithmetic) {
    forall t: nat :: ar.sqrt(t) >= 0.0
  }

  const PRECISION: nat := 100000000
  const MIN_TOKENS: nat := 10000
  const MAX_PRODUCERS: nat := 21

  predicate JobsValid(jobIds: seq<nat>) {
    forall i :: 0 <= i < |jobIds| ==> 1 <= jobIds[i] <= 2
  }

  function VotesPerProd(ar: Arithmetic, tokens: nat, n: nat): real {
    if n == 0 then ar.empty else ar.sqrt(tokens) / (n as real)
  }

  // --- the actions as functions; None aborts ---------------------------------------------

  function Registered(s: State, p: Name, profile: Profile, jobIds: seq<nat>): Option<State> {
    if !JobsValid(jobIds) then None
    else
      var votes := if p in s.producers then s.producers[p].totalVotes else 0.0;
      Some(s.(producers := s.producers[p := Producer(votes, true, profile, jobIds)]))
  }

  function Activated(s: State, p: Name, active: bool): Option<State> {
    if p !in s.producers then None
    else Some(s.(producers := s.producers[p := s.producers[p].(isActive := active)]))
  }

  // Adds delta to every listed producer, once per listing.
  function Added(producers: map<Name, Producer>, voter: Name, list: seq<Name>, delta: real): Option<map<Name, Producer>>
    decreases |list|
  {
    if list == [] then Some(producers)
    else
      var before :- Added(producers, voter, list[..|list| - 1], delta);
      var p := list[|list| - 1];
      if p == voter || p !in before then None
      else Some(before[p := before[p].(totalVotes := before[p].totalVotes + delta)])
  }

  // Undo the voter's stored vote, cast the new one, store it.
  function Cast(s: State, ar: Arithmetic, voter: Name, list: seq<Name>, tokens: nat, time: nat): Option<State> {
    var per := VotesPerProd(ar, tokens, |list|);
    var undone :- if voter in s.voters then Added(s.producers, voter, s.voters[voter].producers, -s.voters[voter].votesPerProd) else Some(s.producers);
    var done :- Added(undone, voter, list, per);
    var date := if time != 0 then time else if voter in s.voters then s.voters[voter].date else 0;
    Some(State(done, s.voters[voter := Voter(list, date, per, tokens)]))
  }

  function Voted(s: State, ar: Arithmetic, voter: Name, list: seq<Name>, staked: nat, now: nat): Option<State> {
    if |list| > MAX_PRODUCERS || voter in list || staked / PRECISION < MIN_TOKENS then None
    else Cast(s, ar, voter, list, staked / PRECISION, now)
  }

  // After an unstake: re-cast the stored list with the voter's token balance.
  function Refreshed(s: State, ar: Arithmetic, voter: Name, balance: nat): Option<State> {
    if voter in s.voters && balance / PRECISION > 1 then Cast(s, ar, voter, s.voters[voter].producers, balance / PRECISION, 0)
    else Some(s)
  }

  datatype Action =
    | Register(p: Name, profile: Profile, jobIds: seq<nat>)
    | Unregister(p: Name)
    | Activate(p: Name)
    | Vote(voter: Name, list: seq<Name>, staked: nat, now: nat)
    | UnstakeUpdate(voter: Name, balance: nat)

  function Apply(s: State, ar: Arithmetic, a: Action): Option<State> {
    match a
    case Register(p, profile, jobIds) => Registered(s, p, profile, jobIds)
    case Unregister(p) => Activated(s, p, false)
    case Activate(p) => Activated(s, p, true)
    case Vote(voter, list, staked, now) => Voted(s, ar, voter, list, staked, now)
    case UnstakeUpdate(voter, balance) => Refreshed(s, ar, voter, balance)
  }

  // A run from the empty tables; aborted actions change nothing.
  function Run(ar: Arithmetic, actions: seq<Action>): State
    decreases |actions|
  {
    if actions == [] then State(map[], map[])
    else
      var s := Run(ar, actions[..|actions| - 1]);
      match Apply(s, ar, actions[|actions| - 1]) case Some(s') => s' case None => s
  }

  // --- the recount ----------------------------------------------------------------------

  function Count(p: Name, list: seq<Name>): nat {
    if list == [] then 0 else Count(p, list[..|list| - 1]) + if list[|list| - 1] == p then 1 else 0
  }

  function Times(x: real, n: nat): real { x * (n as real) }

  // What voter v contributes to producer p, and to all producers.
  function Contribution(p: Name): (Name, Voter) -> real {
    (v: Name, info: Voter) => Times(info.votesPerProd, Count(p, info.producers))
  }

  function VotesOf(): (Name, Producer) -> real { (p: Name, info: Producer) => info.totalVotes }

  function Power(ar: Arithmetic): (Name, Voter) -> real {
    (v: Name, info: Voter) => if info.producers == [] then 0.0 else ar.sqrt(info.tokens)
  }

  ghost predicate VoterOk(s: State, ar: Arithmetic, v: Name)
    requires v in s.voters
  {
    var info := s.voters[v];
    && |info.producers| <= MAX_PRODUCERS
    && v !in info.producers
    && (forall p :: p in info.producers ==> p in s.producers)
    && info.votesPerProd == VotesPerProd(ar, info.tokens, |info.producers|)
  }

  ghost predicate Recount(s: State, ar: Arithmetic) {
    && (forall v :: v in s.voters ==> VoterOk(s, ar, v))
    && (forall p :: p in s.producers ==> s.producers[p].totalVotes == Total(s.voters, Contribution(p)))
    && Total(s.producers, VotesOf()) == Total(s.voters, Power(ar))
  }

  // --- what one pass over a list does ---------------------------------------------------

  lemma {:induction false} CountIn(p: Name, list: seq<Name>)
    ensures Count(p, list) > 0 <==> p in list
  {
    if list != [] {
      CountIn(p, list[..|list| - 1]);
      assert list == list[..|list| - 1] + [list[|list| - 1]];
    }
  }

  ghost predicate AddedTo(before: map<Name, Producer>, after: map<Name, Producer>, list: seq<Name>, delta: real) {
    && after.Keys == before.Keys
    && (forall p :: p in before ==> after[p] == before[p].(totalVotes := before[p].totalVotes + Times(delta, Count(p, list))))
  }

  lemma {:induction false} OneMore(delta: real, n: nat)
    ensures Times(delta, n + 1) == Times(delta, n) + delta && Times(delta, 0) == 0.0
  {
  }

  lemma {:induction false} Negated(delta: real, n: nat)
    ensures Times(-delta, n) == -Times(delta, n)
  {
  }

  // A pass succeeds exactly when the voter is not listed and every listed producer exists.
  lemma {:induction false} AddedSucceeds(producers: map<Name, Producer>, voter: Name, list: seq<Name>, delta: real)
    ensures Added(producers, voter, list, delta).Some? <==> voter !in list && forall p :: p in list ==> p in producers
    ensures Added(producers, voter, list, delta).Some? ==> Added(producers, voter, list, delta).value.Keys == producers.Keys
    decreases |list|
  {
    if list != [] {
      AddedSucceeds(producers, voter, list[..|list| - 1], delta);
      assert list == list[..|list| - 1] + [list[|list| - 1]];
    }
  }

  // It adds delta times the multiplicity to each producer ...
  lemma {:induction false} AddedEach(producers: map<Name, Producer>, voter: Name, list: seq<Name>, delta: real)
    requires Added(producers, voter, list, delta).Some?
    ensures AddedTo(producers, Added(producers, voter, list, delta).value, list, delta)
    decreases |list|
  {
    hide Times;
    AddedSucceeds(producers, voter, list, delta);
    if list == [] {
      OneMore(delta, 0);
    } else {
      var front, p := list[..|list| - 1], list[|list| - 1];
      AddedEach(producers, voter, front, delta);
      forall r | r in producers ensures Times(delta, Count(r, list)) == Times(delta, Count(r, front)) + (if r == p then delta else 0.0) {
        OneMore(delta, Count(r, front));
      }
    }
  }

  // ... and delta times the length to the grand total.
  lemma {:induction false} AddedTotal(producers: map<Name, Producer>, voter: Name, list: seq<Name>, delta: real)
    requires Added(producers, voter, list, delta).Some?
    ensures Total(Added(producers, voter, list, delta).value, VotesOf()) == Total(producers, VotesOf()) + Times(delta, |list|)
    decreases |list|
  {
    hide Times;
    if list == [] {
      OneMore(delta, 0);
    } else {
      var front, p := list[..|list| - 1], list[|list| - 1];
      AddedTotal(producers, voter, front, delta);
      var before := Added(producers, voter, front, delta).value;
      Update(before, VotesOf(), p, before[p].(totalVotes := before[p].totalVotes + delta));
      OneMore(delta, |front|);
    }
  }

  lemma {:induction false} ShareTimesCount(total: real, n: nat)
    requires n > 0
    ensures (total / (n as real)) * (n as real) == total
  {
  }

  // The stored vote, or an empty one.
  function Stored(s: State, voter: Name): Voter {
    if voter in s.voters then s.voters[voter] else Voter([], 0, 0.0, 0)
  }

  // Casting succeeds exactly when the new list is in order: undoing a stored vote never
  // fails.
  lemma {:induction false} CastSucceeds(s: State, ar: Arithmetic, voter: Name, list: seq<Name>, tokens: nat, time: nat)
    requires Recount(s, ar)
    ensures Cast(s, ar, voter, list, tokens, time).Some? <==> voter !in list && forall p :: p in list ==> p in s.producers
  {
    var old_ := Stored(s, voter);
    if voter in s.voters { assert VoterOk(s, ar, voter); }
    AddedSucceeds(s.producers, voter, old_.producers, -old_.votesPerProd);
    AddedSucceeds(Added(s.producers, voter, old_.producers, -old_.votesPerProd).value, voter, list, VotesPerProd(ar, tokens, |list|));
  }

  // The two passes of a cast: minus the old vote, plus the new one.
  lemma {:induction false} CastPasses(s: State, ar: Arithmetic, voter: Name, list: seq<Name>, tokens: nat, time: nat)
    requires Cast(s, ar, voter, list, tokens, time).Some?
    ensures var s', old_, per := Cast(s, ar, voter, list, tokens, time).value, Stored(s, voter), VotesPerProd(ar, tokens, |list|);
      && s'.producers.Keys == s.producers.Keys
      && (forall p :: p in s.producers ==>
            s'.producers[p].totalVotes == s.producers[p].totalVotes - Times(old_.votesPerProd, Count(p, old_.producers)) + Times(per, Count(p, list)))
      && Total(s'.producers, VotesOf()) == Total(s.producers, VotesOf()) - Times(old_.votesPerProd, |old_.producers|) + Times(per, |list|)
  {
    hide Times, VotesPerProd, Cast, Added, Total;
    CastEach(s, ar, voter, list, tokens, time);
    CastTotal(s, ar, voter, list, tokens, time);
  }

  lemma {:induction false} CastEach(s: State, ar: Arithmetic, voter: Name, list: seq<Name>, tokens: nat, time: nat)
    requires Cast(s, ar, voter, list, tokens, time).Some?
    ensures var s', old_, per := Cast(s, ar, voter, list, tokens, time).value, Stored(s, voter), VotesPerProd(ar, tokens, |list|);
      && s'.producers.Keys == s.producers.Keys
      && (forall p :: p in s.producers ==> s'.producers[p] == s.producers[p].(totalVotes :=
            s.producers[p].totalVotes - Times(old_.votesPerProd, Count(p, old_.producers)) + Times(per, Count(p, list))))
  {
    hide Times, VotesPerProd, Cast, Added, Count;
    var old_, per := Stored(s, voter), VotesPerProd(ar, tokens, |list|);
    CastUndoes(s, ar, voter, list, tokens, time);
    var undone := Added(s.producers, voter, old_.producers, -old_.votesPerProd).value;
    AddedEach(s.producers, voter, old_.producers, -old_.votesPerProd);
    AddedEach(undone, voter, list, per);
    forall p | p in s.producers ensures Times(-old_.votesPerProd, Count(p, old_.producers)) == -Times(old_.votesPerProd, Count(p, old_.producers)) {
      Negated(old_.votesPerProd, Count(p, old_.producers));
    }
  }

  lemma {:induction false} CastTotal(s: State, ar: Arithmetic, voter: Name, list: seq<Name>, tokens: nat, time: nat)
    requires Cast(s, ar, voter, list, tokens, time).Some?
    ensures var s', old_, per := Cast(s, ar, voter, list, tokens, time).value, Stored(s, voter), VotesPerProd(ar, tokens, |list|);
      Total(s'.producers, VotesOf()) == Total(s.producers, VotesOf()) - Times(old_.votesPerProd, |old_.producers|) + Times(per, |list|)
  {
    hide Times, VotesPerProd, Cast, Added, Total;
    var old_, per := Stored(s, voter), VotesPerProd(ar, tokens, |list|);
    CastUndoes(s, ar, voter, list, tokens, time);
    AddedTotal(s.producers, voter, old_.producers, -old_.votesPerProd);
    AddedTotal(Added(s.producers, voter, old_.producers, -old_.votesPerProd).value, voter, list, per);
    Negated(old_.votesPerProd, |old_.producers|);
  }

  lemma {:induction false} CastUndoes(s: State, ar: Arithmetic, voter: Name, list: seq<Name>, tokens: nat, time: nat)
    requires Cast(s, ar, voter, list, tokens, time).Some?
    ensures var undone := Added(s.producers, voter, Stored(s, voter).producers, -Stored(s, voter).votesPerProd);
      && undone.Some?
      && Added(undone.value, voter, list, VotesPerProd(ar, tokens, |list|)) == Some(Cast(s, ar, voter, list, tokens, time).value.producers)
  {
  }

  lemma {:induction false} PowerIs(ar: Arithmetic, v: Name, info: Voter)
    requires info.producers == [] || info.votesPerProd == VotesPerProd(ar, info.tokens, |info.producers|)
    ensures Power(ar)(v, info) == Times(info.votesPerProd, |info.producers|)
  {
    if info.producers != [] { ShareTimesCount(ar.sqrt(info.tokens), |info.producers|); }
  }

  lemma {:induction false} CastKeepsRecount(s: State, ar: Arithmetic, voter: Name, list: seq<Name>, tokens: nat, time: nat)
    requires Recount(s, ar) && |list| <= MAX_PRODUCERS && Cast(s, ar, voter, list, tokens, time).Some?
    ensures Recount(Cast(s, ar, voter, list, tokens, time).value, ar)
  {
    hide Cast, Added, VotesPerProd, Power, Contribution, Times;
    CastSucceeds(s, ar, voter, list, tokens, time);
    CastPasses(s, ar, voter, list, tokens, time);
    var s', old_ := Cast(s, ar, voter, list, tokens, time).value, Stored(s, voter);
    CastStores(s, ar, voter, list, tokens, time);
    var info := s'.voters[voter];
    forall p | p in s'.producers ensures s'.producers[p].totalVotes == Total(s'.voters, Contribution(p)) {
      Update(s.voters, Contribution(p), voter, info);
      OldAndNew(s, p, voter, old_, info);
    }
    Update(s.voters, Power(ar), voter, info);
    if voter in s.voters { assert VoterOk(s, ar, voter); }
    PowerIs(ar, voter, info);
    PowerIs(ar, voter, old_);
    OneMore(0.0, 0);
    forall v | v in s'.voters ensures VoterOk(s', ar, v) {
      if v != voter { assert VoterOk(s, ar, v); }
    }
  }

  lemma {:induction false} CastStores(s: State, ar: Arithmetic, voter: Name, list: seq<Name>, tokens: nat, time: nat)
    requires Cast(s, ar, voter, list, tokens, time).Some?
    ensures var s' := Cast(s, ar, voter, list, tokens, time).value;
      && voter in s'.voters && s'.voters == s.voters[voter := s'.voters[voter]]
      && s'.voters[voter].producers == list && s'.voters[voter].tokens == tokens
      && s'.voters[voter].votesPerProd == VotesPerProd(ar, tokens, |list|)
      && s'.voters[voter].date == if time != 0 then time else Stored(s, voter).date
  {
  }

  lemma {:induction false} OldAndNew(s: State, p: Name, voter: Name, stored: Voter, info: Voter)
    requires stored == Stored(s, voter)
    ensures (if voter in s.voters then Contribution(p)(voter, s.voters[voter]) else 0.0)
         == Times(stored.votesPerProd, Count(p, stored.producers))
    ensures Contribution(p)(voter, info) == Times(info.votesPerProd, Count(p, info.producers))
  {
  }

  // Casting an empty list withdraws the vote: every total is what it was before it.
  lemma {:induction false} EmptyListWithdraws(s: State, ar: Arithmetic, voter: Name, list: seq<Name>, tokens: nat, time: nat, again: nat, later: nat)
    requires Recount(s, ar) && |list| <= MAX_PRODUCERS && voter !in s.voters
    requires Cast(s, ar, voter, list, tokens, time).Some?
    ensures var s' := Cast(Cast(s, ar, voter, list, tokens, time).value, ar, voter, [], again, later);
      && s'.Some? && s'.value.producers.Keys == s.producers.Keys
      && forall p :: p in s.producers ==> s'.value.producers[p].totalVotes == s.producers[p].totalVotes
  {
    hide Times, VotesPerProd, Cast, Recount;
    CastKeepsRecount(s, ar, voter, list, tokens, time);
    CastPasses(s, ar, voter, list, tokens, time);
    CastStores(s, ar, voter, list, tokens, time);
    var s1 := Cast(s, ar, voter, list, tokens, time).value;
    CastSucceeds(s1, ar, voter, [], again, later);
    CastPasses(s1, ar, voter, [], again, later);
    OneMore(0.0, 0);
    OneMore(VotesPerProd(ar, again, 0), 0);
  }

  lemma {:induction false} ProfileKeepsRecount(s: State, ar: Arithmetic, p: Name, info: Producer)
    requires Recount(s, ar)
    requires info.totalVotes == if p in s.producers then s.producers[p].totalVotes else 0.0
    ensures Recount(s.(producers := s.producers[p := info]), ar)
  {
    var s' := s.(producers := s.producers[p := info]);
    Update(s.producers, VotesOf(), p, info);
    if p !in s.producers {
      forall v | v in s.voters ensures Contribution(p)(v, s.voters[v]) == 0.0 {
        assert VoterOk(s, ar, v);
        CountIn(p, s.voters[v].producers);
      }
      TotalZero(s.voters, Contribution(p));
    }
    forall v | v in s'.voters ensures VoterOk(s', ar, v) {
      assert VoterOk(s, ar, v);
    }
  }

  lemma {:induction false} ActionKeepsRecount(s: State, ar: Arithmetic, a: Action)
    requires Recount(s, ar)
    ensures Apply(s, ar, a).Some? ==> Recount(Apply(s, ar, a).value, ar)
  {
    match a
    case Register(p, profile, jobIds) =>
      ProfileKeepsRecount(s, ar, p, Producer(if p in s.producers then s.producers[p].totalVotes else 0.0, true, profile, jobIds));
    case Unregister(p) =>
      if p in s.producers { ProfileKeepsRecount(s, ar, p, s.producers[p].(isActive := false)); }
    case Activate(p) =>
      if p in s.producers { ProfileKeepsRecount(s, ar, p, s.producers[p].(isActive := true)); }
    case Vote(voter, list, staked, now) =>
      if Apply(s, ar, a).Some? { CastKeepsRecount(s, ar, voter, list, staked / PRECISION, now); }
    case UnstakeUpdate(voter, balance) =>
      if voter in s.voters {
        assert VoterOk(s, ar, voter);
        if Cast(s, ar, voter, s.voters[voter].producers, balance / PRECISION, 0).Some? {
          CastKeepsRecount(s, ar, voter, s.voters[voter].producers, balance / PRECISION, 0);
        }
      }
  }

  // In every reachable state each producer's cached total is the recount over all voters,
  // and the grand total is the voting power of the voters with a non-empty list.
  lemma {:induction false} VotesEqualRecount(ar: Arithmetic, actions: seq<Action>)
    ensures Recount(Run(ar, actions), ar)
    decreases |actions|
  {
    if actions != [] {
      VotesEqualRecount(ar, actions[..|actions| - 1]);
      ActionKeepsRecount(Run(ar, actions[..|actions| - 1]), ar, actions[|actions| - 1]);
    }
  }

  // An update after unstaking never aborts: the stored vote can always be undone and
  // re-cast.
  lemma {:induction false} UnstakeUpdateSucceeds(ar: Arithmetic, actions: seq<Action>, voter: Name, balance: nat)
    ensures Apply(Run(ar, actions), ar, UnstakeUpdate(voter, balance)).Some?
  {
    var s := Run(ar, actions);
    VotesEqualRecount(ar, actions);
    if voter in s.voters {
      assert VoterOk(s, ar, voter);
      CastSucceeds(s, ar, voter, s.voters[voter].producers, balance / PRECISION, 0);
    }
  }

  lemma {:induction false} TotalsNonNegative(s: State, ar: Arithmetic)
    requires Recount(s, ar) && ValidArithmetic(ar)
    ensures forall p :: p in s.producers ==> s.producers[p].totalVotes >= 0.0
  {
    forall p | p in s.producers ensures s.producers[p].totalVotes >= 0.0 {
      forall v | v in s.voters ensures Contribution(p)(v, s.voters[v]) >= 0.0 {
        assert VoterOk(s, ar, v);
        CountIn(p, s.voters[v].producers);
        ContributionNonNegative(s, ar, v, p);
      }
      TotalBounds(s.voters, Contribution(p));
    }
  }

  lemma {:induction false} ContributionNonNegative(s: State, ar: Arithmetic, v: Name, p: Name)
    requires ValidArithmetic(ar) && v in s.voters && VoterOk(s, ar, v)
    ensures Contribution(p)(v, s.voters[v]) >= 0.0
  {
    var info := s.voters[v];
    CountIn(p, info.producers);
    if |info.producers| > 0 {
      Quotient(ar.sqrt(info.tokens), |info.producers|);
      Product(info.votesPerProd, Count(p, info.producers));
    }
  }

  lemma {:induction false} Quotient(x: real, n: nat)
    requires x >= 0.0 && n > 0
    ensures x / (n as real) >= 0.0
  {
  }

  lemma {:induction false} Product(x: real, n: nat)
    requires x >= 0.0
    ensures x * (n as real) >= 0.0
  {
  }

  // --- what each action does ------------------------------------------------------------

  // A vote succeeds exactly for at most 21 registered producers other than the voter, backed
  // by at least 10000 whole tokens.  Each listing is then worth the square root of the whole
  // tokens staked, divided by the length of the list, in place of the voter's earlier vote.
  lemma {:induction false} VoteEffect(s: State, ar: Arithmetic, voter: Name, list: seq<Name>, staked: nat, now: nat)
    requires Recount(s, ar)
    ensures Apply(s, ar, Vote(voter, list, staked, now)).Some? <==>
      |list| <= 21 && voter !in list && (forall p :: p in list ==> p in s.producers) && staked >= 10000 * 100000000
    ensures Apply(s, ar, Vote(voter, list, staked, now)).Some? ==>
      var s', before := Apply(s, ar, Vote(voter, list, staked, now)).value, Stored(s, voter);
      var per := if list == [] then ar.empty else ar.sqrt(staked / 100000000) / (|list| as real);
      && s'.voters == s.voters[voter := Voter(list, if now != 0 then now else before.date, per, staked / 100000000)]
      && s'.producers.Keys == s.producers.Keys
      && forall p :: p in s.producers ==> s'.producers[p] == s.producers[p].(totalVotes :=
           s.producers[p].totalVotes - Times(before.votesPerProd, Count(p, before.producers)) + Times(per, Count(p, list)))
  {
    hide Times, Cast, Recount, Count;
    CastSucceeds(s, ar, voter, list, staked / PRECISION, now);
    if Cast(s, ar, voter, list, staked / PRECISION, now).Some? {
      CastEach(s, ar, voter, list, staked / PRECISION, now);
      CastStores(s, ar, voter, list, staked / PRECISION, now);
    }
  }

  // After an unstake the stored list is cast again with the tokens left in the account, and
  // the time of the vote is kept; with at most one whole token left nothing changes.
  lemma {:induction false} UnstakeUpdateEffect(s: State, ar: Arithmetic, voter: Name, balance: nat)
    requires Recount(s, ar)
    ensures voter !in s.voters || balance < 2 * 100000000 ==> Apply(s, ar, UnstakeUpdate(voter, balance)) == Some(s)
    ensures voter in s.voters && balance >= 2 * 100000000 ==>
      && Apply(s, ar, UnstakeUpdate(voter, balance)).Some?
      && var s', before := Apply(s, ar, UnstakeUpdate(voter, balance)).value, s.voters[voter];
      var per := if before.producers == [] then ar.empty else ar.sqrt(balance / 100000000) / (|before.producers| as real);
      && s'.voters == s.voters[voter := Voter(before.producers, before.date, per, balance / 100000000)]
      && s'.producers.Keys == s.producers.Keys
      && forall p :: p in s.producers ==> s'.producers[p] == s.producers[p].(totalVotes :=
           s.producers[p].totalVotes - Times(before.votesPerProd, Count(p, before.producers)) + Times(per, Count(p, before.producers)))
  {
    hide Times, Cast, Count;
    if voter in s.voters && balance >= 2 * 100000000 {
      assert VoterOk(s, ar, voter);
      var list := s.voters[voter].producers;
      CastSucceeds(s, ar, voter, list, balance / PRECISION, 0);
      CastEach(s, ar, voter, list, balance / PRECISION, 0);
      CastStores(s, ar, voter, list, balance / PRECISION, 0);
    }
  }

  // A registration that is accepted: all its jobs are job 1 or job 2.
  ghost predicate Joins(a: Action, p: Name) {
    a.Register? && a.p == p && forall j :: j in a.jobIds ==> j == 1 || j == 2
  }

  // It stores profile and jobs, makes the producer active and keeps the votes.
  lemma {:induction false} RegisterEffect(s: State, ar: Arithmetic, p: Name, profile: Profile, jobIds: seq<nat>)
    ensures Apply(s, ar, Register(p, profile, jobIds)).Some? <==> Joins(Register(p, profile, jobIds), p)
    ensures Apply(s, ar, Register(p, profile, jobIds)).Some? ==>
      var s' := Apply(s, ar, Register(p, profile, jobIds)).value;
      && s'.voters == s.voters
      && s'.producers == s.producers[p := Producer(if p in s.producers then s.producers[p].totalVotes else 0.0, true, profile, jobIds)]
  {
    if Joins(Register(p, profile, jobIds), p) {
      forall i | 0 <= i < |jobIds| ensures 1 <= jobIds[i] <= 2 {
        assert jobIds[i] in jobIds;
      }
    }
  }

  lemma {:induction false} KeysAfter(s: State, ar: Arithmetic, a: Action, p: Name)
    ensures Apply(s, ar, a).Some? ==>
      (p in Apply(s, ar, a).value.producers <==> p in s.producers || Joins(a, p))
    ensures Joins(a, p) ==> Apply(s, ar, a).Some?
  {
    match a
    case Register(name, profile, jobIds) => RegisterEffect(s, ar, name, profile, jobIds);
    case Unregister(name) =>
    case Activate(name) =>
    case Vote(voter, list, staked, now) =>
      if Apply(s, ar, a).Some? { CastPasses(s, ar, voter, list, staked / PRECISION, now); }
    case UnstakeUpdate(voter, balance) =>
      if voter in s.voters && Cast(s, ar, voter, s.voters[voter].producers, balance / PRECISION, 0).Some? {
        CastPasses(s, ar, voter, s.voters[voter].producers, balance / PRECISION, 0);
      }
  }

  lemma {:induction false} StatusAfter(s: State, ar: Arithmetic, a: Action, p: Name)
    requires Apply(s, ar, a).Some? && p in Apply(s, ar, a).value.producers
    ensures Apply(s, ar, a).value.producers[p].isActive <==>
      Joins(a, p) || a == Activate(p) || (p in s.producers && s.producers[p].isActive && a != Unregister(p))
  {
    hide Times, Cast, Count;
    KeysAfter(s, ar, a, p);
    match a
    case Register(name, profile, jobIds) => RegisterEffect(s, ar, name, profile, jobIds);
    case Unregister(name) =>
    case Activate(name) =>
    case Vote(voter, list, staked, now) => CastEach(s, ar, voter, list, staked / PRECISION, now);
    case UnstakeUpdate(voter, balance) =>
      if voter in s.voters && balance / PRECISION > 1 {
        CastEach(s, ar, voter, s.voters[voter].producers, balance / PRECISION, 0);
      }
  }

  // The i-th action makes p active: an accepted registration, or an activation after one.
  ghost predicate Enlists(actions: seq<Action>, i: nat, p: Name)
    requires i < |actions|
  {
    Joins(actions[i], p) || (actions[i] == Activate(p) && Joined(actions[..i], p))
  }

  ghost predicate Joined(actions: seq<Action>, p: Name) {
    exists i: nat :: i < |actions| && Joins(actions[i], p)
  }

  // No unregistration of p from position i on.
  ghost predicate StaysFrom(actions: seq<Action>, i: nat, p: Name) {
    forall j: nat :: i <= j < |actions| ==> actions[j] != Unregister(p)
  }

  // On every run: the registered producers are those with an accepted registration, and a
  // producer is active exactly when it was registered or re-activated and not unregistered
  // since, whatever the votes.
  lemma {:induction false} ActiveFollowsActions(ar: Arithmetic, actions: seq<Action>, p: Name)
    ensures p in Run(ar, actions).producers <==> Joined(actions, p)
    ensures p in Run(ar, actions).producers && Run(ar, actions).producers[p].isActive <==>
      exists i: nat :: i < |actions| && Enlists(actions, i, p) && StaysFrom(actions, i, p)
    decreases |actions|
  {
    hide Apply, Joins;
    if actions != [] {
      var front, a := actions[..|actions| - 1], actions[|actions| - 1];
      var s := Run(ar, front);
      ActiveFollowsActions(ar, front, p);
      KeysAfter(s, ar, a, p);
      JoinedExtends(front, a, p);
      EnlistedExtends(front, a, p);
      assert front + [a] == actions;
      StatusAfterAny(s, ar, a, p);
    }
  }

  lemma {:induction false} StatusAfterAny(s: State, ar: Arithmetic, a: Action, p: Name)
    ensures var s' := if Apply(s, ar, a).Some? then Apply(s, ar, a).value else s;
      (p in s'.producers && s'.producers[p].isActive) <==>
        Joins(a, p) || (a == Activate(p) && p in s.producers) || (p in s.producers && s.producers[p].isActive && a != Unregister(p))
  {
    KeysAfter(s, ar, a, p);
    if Apply(s, ar, a).Some? && p in Apply(s, ar, a).value.producers {
      StatusAfter(s, ar, a, p);
    }
  }

  lemma {:induction false} JoinedExtends(front: seq<Action>, a: Action, p: Name)
    ensures Joined(front + [a], p) <==> Joined(front, p) || Joins(a, p)
  {
    hide Joins;
    var actions := front + [a];
    if Joined(front, p) {
      var i: nat :| i < |front| && Joins(front[i], p);
      assert Joins(actions[i], p);
    }
    if Joins(a, p) {
      assert Joins(actions[|front|], p);
    }
  }

  lemma {:induction false} EnlistedExtends(front: seq<Action>, a: Action, p: Name)
    ensures (exists i: nat :: i <= |front| && Enlists(front + [a], i, p) && StaysFrom(front + [a], i, p)) <==>
      || Joins(a, p)
      || (a == Activate(p) && Joined(front, p))
      || ((exists i: nat :: i < |front| && Enlists(front, i, p) && StaysFrom(front, i, p)) && a != Unregister(p))
  {
    hide Joined;
    var actions, n := front + [a], |front|;
    forall i: nat | i < n ensures Enlists(actions, i, p) == Enlists(front, i, p) {
      assert actions[..i] == front[..i];
    }
    assert actions[..n] == front;
    if i: nat :| i < n && Enlists(front, i, p) && StaysFrom(front, i, p) && a != Unregister(p) {
      assert Enlists(actions, i, p) && StaysFrom(actions, i, p);
    }
    if Enlists(actions, n, p) {
      assert StaysFrom(actions, n, p);
    }
    if i: nat :| i <= n && Enlists(actions, i, p) && StaysFrom(actions, i, p) {
      assert actions[n] == a;
      if i < n {
        assert Enlists(front, i, p);
        forall j: nat | i <= j < n ensures front[j] != Unregister(p) { assert actions[j] == front[j]; }
      }
    }
  }

  // --- the contract, updating its tables in place ---------------------------------------

  class Contract {
    var producers: map<Name, Producer>
    var voters: map<Name, Voter>
    const ar: Arithmetic

    constructor (ar: Arithmetic)
      ensures producers == map[] && voters == map[] && this.ar == ar
    {
      producers, voters, this.ar := map[], map[], ar;
    }

    function Now(): State
      reads this
    {
      State(producers, voters)
    }

    method RegProducer(p: Name, profile: Profile, jobIds: seq<nat>) returns (ok: bool)
      modifies this
      ensures ok == Registered(old(Now()), p, profile, jobIds).Some?
      ensures Now() == if ok then Registered(old(Now()), p, profile, jobIds).value else old(Now())
    {
      ok := CheckJobs(jobIds);
      if ok {
        if p in producers {
          producers := producers[p := producers[p].(isActive := true, profile := profile, jobIds := jobIds)];
        } else {
          producers := producers[p := Producer(0.0, true, profile, jobIds)];
        }
      }
    }

    method CheckJobs(jobIds: seq<nat>) returns (result: bool)
      ensures result == JobsValid(jobIds)
    {
      result := true;
      for i := 0 to |jobIds|
        invariant result
        invariant JobsValid(jobIds[..i])
      {
        if jobIds[i] < 1 || jobIds[i] > 2 {
          return false;
        }
      }
    }

    method SetActive(p: Name, active: bool) returns (ok: bool)
      modifies this
      ensures ok == Activated(old(Now()), p, active).Some?
      ensures Now() == if ok then Activated(old(Now()), p, active).value else old(Now())
    {
      ok := p in producers;
      if ok {
        producers := producers[p := producers[p].(isActive := active)];
      }
    }

    // Leaves a partial update behind when it fails; the caller rolls back.
    method UpdateProducers(voter: Name, list: seq<Name>, votesPerProd: real, undo: bool) returns (ok: bool)
      modifies this`producers
      ensures ok == Added(old(producers), voter, list, if undo then -votesPerProd else votesPerProd).Some?
      ensures ok ==> producers == Added(old(producers), voter, list, if undo then -votesPerProd else votesPerProd).value
    {
      var delta := if undo then -votesPerProd else votesPerProd;
      AddedSucceeds(producers, voter, list, delta);
      for i := 0 to |list|
        invariant Added(old(producers), voter, list[..i], delta) == Some(producers)
      {
        AddedSucceeds(old(producers), voter, list[..i], delta);
        var p := list[i];
        assert list[..i + 1][..i] == list[..i];
        if p == voter || p !in producers {
          return false;
        }
        producers := producers[p := producers[p].(totalVotes := producers[p].totalVotes + delta)];
      }
      assert list[..|list|] == list;
      ok := true;
    }

    method CastVote(voter: Name, list: seq<Name>, tokens: nat, time: nat) returns (ok: bool)
      modifies this
      ensures ok == Cast(old(Now()), ar, voter, list, tokens, time).Some?
      ensures Now() == if ok then Cast(old(Now()), ar, voter, list, tokens, time).value else old(Now())
    {
      var saved := producers;
      var per := VotesPerProd(ar, tokens, |list|);
      ok := true;
      if voter in voters {
        ok := UpdateProducers(voter, voters[voter].producers, voters[voter].votesPerProd, true);
      }
      if ok {
        ok := UpdateProducers(voter, list, per, false);
      }
      if !ok {
        producers := saved;
        return;
      }
      if voter in voters {
        voters := voters[voter := voters[voter].(producers := list, votesPerProd := per, tokens := tokens, date := if time != 0 then time else voters[voter].date)];
      } else {
        voters := voters[voter := Voter(list, time, per, tokens)];
      }
    }

    method VoteProducer(voter: Name, list: seq<Name>, staked: nat, now: nat) returns (ok: bool)
      modifies this
      ensures ok == Voted(old(Now()), ar, voter, list, staked, now).Some?
      ensures Now() == if ok then Voted(old(Now()), ar, voter, list, staked, now).value else old(Now())
    {
      if |list| > MAX_PRODUCERS {
        return false;
      }
      for i := 0 to |list|
        invariant voter !in list[..i]
      {
        if list[i] == voter {
          return false;
        }
      }
      if staked / PRECISION < MIN_TOKENS {
        return false;
      }
      ok := CastVote(voter, list, staked / PRECISION, now);
    }

    method OnUnstake(voter: Name, balance: nat) returns (ok: bool)
      modifies this
      ensures ok == Refreshed(old(Now()), ar, voter, balance).Some?
      ensures Now() == if ok then Refreshed(old(Now()), ar, voter, balance).value else old(Now())
    {
      ok := true;
      if voter in voters && balance / PRECISION > 1 {
        ok := CastVote(voter, voters[voter].producers, balance / PRECISION, 0);
      }
    }
  }
}
