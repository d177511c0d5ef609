// The staking contract together with the token contract it is paid through.
module Staking {
  import opened Results
  import opened MapSum
  import opened Token

  datatype Stake = Stake(id: nat, amount: int, subsidy: int, unlock: nat)

  datatype Globals = Globals(currentlyStaked: int, cumulativeStaked: int, cumulativeSubsidy: int)

  // The staking contract's tables.
  datatype Tables = Tables(rows: map<Name, seq<Stake>>, globals: Option<Globals>, blacklist: set<Name>)

  // The accounts involved: the staking contract itself and the account that funds it.
  datatype Config = Config(env: Env, self: Name, tokenAcc: Name, vtx: Symbol)

  const MIN_STAKE: int := 100000000000
  const MAX_STAKE: int := 1000000000000000
  const STAKE_PERIOD: nat := 2592000
  const MAX_PERIODS: nat := 10
  const TWO_16: int := 0x1_0000
  const TWO_32: int := 0x1_0000_0000
  const UNSTAKE_MEMO_SIZE: nat := 14

  function RowsOf(t: Tables, account: Name): seq<Stake> { if account in t.rows then t.rows[account] else [] }

  // --- staking --------------------------------------------------------------------------

  predicate QuantityOk(cfg: Config, quantity: Asset) {
    quantity.symbol == cfg.vtx && IsValid(cfg.env, quantity) && MIN_STAKE <= quantity.amount <= MAX_STAKE
  }

  // (1 + periods/10) / 100 of the quantity, rounded down.
  function Subsidy(amount: int, periods: nat): int {
    amount * (10 + periods) / 1000
  }

  function NextId(rows: seq<Stake>): nat { if rows == [] then 0 else rows[|rows| - 1].id + 1 }

  // The memo is the number of periods; it is converted to 16 bits, the unlock time to 32.
  function Staked(cfg: Config, t: Tables, account: Name, quantity: Asset, periods: nat, now: nat): Option<Tables> {
    if !QuantityOk(cfg, quantity) || periods > MAX_PERIODS || t.globals.None? then None
    else
      var subsidy, g := Subsidy(quantity.amount, periods), t.globals.value;
      if g.cumulativeStaked + g.cumulativeSubsidy + quantity.amount + subsidy > MAX_STAKE then None
      else
        var row := Stake(NextId(RowsOf(t, account)), quantity.amount, subsidy, (now + periods * STAKE_PERIOD) % TWO_32);
        Some(t.(rows := t.rows[account := RowsOf(t, account) + [row]],
                globals := Some(Globals(g.currentlyStaked + quantity.amount, g.cumulativeStaked + quantity.amount, g.cumulativeSubsidy + subsidy))))
  }

  // The handler for transfers; memo is what the memo parses to.
  function Notified(cfg: Config, t: Tables, from: Name, to: Name, quantity: Asset, memo: Option<int>, now: nat): Option<Tables> {
    if from == cfg.self || to != cfg.self || from == cfg.tokenAcc then Some(t)
    else
      var parsed :- memo;
      Staked(cfg, t, from, quantity, parsed % TWO_16, now)
  }

  // --- unstaking ------------------------------------------------------------------------

  // The rows still locked at the given time, in order.
  function Kept(rows: seq<Stake>, time: nat): seq<Stake> {
    if rows == [] then []
    else
      var last := rows[|rows| - 1];
      Kept(rows[..|rows| - 1], time) + if time < last.unlock then [last] else []
  }

  // Sums over rows: the staked amounts, and everything due.
  function AmountOf(rows: seq<Stake>): int { if rows == [] then 0 else AmountOf(rows[..|rows| - 1]) + rows[|rows| - 1].amount }
  function DueOf(rows: seq<Stake>): int { if rows == [] then 0 else DueOf(rows[..|rows| - 1]) + rows[|rows| - 1].amount + rows[|rows| - 1].subsidy }

  // What is due from the rows that are unlocked.
  function Payable(rows: seq<Stake>, time: nat): int { DueOf(rows) - DueOf(Kept(rows, time)) }

  // What is released from the staked amounts.
  function Released(rows: seq<Stake>, time: nat): int { AmountOf(rows) - AmountOf(Kept(rows, time)) }

  // The rows are removed and the globals reduced; None when that aborts.
  function Unstaked(t: Tables, account: Name, time: nat): Option<Tables> {
    if account in t.blacklist then None
    else
      var rows := RowsOf(t, account);
      if Kept(rows, time) == rows then Some(t)
      else
        var g :- t.globals;
        Some(t.(rows := t.rows[account := Kept(rows, time)],
                globals := Some(g.(currentlyStaked := g.currentlyStaked - Released(rows, time)))))
  }

  // --- both contracts -------------------------------------------------------------------

  // funded is the total received from the funding account; it is not stored on the chain.
  datatype Chain = Chain(ledger: Ledger, tables: Tables, funded: int)

  // A user's transfer, with the notification of the staking contract.
  function Sent(cfg: Config, c: Chain, auth: bool, from: Name, to: Name, quantity: Asset, memo: Option<int>, memoSize: nat, now: nat): Option<Chain> {
    var l :- Transferred(cfg.env, c.ledger, auth, from, to, quantity, memoSize);
    var t :- Notified(cfg, c.tables, from, to, quantity, memo, now);
    var funding := if from == cfg.tokenAcc && to == cfg.self && quantity.symbol.code == cfg.vtx.code then quantity.amount else 0;
    Some(Chain(l, t, c.funded + funding))
  }

  // Unstaking: the tables first, then one inline transfer of the whole sum.
  function Withdrawn(cfg: Config, c: Chain, auth: bool, account: Name, accepted: bool, now: nat): Option<Chain> {
    var t :- if auth then Unstaked(c.tables, account, now) else None;
    var l :- Transferred(cfg.env, c.ledger, accepted, cfg.self, account, Asset(Payable(RowsOf(c.tables, account), now), cfg.vtx), UNSTAKE_MEMO_SIZE);
    Some(Chain(l, t, c.funded))
  }

  // Issuing: the issuer is credited first, then the inline transfer is notified.
  function IssuedTo(cfg: Config, c: Chain, auth: bool, to: Name, quantity: Asset, memo: Option<int>, memoSize: nat, now: nat): Option<Chain> {
    var l :- Minted(cfg.env, c.ledger, auth, quantity, memoSize);
    var issuer, c' := c.ledger.stats[quantity.symbol.code].issuer, c.(ledger := l);
    if to == issuer then Some(c') else Sent(cfg, c', auth, issuer, to, quantity, memo, memoSize, now)
  }

  datatype Action =
    | Send(auth: bool, from: Name, to: Name, quantity: Asset, memo: Option<int>, memoSize: nat, now: nat)
    | Unstake(auth: bool, account: Name, accepted: bool, now: nat)
    | IssueTo(auth: bool, to: Name, quantity: Asset, memo: Option<int>, memoSize: nat, now: nat)
    | Books(book: Token.Action)
    | InitGlobal
    | Ban(account: Name)
    | Unban(account: Name)

  function Step(cfg: Config, c: Chain, a: Action): Option<Chain> {
    match a
    case Send(auth, from, to, quantity, memo, memoSize, now) => Sent(cfg, c, auth, from, to, quantity, memo, memoSize, now)
    case Unstake(auth, account, accepted, now) => Withdrawn(cfg, c, auth, account, accepted, now)
    case IssueTo(auth, to, quantity, memo, memoSize, now) => IssuedTo(cfg, c, auth, to, quantity, memo, memoSize, now)
    case Books(book) =>
      var l :- if book.Issue? || book.Transfer? then None else Token.Apply(cfg.env, c.ledger, book);
      Some(c.(ledger := l))
    case InitGlobal => Some(c.(tables := c.tables.(globals := if c.tables.globals.None? then Some(Globals(0, 0, 0)) else c.tables.globals)))
    case Ban(account) => Some(c.(tables := c.tables.(blacklist := c.tables.blacklist + {account})))
    case Unban(account) => Some(c.(tables := c.tables.(blacklist := c.tables.blacklist - {account})))
  }

  // Nobody but the contract itself moves the contract's staked tokens.
  predicate Legal(cfg: Config, a: Action) { a.Send? && a.quantity.symbol.code == cfg.vtx.code ==> a.from != cfg.self }

  function Run(cfg: Config, start: Chain, actions: seq<Action>): Chain
    decreases |actions|
  {
    if actions == [] then start
    else
      var c := Run(cfg, start, actions[..|actions| - 1]);
      match Step(cfg, c, actions[|actions| - 1]) case Some(c') => c' case None => c
  }

  // --- the unstake loop keeps the locked rows and pays the others -----------------------

  // Exactly the rows with a later unlock time stay, in their order.
  lemma {:induction false} KeptIsLocked(rows: seq<Stake>, time: nat)
    ensures forall r :: r in Kept(rows, time) <==> r in rows && time < r.unlock
    ensures multiset(Kept(rows, time)) <= multiset(rows)
    ensures Kept(rows, time) == rows <==> forall r :: r in rows ==> time < r.unlock
    decreases |rows|
  {
    if rows != [] {
      var front, last := rows[..|rows| - 1], rows[|rows| - 1];
      assert rows == front + [last];
      KeptIsLocked(front, time);
      assert |Kept(front, time)| <= |front| by { KeptShorter(front, time); }
    }
  }

  lemma {:induction false} KeptShorter(rows: seq<Stake>, time: nat)
    ensures |Kept(rows, time)| <= |rows|
    decreases |rows|
  {
    if rows != [] { KeptShorter(rows[..|rows| - 1], time); }
  }

  ghost predicate IdsAscend(rows: seq<Stake>) {
    forall i, j :: 0 <= i < j < |rows| ==> rows[i].id < rows[j].id
  }

  // a consists of the rows of b at the positions idx, in their order.
  ghost predicate Embeds(a: seq<Stake>, b: seq<Stake>, idx: seq<nat>) {
    && |idx| == |a|
    && (forall i :: 0 <= i < |a| ==> idx[i] < |b| && a[i] == b[idx[i]])
    && (forall i, j :: 0 <= i < j < |a| ==> idx[i] < idx[j])
  }

  lemma {:induction false} KeptInOrder(rows: seq<Stake>, time: nat) returns (idx: seq<nat>)
    ensures Embeds(Kept(rows, time), rows, idx)
    decreases |rows|
  {
    idx := [];
    if rows != [] {
      var front, last := rows[..|rows| - 1], rows[|rows| - 1];
      idx := KeptInOrder(front, time);
      EmbedsMore(Kept(front, time), front, last, idx);
      assert rows == front + [last];
      if time < last.unlock { idx := idx + [|front|]; }
    }
  }

  lemma {:induction false} EmbedsMore(a: seq<Stake>, b: seq<Stake>, last: Stake, idx: seq<nat>)
    requires Embeds(a, b, idx)
    ensures Embeds(a + [], b + [last], idx)
    ensures Embeds(a + [last], b + [last], idx + [|b|])
  {
    assert a + [] == a;
  }

  // --- the invariant --------------------------------------------------------------------

  function AmountWeight(): (Name, seq<Stake>) -> real { (a: Name, rows: seq<Stake>) => AmountOf(rows) as real }
  function DueWeight(): (Name, seq<Stake>) -> real { (a: Name, rows: seq<Stake>) => DueOf(rows) as real }

  // What the staking account holds.
  function Holding(cfg: Config, l: Ledger): int {
    var key := (cfg.self, cfg.vtx.code);
    if key in l.balances then l.balances[key].amount else 0
  }

  function GlobalsOf(t: Tables): Globals { match t.globals case Some(g) => g case None => Globals(0, 0, 0) }

  ghost predicate RowOk(r: Stake) { 0 < r.amount && 0 <= r.subsidy && 50 * r.subsidy <= r.amount }

  ghost predicate RowsOk(rows: seq<Stake>) { IdsAscend(rows) && forall r :: r in rows ==> RowOk(r) }

  ghost predicate Solvent(cfg: Config, c: Chain) {
    var g := GlobalsOf(c.tables);
    && cfg.self != cfg.tokenAcc && Conserved(c.ledger)
    && cfg.env.validSymbol(cfg.vtx) && cfg.vtx.code in c.ledger.stats && c.ledger.stats[cfg.vtx.code].supply.symbol == cfg.vtx
    && c.ledger.stats[cfg.vtx.code].issuer != cfg.self
    && (forall a :: a in c.tables.rows ==> RowsOk(c.tables.rows[a]))
    && (c.tables.globals.None? ==> c.tables.rows == map[])
    // the cached totals
    && g.currentlyStaked as real == Total(c.tables.rows, AmountWeight())
    && 50 * g.cumulativeSubsidy <= g.cumulativeStaked && 0 <= g.cumulativeSubsidy
    && g.cumulativeStaked + g.cumulativeSubsidy <= MAX_STAKE
    && Total(c.tables.rows, DueWeight()) <= (g.cumulativeStaked + g.cumulativeSubsidy) as real
    // the books: balance - outstanding = funding - subsidies granted
    && Holding(cfg, c.ledger) as real - Total(c.tables.rows, DueWeight()) == c.funded as real - g.cumulativeSubsidy as real
  }

  // --- staking keeps it -----------------------------------------------------------------

  // The subsidy is (1 + periods/10) percent of the stake, rounded down: at most 1/50 of it.
  lemma {:induction false} SubsidyBound(amount: int, periods: nat)
    requires 0 <= amount && periods <= MAX_PERIODS
    ensures var exact := amount as real * ((1.0 + periods as real / 10.0) / 100.0); exact - 1.0 < Subsidy(amount, periods) as real <= exact
    ensures 0 <= Subsidy(amount, periods) && 50 * Subsidy(amount, periods) <= amount
  {
    var z := amount * (10 + periods);
    assert z <= amount * 20;
    assert amount as real * ((1.0 + periods as real / 10.0) / 100.0) == z as real / 1000.0;
    assert Subsidy(amount, periods) * 1000 <= z < Subsidy(amount, periods) * 1000 + 1000;
  }

  lemma {:induction false} AppendRow(rows: seq<Stake>, r: Stake)
    ensures AmountOf(rows + [r]) == AmountOf(rows) + r.amount
    ensures DueOf(rows + [r]) == DueOf(rows) + r.amount + r.subsidy
    ensures RowsOk(rows) && RowOk(r) && r.id == NextId(rows) ==> RowsOk(rows + [r])
  {
    assert (rows + [r])[..|rows|] == rows;
  }

  lemma {:induction false} StakeTotals(cfg: Config, t: Tables, account: Name, quantity: Asset, periods: nat, now: nat)
    requires Staked(cfg, t, account, quantity, periods, now).Some?
    requires forall a :: a in t.rows ==> RowsOk(t.rows[a])
    ensures var t' := Staked(cfg, t, account, quantity, periods, now).value; var s := Subsidy(quantity.amount, periods);
      && Total(t'.rows, AmountWeight()) == Total(t.rows, AmountWeight()) + quantity.amount as real
      && Total(t'.rows, DueWeight()) == Total(t.rows, DueWeight()) + (quantity.amount + s) as real
      && (forall a :: a in t'.rows ==> RowsOk(t'.rows[a]))
      && 0 <= s && 50 * s <= quantity.amount
  {
    var t' := Staked(cfg, t, account, quantity, periods, now).value;
    var rows := RowsOf(t, account);
    SubsidyBound(quantity.amount, periods);
    AppendRow(rows, t'.rows[account][|rows|]);
    Update(t.rows, AmountWeight(), account, t'.rows[account]);
    Update(t.rows, DueWeight(), account, t'.rows[account]);
  }

  // What a transfer does to the staking account's balance.
  lemma {:induction false} TransferHolding(cfg: Config, l: Ledger, auth: bool, from: Name, to: Name, quantity: Asset, memoSize: nat)
    requires Conserved(l) && Transferred(cfg.env, l, auth, from, to, quantity, memoSize).Some?
    ensures var l' := Transferred(cfg.env, l, auth, from, to, quantity, memoSize).value;
      && l'.stats == l.stats
      && Holding(cfg, l') == Holding(cfg, l)
           + (if to == cfg.self && quantity.symbol.code == cfg.vtx.code then quantity.amount else 0)
           - (if from == cfg.self && quantity.symbol.code == cfg.vtx.code then quantity.amount else 0)
  {
  }

  lemma {:induction false} SendKeepsSolvent(cfg: Config, c: Chain, auth: bool, from: Name, to: Name, quantity: Asset, memo: Option<int>, memoSize: nat, now: nat)
    requires Solvent(cfg, c) && (quantity.symbol.code == cfg.vtx.code ==> from != cfg.self)
    requires Sent(cfg, c, auth, from, to, quantity, memo, memoSize, now).Some?
    ensures Solvent(cfg, Sent(cfg, c, auth, from, to, quantity, memo, memoSize, now).value)
  {
    TransferConserves(cfg.env, c.ledger, auth, from, to, quantity, memoSize);
    TransferHolding(cfg, c.ledger, auth, from, to, quantity, memoSize);
    if to == cfg.self && from != cfg.tokenAcc {
      StakeTotals(cfg, c.tables, from, quantity, memo.value % TWO_16, now);
    }
  }

  // The other token actions do not touch the staked tokens.
  lemma {:induction false} MintHolding(cfg: Config, l: Ledger, auth: bool, quantity: Asset, memoSize: nat)
    requires Minted(cfg.env, l, auth, quantity, memoSize).Some?
    requires quantity.symbol.code == cfg.vtx.code ==> l.stats[cfg.vtx.code].issuer != cfg.self
    ensures Holding(cfg, Minted(cfg.env, l, auth, quantity, memoSize).value) == Holding(cfg, l)
  {
  }

  lemma {:induction false} IssueKeepsSolvent(cfg: Config, c: Chain, auth: bool, to: Name, quantity: Asset, memo: Option<int>, memoSize: nat, now: nat)
    requires Solvent(cfg, c) && IssuedTo(cfg, c, auth, to, quantity, memo, memoSize, now).Some?
    ensures Solvent(cfg, IssuedTo(cfg, c, auth, to, quantity, memo, memoSize, now).value)
  {
    MintConserves(cfg.env, c.ledger, auth, quantity, memoSize);
    MintHolding(cfg, c.ledger, auth, quantity, memoSize);
    var issuer, c' := c.ledger.stats[quantity.symbol.code].issuer, c.(ledger := Minted(cfg.env, c.ledger, auth, quantity, memoSize).value);
    assert Solvent(cfg, c');
    if to != issuer { SendKeepsSolvent(cfg, c', auth, issuer, to, quantity, memo, memoSize, now); }
  }

  lemma {:induction false} BooksKeepSolvent(cfg: Config, c: Chain, book: Token.Action)
    requires Solvent(cfg, c) && !book.Issue? && !book.Transfer? && Token.Apply(cfg.env, c.ledger, book).Some?
    ensures Solvent(cfg, c.(ledger := Token.Apply(cfg.env, c.ledger, book).value))
  {
    hide Conserved, RowsOk, Total, IsValid;
    ActionConserves(cfg.env, c.ledger, book);
    assert Holding(cfg, Token.Apply(cfg.env, c.ledger, book).value) == Holding(cfg, c.ledger);
  }

  // --- unstaking keeps it ---------------------------------------------------------------

  lemma {:induction false} KeptOk(rows: seq<Stake>, time: nat)
    requires RowsOk(rows)
    ensures RowsOk(Kept(rows, time))
    decreases |rows|
  {
    var idx := KeptInOrder(rows, time);
    var k := Kept(rows, time);
    forall i, j | 0 <= i < j < |k| ensures k[i].id < k[j].id {
      assert idx[i] < idx[j];
    }
    forall r | r in k ensures RowOk(r) {
      var i :| 0 <= i < |k| && k[i] == r;
      assert r == rows[idx[i]];
    }
  }

  lemma {:induction false} UnstakeKeepsSolvent(cfg: Config, c: Chain, auth: bool, account: Name, accepted: bool, now: nat)
    requires Solvent(cfg, c) && Withdrawn(cfg, c, auth, account, accepted, now).Some?
    ensures Solvent(cfg, Withdrawn(cfg, c, auth, account, accepted, now).value)
  {
    var rows := RowsOf(c.tables, account);
    var due := Asset(Payable(rows, now), cfg.vtx);
    TransferConserves(cfg.env, c.ledger, accepted, cfg.self, account, due, UNSTAKE_MEMO_SIZE);
    TransferHolding(cfg, c.ledger, accepted, cfg.self, account, due, UNSTAKE_MEMO_SIZE);
    assert Kept(rows, now) != rows;
    PayablePositive(rows, now);
    KeptOk(rows, now);
    Update(c.tables.rows, AmountWeight(), account, Kept(rows, now));
    Update(c.tables.rows, DueWeight(), account, Kept(rows, now));
  }

  // The chain before anybody staked: the token exists and the staking account is empty.
  ghost predicate Genesis(cfg: Config, c: Chain) {
    && cfg.self != cfg.tokenAcc && Conserved(c.ledger)
    && cfg.env.validSymbol(cfg.vtx) && cfg.vtx.code in c.ledger.stats && c.ledger.stats[cfg.vtx.code].supply.symbol == cfg.vtx
    && c.ledger.stats[cfg.vtx.code].issuer != cfg.self
    && Holding(cfg, c.ledger) == 0 && c.funded == 0
    && c.tables.rows == map[] && c.tables.globals == None
  }

  // Over every run of transfers and unstakes, the staking account's balance minus all
  // outstanding stakes and subsidies is the funding received minus the subsidies granted.
  lemma {:induction false} StakingSolvency(cfg: Config, start: Chain, actions: seq<Action>)
    requires Genesis(cfg, start) && forall i :: 0 <= i < |actions| ==> Legal(cfg, actions[i])
    ensures Solvent(cfg, Run(cfg, start, actions))
    decreases |actions|
  {
    if actions != [] {
      hide Solvent, Step, Genesis;
      var front := actions[..|actions| - 1];
      StakingSolvency(cfg, start, front);
      if Step(cfg, Run(cfg, start, front), actions[|actions| - 1]).Some? {
        StepKeepsSolvent(cfg, Run(cfg, start, front), actions[|actions| - 1]);
      }
    }
  }

  lemma {:induction false} StepKeepsSolvent(cfg: Config, c: Chain, a: Action)
    requires Solvent(cfg, c) && Legal(cfg, a) && Step(cfg, c, a).Some?
    ensures Solvent(cfg, Step(cfg, c, a).value)
  {
    hide Conserved, RowsOk, Total, Sent, Withdrawn, IssuedTo;
    match a
    case Send(auth, from, to, quantity, memo, memoSize, now) => SendKeepsSolvent(cfg, c, auth, from, to, quantity, memo, memoSize, now);
    case Unstake(auth, account, accepted, now) => UnstakeKeepsSolvent(cfg, c, auth, account, accepted, now);
    case IssueTo(auth, to, quantity, memo, memoSize, now) => IssueKeepsSolvent(cfg, c, auth, to, quantity, memo, memoSize, now);
    case Books(book) => BooksKeepSolvent(cfg, c, book);
    case InitGlobal =>
    case Ban(account) =>
    case Unban(account) =>
  }

  // The subsidies ever granted are at most 1/51 of the global limit.
  lemma {:induction false} SubsidyCap(cfg: Config, c: Chain)
    requires Solvent(cfg, c)
    ensures 51 * GlobalsOf(c.tables).cumulativeSubsidy <= MAX_STAKE
    ensures GlobalsOf(c.tables).cumulativeSubsidy <= MAX_STAKE / 51
  {
  }

  // No sum that the contract forms, over any part of an account's rows, leaves the 64-bit
  // range: asset addition never aborts here.
  lemma {:induction false} SumsInRange(cfg: Config, c: Chain, account: Name, k: nat, time: nat)
    requires Solvent(cfg, c) && k <= |RowsOf(c.tables, account)|
    ensures 0 <= AmountOf(RowsOf(c.tables, account)[..k]) <= MAX_STAKE < MAX_AMOUNT
    ensures 0 <= Payable(RowsOf(c.tables, account)[..k], time) <= MAX_STAKE
    ensures 0 <= GlobalsOf(c.tables).currentlyStaked <= MAX_STAKE
  {
    var rows := RowsOf(c.tables, account);
    DueOfPrefix(rows, k);
    assert forall r :: r in rows[..k] ==> r in rows;
    PayablePositive(rows[..k], time);
    KeptIsLocked(rows[..k], time);
    DueNonNegative(Kept(rows[..k], time));
    forall a | a in c.tables.rows
      ensures AmountWeight()(a, c.tables.rows[a]) >= 0.0 && DueWeight()(a, c.tables.rows[a]) >= AmountWeight()(a, c.tables.rows[a])
    {
      DueNonNegative(c.tables.rows[a]);
    }
    TotalBounds(c.tables.rows, AmountWeight());
    TotalBounds(c.tables.rows, DueWeight());
    TotalAtMost(c.tables.rows, AmountWeight(), DueWeight());
    if account in c.tables.rows {
      assert DueWeight()(account, rows) <= Total(c.tables.rows, DueWeight());
    }
  }

  lemma {:induction false} DueOfPrefix(rows: seq<Stake>, k: nat)
    requires k <= |rows| && forall r :: r in rows ==> RowOk(r)
    ensures 0 <= AmountOf(rows[..k]) <= DueOf(rows[..k]) <= DueOf(rows)
    decreases |rows|
  {
    assert forall r :: r in rows[..k] ==> r in rows;
    DueNonNegative(rows[..k]);
    if k < |rows| {
      var front := rows[..|rows| - 1];
      assert front[..k] == rows[..k] && rows[|rows| - 1] in rows;
      assert forall r :: r in front ==> r in rows;
      DueOfPrefix(front, k);
    } else {
      assert rows[..k] == rows;
    }
  }

  // With funding of at least floor(10^15 / 51), the account can always pay everything that
  // is outstanding ...
  lemma {:induction false} FundingSuffices(cfg: Config, c: Chain)
    requires Solvent(cfg, c) && c.funded >= MAX_STAKE / 51
    ensures Holding(cfg, c.ledger) as real >= Total(c.tables.rows, DueWeight())
  {
    SubsidyCap(cfg, c);
  }

  // Funding never falls ...
  lemma {:induction false} StepFunds(cfg: Config, c: Chain, a: Action)
    requires Step(cfg, c, a).Some?
    ensures Step(cfg, c, a).value.funded >= c.funded
  {
    hide Notified, WithoutBalance, WithBalance, Minted, Unstaked, Token.Apply, IsValid;
  }

  lemma {:induction false} FundingNeverFalls(cfg: Config, start: Chain, actions: seq<Action>, k: nat)
    requires k <= |actions|
    ensures Run(cfg, start, actions[..k]).funded <= Run(cfg, start, actions).funded
    decreases |actions|
  {
    hide Step;
    if k == |actions| {
      assert actions[..k] == actions;
    } else {
      var front, a := actions[..|actions| - 1], actions[|actions| - 1];
      assert front[..k] == actions[..k];
      FundingNeverFalls(cfg, start, front, k);
      if Step(cfg, Run(cfg, start, front), a).Some? { StepFunds(cfg, Run(cfg, start, front), a); }
    }
  }

  // ... so from the moment the funding is reached, every later state can pay everything that
  // is outstanding.
  lemma {:induction false} FundedForever(cfg: Config, start: Chain, actions: seq<Action>, k: nat)
    requires Genesis(cfg, start) && forall i :: 0 <= i < |actions| ==> Legal(cfg, actions[i])
    requires k <= |actions| && Run(cfg, start, actions[..k]).funded >= MAX_STAKE / 51
    ensures var c := Run(cfg, start, actions);
      Solvent(cfg, c) && c.funded >= MAX_STAKE / 51 && Holding(cfg, c.ledger) as real >= Total(c.tables.rows, DueWeight())
  {
    hide Solvent, Genesis, Run, Step;
    StakingSolvency(cfg, start, actions);
    FundingNeverFalls(cfg, start, actions, k);
    FundingSuffices(cfg, Run(cfg, start, actions));
  }

  lemma {:induction false} DueNonNegative(rows: seq<Stake>)
    requires forall r :: r in rows ==> RowOk(r)
    ensures AmountOf(rows) >= 0 && DueOf(rows) >= AmountOf(rows)
    decreases |rows|
  {
    if rows != [] {
      assert forall r :: r in rows[..|rows| - 1] ==> r in rows;
      assert rows[|rows| - 1] in rows;
      DueNonNegative(rows[..|rows| - 1]);
    }
  }

  // Something is payable exactly when a row is unlocked.
  lemma {:induction false} PayablePositive(rows: seq<Stake>, time: nat)
    requires forall r :: r in rows ==> RowOk(r)
    ensures Payable(rows, time) >= 0
    ensures Payable(rows, time) > 0 <==> exists r :: r in rows && r.unlock <= time
    decreases |rows|
  {
    if rows != [] {
      var front, last := rows[..|rows| - 1], rows[|rows| - 1];
      assert rows == front + [last];
      assert RowOk(last) && forall r :: r in front ==> r in rows;
      PayablePositive(front, time);
      PayableStep(rows, time);
    }
  }

  lemma {:induction false} PayableStep(rows: seq<Stake>, time: nat)
    requires rows != []
    ensures var front, last := rows[..|rows| - 1], rows[|rows| - 1];
      Payable(rows, time) == Payable(front, time) + if time < last.unlock then 0 else last.amount + last.subsidy
  {
    OneRow(rows, |rows| - 1, time);
    assert rows[..|rows|] == rows;
  }

  // A stake is paid back with its subsidy from the end of its periods on, and not before.
  lemma {:induction false} StakeUnlocks(cfg: Config, t: Tables, account: Name, quantity: Asset, periods: nat, now: nat, time: nat)
    requires Staked(cfg, t, account, quantity, periods, now).Some?
    requires now + periods * STAKE_PERIOD < TWO_32
    ensures var t' := Staked(cfg, t, account, quantity, periods, now).value;
      Payable(RowsOf(t', account), time) == Payable(RowsOf(t, account), time)
        + if time < now + periods * 30 * 24 * 60 * 60 then 0 else quantity.amount + Subsidy(quantity.amount, periods)
  {
    hide Payable, QuantityOk, Subsidy;
    var rows := RowsOf(Staked(cfg, t, account, quantity, periods, now).value, account);
    assert rows[..|rows| - 1] == RowsOf(t, account);
    PayableStep(rows, time);
  }

  lemma {:induction false} PayableAtMostDue(rows: seq<Stake>, time: nat)
    requires RowsOk(rows)
    ensures Payable(rows, time) <= DueOf(rows)
  {
    KeptOk(rows, time);
    DueNonNegative(Kept(rows, time));
  }

  // ... so unstaking succeeds exactly when the account is authorised, not banned, exists, is
  // not the contract itself, takes the transfer, and has an unlocked stake.
  lemma {:induction false} UnstakeSucceedsIff(cfg: Config, c: Chain, auth: bool, account: Name, accepted: bool, now: nat)
    requires Solvent(cfg, c) && c.funded >= MAX_STAKE / 51
    ensures Withdrawn(cfg, c, auth, account, accepted, now).Some? <==>
      && auth && account !in c.tables.blacklist && account != cfg.self && cfg.env.isAccount(account) && accepted
      && exists r :: r in RowsOf(c.tables, account) && r.unlock <= now
  {
    var rows := RowsOf(c.tables, account);
    var due := Asset(Payable(rows, now), cfg.vtx);
    PayablePositive(rows, now);
    KeptIsLocked(rows, now);
    FundingSuffices(cfg, c);
    HoldingCovers(cfg, c, account, now);
    TransferSucceeds(cfg.env, c.ledger, accepted, cfg.self, account, due, UNSTAKE_MEMO_SIZE);
  }

  lemma {:induction false} HoldingCovers(cfg: Config, c: Chain, account: Name, now: nat)
    requires Solvent(cfg, c) && Holding(cfg, c.ledger) as real >= Total(c.tables.rows, DueWeight())
    ensures Payable(RowsOf(c.tables, account), now) <= Holding(cfg, c.ledger)
    ensures InRange(Payable(RowsOf(c.tables, account), now))
  {
    var rows := RowsOf(c.tables, account);
    PayablePositive(rows, now);
    PayableAtMostDue(rows, now);
    forall a | a in c.tables.rows ensures DueWeight()(a, c.tables.rows[a]) >= 0.0 {
      DueNonNegative(c.tables.rows[a]);
    }
    TotalBounds(c.tables.rows, DueWeight());
    if account in c.tables.rows {
      assert DueWeight()(account, rows) <= Total(c.tables.rows, DueWeight());
    }
    var key := (cfg.self, cfg.vtx.code);
    if key in c.ledger.balances { BalanceWithinSupply(c.ledger, key); }
  }

  // --- from a transfer to the stake, and back -------------------------------------------

  // The memo is the number of periods, converted to 16 bits.  A user's transfer to the
  // contract succeeds exactly when the token transfer does, the memo names at most 10
  // periods, the quantity is within the bounds, and the global limit holds.
  lemma {:induction false} StakeBySendingIff(cfg: Config, c: Chain, auth: bool, from: Name, quantity: Asset, memo: Option<int>, memoSize: nat, now: nat)
    requires from != cfg.self && from != cfg.tokenAcc
    ensures Step(cfg, c, Send(auth, from, cfg.self, quantity, memo, memoSize, now)).Some? <==>
      && Transferred(cfg.env, c.ledger, auth, from, cfg.self, quantity, memoSize).Some?
      && memo.Some? && memo.value % 65536 <= 10
      && quantity.symbol == cfg.vtx && 1000 * 100000000 <= quantity.amount <= 10000000 * 100000000
      && c.tables.globals.Some?
      && c.tables.globals.value.cumulativeStaked + c.tables.globals.value.cumulativeSubsidy
           + quantity.amount + quantity.amount * (10 + memo.value % 65536) / 1000 <= 10000000 * 100000000
  {
    hide WithoutBalance, WithBalance;
  }

  // The stake that a transfer with this memo makes: its amount, the subsidy and unlock time
  // for that many periods of 30 days, and an identifier above all others.
  ghost predicate StakeFor(r: Stake, rows: seq<Stake>, amount: int, v: nat, now: nat) {
    && r.amount == amount
    && 1000 * r.subsidy <= amount * (10 + v) < 1000 * (r.subsidy + 1)
    && r.unlock == (now + v * 30 * 24 * 60 * 60) % 0x1_0000_0000
    && forall other :: other in rows ==> other.id < r.id
  }

  // It moves the tokens, appends that one stake to the sender's, and raises the totals.
  lemma {:induction false} StakeBySending(cfg: Config, c: Chain, auth: bool, from: Name, quantity: Asset, v: nat, memoSize: nat, now: nat)
    requires from != cfg.self && from != cfg.tokenAcc && v < 65536 && Solvent(cfg, c)
    requires Step(cfg, c, Send(auth, from, cfg.self, quantity, Some(v), memoSize, now)).Some?
    ensures var c', rows := Step(cfg, c, Send(auth, from, cfg.self, quantity, Some(v), memoSize, now)).value, RowsOf(c.tables, from);
      && Some(c'.ledger) == Transferred(cfg.env, c.ledger, auth, from, cfg.self, quantity, memoSize)
      && c'.funded == c.funded && c'.tables.blacklist == c.tables.blacklist
      && c'.tables.rows == c.tables.rows[from := RowsOf(c'.tables, from)]
      && |RowsOf(c'.tables, from)| == |rows| + 1 && RowsOf(c'.tables, from)[..|rows|] == rows
      && StakeFor(RowsOf(c'.tables, from)[|rows|], rows, quantity.amount, v, now)
      && c.tables.globals.Some?
      && var g, subsidy := c.tables.globals.value, RowsOf(c'.tables, from)[|rows|].subsidy;
         c'.tables.globals == Some(Globals(g.currentlyStaked + quantity.amount, g.cumulativeStaked + quantity.amount, g.cumulativeSubsidy + subsidy))
  {
    hide Transferred, Solvent, Staked, StakeFor;
    RowsOkIn(cfg, c, from);
    assert v % TWO_16 == v;
    StakedRow(cfg, c.tables, from, quantity, v, now);
  }

  lemma {:induction false} RowsOkIn(cfg: Config, c: Chain, account: Name)
    requires Solvent(cfg, c)
    ensures RowsOk(RowsOf(c.tables, account))
  {
  }

  lemma {:induction false} StakedRow(cfg: Config, t: Tables, account: Name, quantity: Asset, v: nat, now: nat)
    requires RowsOk(RowsOf(t, account)) && Staked(cfg, t, account, quantity, v, now).Some?
    ensures var t', rows := Staked(cfg, t, account, quantity, v, now).value, RowsOf(t, account);
      && t'.blacklist == t.blacklist && t'.rows == t.rows[account := RowsOf(t', account)]
      && |RowsOf(t', account)| == |rows| + 1 && RowsOf(t', account)[..|rows|] == rows
      && StakeFor(RowsOf(t', account)[|rows|], rows, quantity.amount, v, now)
      && t.globals.Some?
      && var g, subsidy := t.globals.value, RowsOf(t', account)[|rows|].subsidy;
         t'.globals == Some(Globals(g.currentlyStaked + quantity.amount, g.cumulativeStaked + quantity.amount, g.cumulativeSubsidy + subsidy))
  {
    hide RowOk, IsValid;
    var rows := RowsOf(t, account);
    IdsBelow(rows);
    FloorDivision(quantity.amount * (10 + v));
  }

  lemma {:induction false} IdsBelow(rows: seq<Stake>)
    requires RowsOk(rows)
    ensures forall other :: other in rows ==> other.id < NextId(rows)
  {
    forall other | other in rows ensures other.id < NextId(rows) {
      var i :| 0 <= i < |rows| && rows[i] == other;
      assert i < |rows| - 1 ==> rows[i].id < rows[|rows| - 1].id;
    }
  }

  lemma {:induction false} FloorDivision(z: int)
    ensures 1000 * (z / 1000) <= z < 1000 * (z / 1000 + 1)
  {
  }

  // Other transfers stake nothing; what the funding account sends to the contract is funding.
  lemma {:induction false} OtherTransfers(cfg: Config, c: Chain, auth: bool, from: Name, to: Name, quantity: Asset, memo: Option<int>, memoSize: nat, now: nat)
    requires from == cfg.self || to != cfg.self || from == cfg.tokenAcc
    ensures Step(cfg, c, Send(auth, from, to, quantity, memo, memoSize, now)).Some? <==> Transferred(cfg.env, c.ledger, auth, from, to, quantity, memoSize).Some?
    ensures Step(cfg, c, Send(auth, from, to, quantity, memo, memoSize, now)).Some? ==>
      var c' := Step(cfg, c, Send(auth, from, to, quantity, memo, memoSize, now)).value;
      && Some(c'.ledger) == Transferred(cfg.env, c.ledger, auth, from, to, quantity, memoSize) && c'.tables == c.tables
      && c'.funded == c.funded + if from == cfg.tokenAcc && to == cfg.self && quantity.symbol.code == cfg.vtx.code then quantity.amount else 0
  {
    hide Transferred;
  }

  // Initialising creates the totals once, as zeros, and changes nothing else.
  lemma {:induction false} InitGlobalEffect(cfg: Config, c: Chain)
    ensures Step(cfg, c, InitGlobal).Some?
    ensures var c' := Step(cfg, c, InitGlobal).value;
      && c'.ledger == c.ledger && c'.funded == c.funded && c'.tables.rows == c.tables.rows && c'.tables.blacklist == c.tables.blacklist
      && c'.tables.globals == (if c.tables.globals.Some? then c.tables.globals else Some(Globals(0, 0, 0)))
      && Step(cfg, c', InitGlobal) == Some(c')
  {
  }

  // Issuing to an account does to the ledger what the token contract's issue does, and the
  // inline transfer stakes like any transfer from the issuer.
  lemma {:induction false} IssueMatches(cfg: Config, c: Chain, auth: bool, to: Name, quantity: Asset, memo: Option<int>, memoSize: nat, now: nat)
    requires Step(cfg, c, IssueTo(auth, to, quantity, memo, memoSize, now)).Some?
    ensures var c' := Step(cfg, c, IssueTo(auth, to, quantity, memo, memoSize, now)).value;
      && Token.Apply(cfg.env, c.ledger, Issue(auth, to, quantity, memoSize)) == Some(c'.ledger)
      && (to != cfg.self ==> c'.tables == c.tables && c'.funded == c.funded)
      && (to == cfg.self && quantity.symbol.code in c.ledger.stats && c.ledger.stats[quantity.symbol.code].issuer !in {cfg.self, cfg.tokenAcc} ==>
            Minted(cfg.env, c.ledger, auth, quantity, memoSize).Some?
            && var issuer := c.ledger.stats[quantity.symbol.code].issuer;
            Some(c') == Step(cfg, c.(ledger := Minted(cfg.env, c.ledger, auth, quantity, memoSize).value), Send(auth, issuer, to, quantity, memo, memoSize, now)))
  {
    hide Transferred, Minted, Staked;
  }

  // What the unlocked rows pay: each its amount with its subsidy.
  function PaidAt(rows: seq<Stake>, time: nat): int {
    if rows == [] then 0
    else
      var last := rows[|rows| - 1];
      PaidAt(rows[..|rows| - 1], time) + if last.unlock <= time then last.amount + last.subsidy else 0
  }

  lemma {:induction false} PayableIs(rows: seq<Stake>, time: nat)
    ensures Payable(rows, time) == PaidAt(rows, time)
    decreases |rows|
  {
    hide Payable;
    if rows == [] {
      NothingPayable(time);
    } else {
      PayableIs(rows[..|rows| - 1], time);
      PayableStep(rows, time);
    }
  }

  lemma {:induction false} NothingPayable(time: nat)
    ensures Payable([], time) == 0
  {
  }

  // An unstake pays the unlocked rows to the account, out of the contract's balance, keeps
  // the others, and touches nothing else.
  lemma {:induction false} UnstakePays(cfg: Config, c: Chain, auth: bool, account: Name, accepted: bool, now: nat)
    requires Step(cfg, c, Unstake(auth, account, accepted, now)).Some?
    ensures var c' := Step(cfg, c, Unstake(auth, account, accepted, now)).value;
      && auth && account !in c.tables.blacklist
      && c'.funded == c.funded && c'.tables.blacklist == c.tables.blacklist && c'.ledger.stats == c.ledger.stats
      && (forall other :: other != account ==> RowsOf(c'.tables, other) == RowsOf(c.tables, other))
      && (forall r :: r in RowsOf(c'.tables, account) <==> r in RowsOf(c.tables, account) && now < r.unlock)
      && (exists idx :: Embeds(RowsOf(c'.tables, account), RowsOf(c.tables, account), idx))
      && forall owner, code :: BalanceOf(c'.ledger, owner, code) == BalanceOf(c.ledger, owner, code)
           + if code != cfg.vtx.code then 0 else if owner == account then PaidAt(RowsOf(c.tables, account), now)
             else if owner == cfg.self then -PaidAt(RowsOf(c.tables, account), now) else 0
  {
    hide Transferred, Payable, Kept;
    var rows := RowsOf(c.tables, account);
    PayableIs(rows, now);
    KeptIsLocked(rows, now);
    var idx := KeptInOrder(rows, now);
    TransferMoves(cfg.env, c.ledger, accepted, cfg.self, account, Asset(Payable(rows, now), cfg.vtx), UNSTAKE_MEMO_SIZE);
  }

  // A banned account cannot unstake, until the ban is lifted; its stakes are kept.
  lemma {:induction false} BanEffect(cfg: Config, c: Chain, account: Name, other: Name, auth: bool, accepted: bool, now: nat)
    ensures Step(cfg, c, Ban(account)).Some? && Step(cfg, c, Unban(account)).Some?
    ensures var banned := Step(cfg, c, Ban(account)).value;
      && Step(cfg, banned, Unstake(auth, account, accepted, now)) == None
      && banned.tables.rows == c.tables.rows && banned.ledger == c.ledger
      && (account !in c.tables.blacklist ==> Step(cfg, banned, Unban(account)) == Some(c))
    ensures other != account ==> (other in Step(cfg, c, Ban(account)).value.tables.blacklist <==> other in c.tables.blacklist)
    ensures other != account ==> (other in Step(cfg, c, Unban(account)).value.tables.blacklist <==> other in c.tables.blacklist)
    ensures account !in Step(cfg, c, Unban(account)).value.tables.blacklist
  {
    hide Transferred, Payable, Kept;
    if account !in c.tables.blacklist {
      assert c.tables.blacklist + {account} - {account} == c.tables.blacklist;
    }
  }

  // The whole way: an account without stakes that stakes for v periods gets its tokens back
  // with the subsidy from the end of the periods on, and not before.
  lemma {:induction false} StakeComesBack(cfg: Config, c: Chain, from: Name, quantity: Asset, v: nat, memoSize: nat, now: nat, later: nat)
    requires Solvent(cfg, c) && c.funded >= MAX_STAKE / 51
    requires from != cfg.self && from != cfg.tokenAcc && cfg.env.isAccount(from) && from !in c.tables.blacklist
    requires RowsOf(c.tables, from) == [] && v < 65536 && now + v * 30 * 24 * 60 * 60 < 0x1_0000_0000
    requires Step(cfg, c, Send(true, from, cfg.self, quantity, Some(v), memoSize, now)).Some?
    ensures var c1 := Step(cfg, c, Send(true, from, cfg.self, quantity, Some(v), memoSize, now)).value;
      var c2 := Step(cfg, c1, Unstake(true, from, true, later));
      && (c2.Some? <==> later >= now + v * 30 * 24 * 60 * 60)
      && (c2.Some? ==>
            && |RowsOf(c1.tables, from)| == 1
            && BalanceOf(c2.value.ledger, from, cfg.vtx.code) == BalanceOf(c.ledger, from, cfg.vtx.code) + RowsOf(c1.tables, from)[0].subsidy
            && 1000 * RowsOf(c1.tables, from)[0].subsidy <= quantity.amount * (10 + v) < 1000 * (RowsOf(c1.tables, from)[0].subsidy + 1)
            && RowsOf(c2.value.tables, from) == [])
  {
    hide Transferred, Payable, Solvent, Step;
    var send := Send(true, from, cfg.self, quantity, Some(v), memoSize, now);
    var c1 := Step(cfg, c, send).value;
    StakeBySending(cfg, c, true, from, quantity, v, memoSize, now);
    StepKeepsSolvent(cfg, c, send);
    UnstakeIff(cfg, c1, from, later);
    VtxSent(cfg, c, from, quantity, memoSize, v, now);
    TransferMoves(cfg.env, c.ledger, true, from, cfg.self, quantity, memoSize);
    var rows := RowsOf(c1.tables, from);
    assert rows == [rows[0]];
    OnePaid(rows[0], later);
    if Step(cfg, c1, Unstake(true, from, true, later)).Some? {
      UnstakePays(cfg, c1, true, from, true, later);
      if RowsOf(Step(cfg, c1, Unstake(true, from, true, later)).value.tables, from) != [] {
        HasRow(RowsOf(Step(cfg, c1, Unstake(true, from, true, later)).value.tables, from));
      }
    }
  }

  lemma {:induction false} UnstakeIff(cfg: Config, c: Chain, account: Name, now: nat)
    requires Solvent(cfg, c) && c.funded >= MAX_STAKE / 51 && account != cfg.self && cfg.env.isAccount(account)
    ensures Step(cfg, c, Unstake(true, account, true, now)).Some? <==>
      account !in c.tables.blacklist && exists r :: r in RowsOf(c.tables, account) && r.unlock <= now
  {
    hide Withdrawn, Solvent;
    UnstakeSucceedsIff(cfg, c, true, account, true, now);
  }

  lemma {:induction false} VtxSent(cfg: Config, c: Chain, from: Name, quantity: Asset, memoSize: nat, v: nat, now: nat)
    requires from != cfg.self && from != cfg.tokenAcc
    requires Step(cfg, c, Send(true, from, cfg.self, quantity, Some(v), memoSize, now)).Some?
    ensures quantity.symbol == cfg.vtx && Transferred(cfg.env, c.ledger, true, from, cfg.self, quantity, memoSize).Some?
  {
    hide Transferred;
  }

  lemma {:induction false} OnePaid(r: Stake, time: nat)
    ensures PaidAt([r], time) == if r.unlock <= time then r.amount + r.subsidy else 0
    ensures forall other :: other in [r] ==> other == r
  {
    assert [r][..0] == [];
  }

  lemma {:induction false} HasRow(rows: seq<Stake>)
    requires rows != []
    ensures exists r :: r in rows
  {
    assert rows[0] in rows;
  }

  // In between, whatever anybody does, the stake stays until its own account unstakes at or
  // after its unlock time.
  lemma {:induction false} StakeStays(cfg: Config, start: Chain, actions: seq<Action>, account: Name, r: Stake)
    requires r in RowsOf(start.tables, account)
    requires forall i :: 0 <= i < |actions| && actions[i].Unstake? && actions[i].account == account ==> actions[i].now < r.unlock
    ensures r in RowsOf(Run(cfg, start, actions).tables, account)
    decreases |actions|
  {
    hide Step;
    if actions != [] {
      var front, a := actions[..|actions| - 1], actions[|actions| - 1];
      StakeStays(cfg, start, front, account, r);
      if Step(cfg, Run(cfg, start, front), a).Some? { RowStays(cfg, Run(cfg, start, front), a, account, r); }
    }
  }

  lemma {:induction false} RowStays(cfg: Config, c: Chain, a: Action, account: Name, r: Stake)
    requires r in RowsOf(c.tables, account) && Step(cfg, c, a).Some?
    requires a.Unstake? && a.account == account ==> a.now < r.unlock
    ensures r in RowsOf(Step(cfg, c, a).value.tables, account)
  {
    hide Transferred, Minted, Payable, Kept, Token.Apply, QuantityOk, Subsidy;
    if a.Unstake? {
      KeptIsLocked(RowsOf(c.tables, a.account), a.now);
    }
  }

  // --- the contract, updating its tables in place ---------------------------------------

  class Contract {
    var rows: map<Name, seq<Stake>>
    var globals: Option<Globals>
    var blacklist: set<Name>
    const cfg: Config

    constructor (cfg: Config)
      ensures Now() == Tables(map[], None, {}) && this.cfg == cfg
    {
      rows, globals, blacklist, this.cfg := map[], None, {}, cfg;
    }

    function Now(): Tables
      reads this
    {
      Tables(rows, globals, blacklist)
    }

    method OnTransfer(from: Name, to: Name, quantity: Asset, memo: Option<int>, now: nat) returns (ok: bool)
      modifies this
      ensures ok == Notified(cfg, old(Now()), from, to, quantity, memo, now).Some?
      ensures Now() == if ok then Notified(cfg, old(Now()), from, to, quantity, memo, now).value else old(Now())
    {
      if from == cfg.self || to != cfg.self || from == cfg.tokenAcc {
        return true;
      }
      if memo.None? {
        return false;
      }
      ok := AddStake(from, quantity, memo.value % TWO_16, now);
    }

    // Emplaces the row first, then checks the global limit; a failed check rolls back.
    method AddStake(account: Name, quantity: Asset, periods: nat, now: nat) returns (ok: bool)
      modifies this
      ensures ok == Staked(cfg, old(Now()), account, quantity, periods, now).Some?
      ensures Now() == if ok then Staked(cfg, old(Now()), account, quantity, periods, now).value else old(Now())
    {
      if !QuantityOk(cfg, quantity) || periods > MAX_PERIODS {
        return false;
      }
      var subsidy, saved := Subsidy(quantity.amount, periods), rows;
      var table := if account in rows then rows[account] else [];
      rows := rows[account := table + [Stake(NextId(table), quantity.amount, subsidy, (now + periods * STAKE_PERIOD) % TWO_32)]];
      ok := UpdateGlobals(quantity.amount, subsidy, false);
      if !ok {
        rows := saved;
      }
    }

    method UpdateGlobals(amount: int, subsidy: int, unstake: bool) returns (ok: bool)
      modifies this`globals
      ensures ok == (old(globals).Some? && (unstake ||
        old(globals).value.cumulativeStaked + old(globals).value.cumulativeSubsidy + amount + subsidy <= MAX_STAKE))
      ensures !ok ==> globals == old(globals)
      ensures ok ==> old(globals).Some? && globals == Some(
        if unstake then old(globals).value.(currentlyStaked := old(globals).value.currentlyStaked - amount)
        else Globals(old(globals).value.currentlyStaked + amount, old(globals).value.cumulativeStaked + amount, old(globals).value.cumulativeSubsidy + subsidy))
    {
      if globals.None? {
        return false;
      }
      var g := globals.value;
      if unstake {
        globals := Some(g.(currentlyStaked := g.currentlyStaked - amount));
      } else {
        if g.cumulativeStaked + g.cumulativeSubsidy + amount + subsidy > MAX_STAKE {
          return false;
        }
        globals := Some(Globals(g.currentlyStaked + amount, g.cumulativeStaked + amount, g.cumulativeSubsidy + subsidy));
      }
      ok := true;
    }

    // Walks the rows, erasing the unlocked ones and adding up what they pay.
    method Sweep(all: seq<Stake>, time: nat) returns (ok: bool, table: seq<Stake>, sum: int)
      modifies this`globals
      ensures ok == (Kept(all, time) == all || old(globals).Some?)
      ensures ok ==> table == Kept(all, time) && sum == Payable(all, time)
      ensures ok ==> globals == Reduced(old(globals), Kept(all, time) != all, Released(all, time))
    {
      hide Kept, Payable, Released, Reduced, Swept;
      SweepStart(all, time, globals);
      var itr := 0;
      ghost var k := 0;
      table, sum := all, 0;
      while itr < |table|
        invariant k <= |all| && Swept(all, k, time, itr, table, sum, old(globals), globals)
        decreases |all| - k
      {
        SweepRow(all, k, time, itr, table, sum, old(globals), globals);
        if time < table[itr].unlock {
          itr := itr + 1;
        } else {
          sum := sum + table[itr].amount + table[itr].subsidy;
          ok := UpdateGlobals(table[itr].amount, table[itr].subsidy, true);
          if !ok {
            UnlockedLater(all, k, time);
            return false, [], 0;
          }
          table := table[..itr] + table[itr + 1..];
        }
        k := k + 1;
      }
      SweepEnd(all, k, time, itr, table, sum, old(globals), globals);
      ok := true;
    }

    method UnstakeUnlocked(account: Name, time: nat) returns (ok: bool, toTransfer: int)
      modifies this
      ensures ok == Unstaked(old(Now()), account, time).Some?
      ensures Now() == if ok then Unstaked(old(Now()), account, time).value else old(Now())
      ensures ok ==> toTransfer == Payable(RowsOf(old(Now()), account), time)
    {
      if account in blacklist {
        return false, 0;
      }
      var saved := globals;
      var all := if account in rows then rows[account] else [];
      var table;
      ok, table, toTransfer := Sweep(all, time);
      if !ok {
        globals := saved;
      } else if table != all {
        rows := rows[account := table];
      }
    }

    method GetStakedAmount(account: Name) returns (staked: int)
      ensures staked == AmountOf(RowsOf(Now(), account))
    {
      staked := 0;
      var table := if account in rows then rows[account] else [];
      for i := 0 to |table|
        invariant staked == AmountOf(table[..i])
      {
        assert table[..i + 1][..i] == table[..i];
        staked := staked + table[i].amount;
      }
      assert table[..|table|] == table;
    }
  }

  // The globals after releasing an amount, if anything was released.
  function Reduced(g: Option<Globals>, found: bool, released: int): Option<Globals> {
    if !found || g.None? then g else Some(g.value.(currentlyStaked := g.value.currentlyStaked - released))
  }

  // The state of the walk before the row at k: the locked rows so far, then the rest; what
  // is to be paid so far; and the globals, reduced by what was released so far.
  ghost predicate Swept(all: seq<Stake>, k: nat, time: nat, itr: int, table: seq<Stake>, sum: int, before: Option<Globals>, now: Option<Globals>)
    requires k <= |all|
  {
    && itr == |Kept(all[..k], time)|
    && table == Kept(all[..k], time) + all[k..]
    && sum == Payable(all[..k], time)
    && (Kept(all[..k], time) != all[..k] ==> before.Some?)
    && now == Reduced(before, Kept(all[..k], time) != all[..k], Released(all[..k], time))
  }

  lemma {:induction false} SweepStart(all: seq<Stake>, time: nat, g: Option<Globals>)
    ensures Swept(all, 0, time, 0, all, 0, g, g)
  {
    assert all[..0] == [] && [] + all == all;
  }

  lemma {:induction false} SweepRow(all: seq<Stake>, k: nat, time: nat, itr: int, table: seq<Stake>, sum: int, before: Option<Globals>, now: Option<Globals>)
    requires k <= |all| && Swept(all, k, time, itr, table, sum, before, now) && itr < |table|
    ensures 0 <= itr && k < |all| && table[itr] == all[k] && (now.Some? <==> before.Some?)
    ensures time < all[k].unlock ==> Swept(all, k + 1, time, itr + 1, table, sum, before, now)
    ensures all[k].unlock <= time && now.Some? ==>
      Swept(all, k + 1, time, itr, table[..itr] + table[itr + 1..], sum + all[k].amount + all[k].subsidy, before,
            Some(now.value.(currentlyStaked := now.value.currentlyStaked - all[k].amount)))
  {
    hide Kept, Payable, Released;
    AtIterator(Kept(all[..k], time), all, k);
    OneRow(all, k, time);
  }

  lemma {:induction false} SweepEnd(all: seq<Stake>, k: nat, time: nat, itr: int, table: seq<Stake>, sum: int, before: Option<Globals>, now: Option<Globals>)
    requires k <= |all| && Swept(all, k, time, itr, table, sum, before, now) && itr >= |table|
    ensures table == Kept(all, time) && sum == Payable(all, time)
    ensures Kept(all, time) == all || before.Some?
    ensures now == Reduced(before, Kept(all, time) != all, Released(all, time))
  {
    assert all[..|all|] == all;
  }

  // The row at the iterator, and the table without it.
  lemma {:induction false} AtIterator(keep: seq<Stake>, all: seq<Stake>, k: nat)
    requires k <= |all| && |keep| < |keep + all[k..]|
    ensures k < |all| && (keep + all[k..])[|keep|] == all[k]
    ensures (keep + all[k..])[..|keep|] + (keep + all[k..])[|keep| + 1..] == keep + all[k + 1..]
    ensures keep + all[k..] == (keep + [all[k]]) + all[k + 1..]
    ensures keep + [] == keep
  {
  }

  // What the loop does with the row at k.
  lemma {:induction false} OneRow(all: seq<Stake>, k: nat, time: nat)
    requires k < |all|
    ensures Kept(all[..k + 1], time) == Kept(all[..k], time) + if time < all[k].unlock then [all[k]] else []
    ensures Payable(all[..k + 1], time) == Payable(all[..k], time) + if time < all[k].unlock then 0 else all[k].amount + all[k].subsidy
    ensures Released(all[..k + 1], time) == Released(all[..k], time) + if time < all[k].unlock then 0 else all[k].amount
    ensures Kept(all[..k], time) == all[..k] ==> Released(all[..k], time) == 0
    ensures Kept(all[..k + 1], time) == all[..k + 1] <==> Kept(all[..k], time) == all[..k] && time < all[k].unlock
  {
    assert all[..k + 1][..k] == all[..k];
    assert all[..k + 1] == all[..k] + [all[k]];
    assert Kept(all[..k + 1], time) == Kept(all[..k], time) + if time < all[k].unlock then [all[k]] else [];
    assert Kept(all[..k], time) + [] == Kept(all[..k], time);
    AppendRow(all[..k], all[k]);
    AppendRow(Kept(all[..k], time), all[k]);
    KeptShorter(all[..k], time);
  }

  // One unlocked row is enough for the kept rows to differ.
  lemma {:induction false} UnlockedLater(all: seq<Stake>, k: nat, time: nat)
    requires k < |all| && all[k].unlock <= time
    ensures Kept(all, time) != all
  {
    KeptIsLocked(all, time);
    assert all[k] in all;
  }

  // --- actions across both contracts ----------------------------------------------------

  // A user's transfer with the staking contract's handler; either failure undoes both.
  method SendTokens(token: Token.Contract, staking: Contract, auth: bool, from: Name, to: Name, quantity: Asset, memo: Option<int>, memoSize: nat, now: nat)
    returns (ok: bool)
    requires token.env == staking.cfg.env
    modifies token, staking
    ensures var after := Sent(staking.cfg, Chain(old(token.Now()), old(staking.Now()), 0), auth, from, to, quantity, memo, memoSize, now);
      && ok == after.Some?
      && token.Now() == (if ok then after.value.ledger else old(token.Now()))
      && staking.Now() == (if ok then after.value.tables else old(staking.Now()))
  {
    var saved := token.balances;
    ok := token.DoTransfer(auth, from, to, quantity, memoSize);
    if ok {
      ok := staking.OnTransfer(from, to, quantity, memo, now);
      if !ok {
        token.balances := saved;
      }
    }
  }

  // Unstaking with its inline transfer; a failed transfer restores the stakes.
  method UnstakeTokens(token: Token.Contract, staking: Contract, auth: bool, account: Name, accepted: bool, now: nat) returns (ok: bool)
    requires token.env == staking.cfg.env
    modifies token, staking
    ensures var after := Withdrawn(staking.cfg, Chain(old(token.Now()), old(staking.Now()), 0), auth, account, accepted, now);
      && ok == after.Some?
      && token.Now() == (if ok then after.value.ledger else old(token.Now()))
      && staking.Now() == (if ok then after.value.tables else old(staking.Now()))
  {
    if !auth {
      return false;
    }
    var rows, globals, toTransfer := staking.rows, staking.globals, 0;
    ok, toTransfer := staking.UnstakeUnlocked(account, now);
    if ok {
      ok := token.DoTransfer(accepted, staking.cfg.self, account, Asset(toTransfer, staking.cfg.vtx), UNSTAKE_MEMO_SIZE);
      if !ok {
        staking.rows, staking.globals := rows, globals;
      }
    }
  }
}
