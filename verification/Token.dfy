// The token contract: supply and balances, updated in place; an action that fails a check
// changes nothing.
module Token {
  import opened Results
  import opened MapSum

  type Name = nat

  datatype Symbol = Symbol(code: nat, precision: nat)

  datatype Asset = Asset(amount: int, symbol: Symbol)

  // A row of the stat table of a symbol code.
  datatype Stat = Stat(supply: Asset, maxSupply: Asset, issuer: Name)

  datatype Ledger = Ledger(stats: map<nat, Stat>, balances: map<(Name, nat), Asset>)

  // Which symbols are well formed and which accounts exist.
  datatype Env = Env(validSymbol: Symbol -> bool, isAccount: Name -> bool)

  const MAX_AMOUNT: int := 0x3FFF_FFFF_FFFF_FFFF
  const MAX_MEMO: nat := 256

  predicate InRange(amount: int) { -MAX_AMOUNT <= amount <= MAX_AMOUNT }

  predicate IsValid(env: Env, a: Asset) { InRange(a.amount) && env.validSymbol(a.symbol) }

  // Adding or subtracting assets aborts on different symbols and on overflow.
  function Plus(a: Asset, b: Asset): Option<Asset> {
    if a.symbol == b.symbol && InRange(a.amount + b.amount) then Some(Asset(a.amount + b.amount, a.symbol)) else None
  }

  function Minus(a: Asset, b: Asset): Option<Asset> {
    if a.symbol == b.symbol && InRange(a.amount - b.amount) then Some(Asset(a.amount - b.amount, a.symbol)) else None
  }

  // --- the actions as functions ----------------------------------------------------------

  function Created(env: Env, l: Ledger, auth: bool, issuer: Name, maximum: Asset): Option<Ledger> {
    if !auth || !IsValid(env, maximum) || maximum.amount <= 0 || maximum.symbol.code in l.stats then None
    else Some(l.(stats := l.stats[maximum.symbol.code := Stat(Asset(0, maximum.symbol), maximum, issuer)]))
  }

  function WithoutBalance(l: Ledger, owner: Name, value: Asset): Option<Ledger> {
    var key := (owner, value.symbol.code);
    if key !in l.balances || l.balances[key].amount < value.amount then None
    else
      var rest :- Minus(l.balances[key], value);
      Some(l.(balances := l.balances[key := rest]))
  }

  function WithBalance(l: Ledger, owner: Name, value: Asset): Option<Ledger> {
    var key := (owner, value.symbol.code);
    var sum :- if key in l.balances then Plus(l.balances[key], value) else Some(value);
    Some(l.(balances := l.balances[key := sum]))
  }

  predicate MayMove(env: Env, l: Ledger, quantity: Asset, memoSize: nat) {
    && quantity.symbol.code in l.stats
    && IsValid(env, quantity) && quantity.amount > 0
    && quantity.symbol == l.stats[quantity.symbol.code].supply.symbol
    && memoSize <= MAX_MEMO
  }

  function Transferred(env: Env, l: Ledger, auth: bool, from: Name, to: Name, quantity: Asset, memoSize: nat): Option<Ledger> {
    if !auth || from == to || !env.isAccount(to) || !MayMove(env, l, quantity, memoSize) then None
    else
      var l' :- WithoutBalance(l, from, quantity);
      WithBalance(l', to, quantity)
  }

  // The first half of issuing: supply and the issuer's balance grow.
  function Minted(env: Env, l: Ledger, auth: bool, quantity: Asset, memoSize: nat): Option<Ledger> {
    if !MayMove(env, l, quantity, memoSize) || !auth then None
    else
      var st := l.stats[quantity.symbol.code];
      if quantity.amount > st.maxSupply.amount - st.supply.amount then None
      else
        var supply :- Plus(st.supply, quantity);
        WithBalance(l.(stats := l.stats[quantity.symbol.code := st.(supply := supply)]), st.issuer, quantity)
  }

  function Issued(env: Env, l: Ledger, auth: bool, to: Name, quantity: Asset, memoSize: nat): Option<Ledger> {
    var l' :- Minted(env, l, auth, quantity, memoSize);
    var issuer := l.stats[quantity.symbol.code].issuer;
    if to == issuer then Some(l') else Transferred(env, l', auth, issuer, to, quantity, memoSize)
  }

  function Retired(env: Env, l: Ledger, auth: bool, quantity: Asset, memoSize: nat): Option<Ledger> {
    if !MayMove(env, l, quantity, memoSize) || !auth then None
    else
      var st := l.stats[quantity.symbol.code];
      var supply :- Minus(st.supply, quantity);
      WithoutBalance(l.(stats := l.stats[quantity.symbol.code := st.(supply := supply)]), st.issuer, quantity)
  }

  function Opened(l: Ledger, auth: bool, owner: Name, symbol: Symbol): Option<Ledger> {
    if !auth || symbol.code !in l.stats || l.stats[symbol.code].supply.symbol != symbol then None
    else if (owner, symbol.code) in l.balances then Some(l)
    else Some(l.(balances := l.balances[(owner, symbol.code) := Asset(0, symbol)]))
  }

  function Closed(l: Ledger, auth: bool, owner: Name, symbol: Symbol): Option<Ledger> {
    var key := (owner, symbol.code);
    if !auth || key !in l.balances || l.balances[key].amount != 0 then None
    else Some(l.(balances := l.balances - {key}))
  }

  datatype Action =
    | Create(auth: bool, issuer: Name, maximum: Asset)
    | Issue(auth: bool, to: Name, quantity: Asset, memoSize: nat)
    | Retire(auth: bool, quantity: Asset, memoSize: nat)
    | Transfer(auth: bool, from: Name, to: Name, quantity: Asset, memoSize: nat)
    | Open(auth: bool, owner: Name, symbol: Symbol)
    | Close(auth: bool, owner: Name, symbol: Symbol)

  function Apply(env: Env, l: Ledger, a: Action): Option<Ledger> {
    match a
    case Create(auth, issuer, maximum) => Created(env, l, auth, issuer, maximum)
    case Issue(auth, to, quantity, memoSize) => Issued(env, l, auth, to, quantity, memoSize)
    case Retire(auth, quantity, memoSize) => Retired(env, l, auth, quantity, memoSize)
    case Transfer(auth, from, to, quantity, memoSize) => Transferred(env, l, auth, from, to, quantity, memoSize)
    case Open(auth, owner, symbol) => Opened(l, auth, owner, symbol)
    case Close(auth, owner, symbol) => Closed(l, auth, owner, symbol)
  }

  function Run(env: Env, actions: seq<Action>): Ledger
    decreases |actions|
  {
    if actions == [] then Ledger(map[], map[])
    else
      var l := Run(env, actions[..|actions| - 1]);
      match Apply(env, l, actions[|actions| - 1]) case Some(l') => l' case None => l
  }

  // --- conservation ---------------------------------------------------------------------

  // What a balance row holds of a symbol code.
  function HeldIn(code: nat): ((Name, nat), Asset) -> real {
    (key: (Name, nat), a: Asset) => if key.1 == code then a.amount as real else 0.0
  }

  ghost predicate StatOk(l: Ledger, code: nat)
    requires code in l.stats
  {
    var st := l.stats[code];
    && st.supply.symbol == st.maxSupply.symbol && st.supply.symbol.code == code
    && 0 <= st.supply.amount <= st.maxSupply.amount <= MAX_AMOUNT
    && st.supply.amount as real == Total(l.balances, HeldIn(code))
  }

  ghost predicate BalanceOk(l: Ledger, key: (Name, nat))
    requires key in l.balances
  {
    && key.1 in l.stats && l.balances[key].symbol == l.stats[key.1].supply.symbol
    && 0 <= l.balances[key].amount
  }

  // Per symbol the supply is the sum of all balances, balances are not negative, and the
  // supply is within its maximum.
  ghost predicate Conserved(l: Ledger) {
    && (forall code :: code in l.stats ==> StatOk(l, code))
    && (forall key :: key in l.balances ==> BalanceOk(l, key))
  }

  // Then every balance is at most the supply: no amount leaves the 64-bit range.
  lemma {:induction false} BalanceWithinSupply(l: Ledger, key: (Name, nat))
    requires Conserved(l) && key in l.balances
    ensures key.1 in l.stats && 0 <= l.balances[key].amount <= l.stats[key.1].supply.amount <= MAX_AMOUNT
  {
    assert BalanceOk(l, key) && StatOk(l, key.1);
    forall k | k in l.balances ensures HeldIn(key.1)(k, l.balances[k]) >= 0.0 {
      assert BalanceOk(l, k);
    }
    TotalBounds(l.balances, HeldIn(key.1));
    assert HeldIn(key.1)(key, l.balances[key]) <= Total(l.balances, HeldIn(key.1));
  }

  lemma {:induction false} TwoWithinSupply(l: Ledger, a: (Name, nat), b: (Name, nat))
    requires Conserved(l) && a in l.balances && b in l.balances && a != b && a.1 == b.1
    ensures l.balances[a].amount + l.balances[b].amount <= MAX_AMOUNT
  {
    assert BalanceOk(l, a) && StatOk(l, a.1);
    var w := HeldIn(a.1);
    Pick(l.balances, w, a);
    forall k | k in l.balances - {a} ensures w(k, (l.balances - {a})[k]) >= 0.0 {
      assert BalanceOk(l, k);
    }
    TotalBounds(l.balances - {a}, w);
    assert w(b, (l.balances - {a})[b]) <= Total(l.balances - {a}, w);
  }

  // Setting one row changes the row's symbol sum by the difference, and no other sum.
  lemma {:induction false} SetRow(balances: map<(Name, nat), Asset>, key: (Name, nat), a: Asset, code: nat)
    ensures Total(balances[key := a], HeldIn(code)) == Total(balances, HeldIn(code))
      + (if key.1 == code then (a.amount - (if key in balances then balances[key].amount else 0)) as real else 0.0)
  {
    Update(balances, HeldIn(code), key, a);
  }

  // When a transfer succeeds: exactly under the checks; the sums never overflow.
  lemma {:induction false} TransferSucceeds(env: Env, l: Ledger, auth: bool, from: Name, to: Name, quantity: Asset, memoSize: nat)
    requires Conserved(l)
    ensures Transferred(env, l, auth, from, to, quantity, memoSize).Some? <==>
      && auth && from != to && env.isAccount(to)
      && quantity.symbol.code in l.stats && quantity.symbol == l.stats[quantity.symbol.code].supply.symbol
      && env.validSymbol(quantity.symbol) && 0 < quantity.amount <= 0x3FFF_FFFF_FFFF_FFFF && memoSize <= 256
      && (from, quantity.symbol.code) in l.balances && l.balances[(from, quantity.symbol.code)].amount >= quantity.amount
  {
    var a, b := (from, quantity.symbol.code), (to, quantity.symbol.code);
    if a in l.balances {
      assert BalanceOk(l, a);
      BalanceWithinSupply(l, a);
      if b in l.balances {
        assert BalanceOk(l, b);
        if a != b { TwoWithinSupply(l, a, b); }
      }
    }
  }

  lemma {:induction false} TransferConserves(env: Env, l: Ledger, auth: bool, from: Name, to: Name, quantity: Asset, memoSize: nat)
    requires Conserved(l) && Transferred(env, l, auth, from, to, quantity, memoSize).Some?
    ensures Conserved(Transferred(env, l, auth, from, to, quantity, memoSize).value)
  {
    var l' := Transferred(env, l, auth, from, to, quantity, memoSize).value;
    var a, b := (from, quantity.symbol.code), (to, quantity.symbol.code);
    assert BalanceOk(l, a);
    var l1 := WithoutBalance(l, from, quantity).value;
    forall code | code in l'.stats ensures StatOk(l', code) {
      assert StatOk(l, code);
      SetRow(l.balances, a, l1.balances[a], code);
      SetRow(l1.balances, b, l'.balances[b], code);
    }
    forall key | key in l'.balances ensures BalanceOk(l', key) {
      if key != b { assert BalanceOk(l, key); } else if b in l.balances { assert BalanceOk(l, b); }
    }
  }

  // What an account holds of a symbol code; a missing row counts as nothing.
  function BalanceOf(l: Ledger, owner: Name, code: nat): int {
    if (owner, code) in l.balances then l.balances[(owner, code)].amount else 0
  }

  ghost predicate SameBalances(a: Ledger, b: Ledger) {
    a.stats == b.stats && forall owner, code :: BalanceOf(a, owner, code) == BalanceOf(b, owner, code)
  }

  // A transfer moves the quantity and nothing else ...
  lemma {:induction false} TransferMoves(env: Env, l: Ledger, auth: bool, from: Name, to: Name, quantity: Asset, memoSize: nat)
    requires Transferred(env, l, auth, from, to, quantity, memoSize).Some?
    ensures var l' := Transferred(env, l, auth, from, to, quantity, memoSize).value;
      && l'.stats == l.stats
      && forall owner, code :: BalanceOf(l', owner, code) == BalanceOf(l, owner, code)
           + if code != quantity.symbol.code then 0 else if owner == to then quantity.amount else if owner == from then -quantity.amount else 0
  {
    hide MayMove, InRange;
  }

  // ... and sending it back undoes it.
  lemma {:induction false} TransferBack(env: Env, l: Ledger, from: Name, to: Name, quantity: Asset, memoSize: nat)
    requires Conserved(l) && Transferred(env, l, true, from, to, quantity, memoSize).Some? && env.isAccount(from)
    ensures var l' := Transferred(env, l, true, from, to, quantity, memoSize).value;
      && Transferred(env, l', true, to, from, quantity, memoSize).Some?
      && SameBalances(Transferred(env, l', true, to, from, quantity, memoSize).value, l)
  {
    hide Transferred, Conserved, IsValid;
    var l' := Transferred(env, l, true, from, to, quantity, memoSize).value;
    TransferSucceeds(env, l, true, from, to, quantity, memoSize);
    TransferConserves(env, l, true, from, to, quantity, memoSize);
    TransferMoves(env, l, true, from, to, quantity, memoSize);
    BalanceNonNegative(l, to, quantity.symbol.code);
    assert BalanceOf(l', to, quantity.symbol.code) >= quantity.amount;
    TransferSucceeds(env, l', true, to, from, quantity, memoSize);
    TransferMoves(env, l', true, to, from, quantity, memoSize);
  }

  lemma {:induction false} BalanceNonNegative(l: Ledger, owner: Name, code: nat)
    requires Conserved(l)
    ensures BalanceOf(l, owner, code) >= 0
  {
    if (owner, code) in l.balances { assert BalanceOk(l, (owner, code)); }
  }

  lemma {:induction false} MintConserves(env: Env, l: Ledger, auth: bool, quantity: Asset, memoSize: nat)
    requires Conserved(l) && Minted(env, l, auth, quantity, memoSize).Some?
    ensures Conserved(Minted(env, l, auth, quantity, memoSize).value)
  {
    var l' := Minted(env, l, auth, quantity, memoSize).value;
    var st := l.stats[quantity.symbol.code];
    var a := (st.issuer, quantity.symbol.code);
    assert StatOk(l, quantity.symbol.code);
    forall code | code in l'.stats ensures StatOk(l', code) {
      assert StatOk(l, code);
      SetRow(l.balances, a, l'.balances[a], code);
    }
    forall key | key in l'.balances ensures BalanceOk(l', key) {
      if key in l.balances { assert BalanceOk(l, key); }
    }
  }

  lemma {:induction false} RetireConserves(env: Env, l: Ledger, auth: bool, quantity: Asset, memoSize: nat)
    requires Conserved(l) && Retired(env, l, auth, quantity, memoSize).Some?
    ensures Conserved(Retired(env, l, auth, quantity, memoSize).value)
  {
    var l' := Retired(env, l, auth, quantity, memoSize).value;
    var st := l.stats[quantity.symbol.code];
    var a := (st.issuer, quantity.symbol.code);
    assert StatOk(l, quantity.symbol.code) && BalanceOk(l, a);
    BalanceWithinSupply(l, a);
    forall code | code in l'.stats ensures StatOk(l', code) {
      assert StatOk(l, code);
      SetRow(l.balances, a, l'.balances[a], code);
    }
    forall key | key in l'.balances ensures BalanceOk(l', key) {
      assert BalanceOk(l, key);
    }
  }

  // Issuing succeeds exactly under the checks, when the quantity is still to be had and the
  // recipient exists: neither the supply nor a balance overflows.
  lemma {:induction false} IssueSucceeds(env: Env, l: Ledger, auth: bool, to: Name, quantity: Asset, memoSize: nat)
    requires Conserved(l)
    ensures Issued(env, l, auth, to, quantity, memoSize).Some? <==>
      && auth && quantity.symbol.code in l.stats && quantity.symbol == l.stats[quantity.symbol.code].supply.symbol
      && env.validSymbol(quantity.symbol) && 0 < quantity.amount <= 0x3FFF_FFFF_FFFF_FFFF && memoSize <= 256
      && quantity.amount <= l.stats[quantity.symbol.code].maxSupply.amount - l.stats[quantity.symbol.code].supply.amount
      && (to == l.stats[quantity.symbol.code].issuer || env.isAccount(to))
  {
    hide Minted, Transferred, Conserved, IsValid;
    MintSucceeds(env, l, auth, quantity, memoSize);
    if Minted(env, l, auth, quantity, memoSize).Some? {
      var l', c := Minted(env, l, auth, quantity, memoSize).value, quantity.symbol.code;
      MintConserves(env, l, auth, quantity, memoSize);
      MintAdds(env, l, auth, quantity, memoSize);
      BalanceNonNegative(l, l.stats[c].issuer, c);
      TransferSucceeds(env, l', auth, l.stats[c].issuer, to, quantity, memoSize);
    }
  }

  lemma {:induction false} MintSucceeds(env: Env, l: Ledger, auth: bool, quantity: Asset, memoSize: nat)
    requires Conserved(l)
    ensures Minted(env, l, auth, quantity, memoSize).Some? <==>
      && auth && quantity.symbol.code in l.stats && quantity.symbol == l.stats[quantity.symbol.code].supply.symbol
      && env.validSymbol(quantity.symbol) && 0 < quantity.amount <= 0x3FFF_FFFF_FFFF_FFFF && memoSize <= 256
      && quantity.amount <= l.stats[quantity.symbol.code].maxSupply.amount - l.stats[quantity.symbol.code].supply.amount
  {
    var c := quantity.symbol.code;
    if MayMove(env, l, quantity, memoSize) {
      assert StatOk(l, c);
      var key := (l.stats[c].issuer, c);
      if key in l.balances {
        assert BalanceOk(l, key);
        BalanceWithinSupply(l, key);
      }
    }
  }

  // Retiring succeeds exactly under the checks and when the issuer holds the quantity.
  lemma {:induction false} RetireSucceeds(env: Env, l: Ledger, auth: bool, quantity: Asset, memoSize: nat)
    requires Conserved(l)
    ensures Retired(env, l, auth, quantity, memoSize).Some? <==>
      && auth && quantity.symbol.code in l.stats && quantity.symbol == l.stats[quantity.symbol.code].supply.symbol
      && env.validSymbol(quantity.symbol) && 0 < quantity.amount <= 0x3FFF_FFFF_FFFF_FFFF && memoSize <= 256
      && (l.stats[quantity.symbol.code].issuer, quantity.symbol.code) in l.balances
      && l.balances[(l.stats[quantity.symbol.code].issuer, quantity.symbol.code)].amount >= quantity.amount
  {
    var c := quantity.symbol.code;
    if MayMove(env, l, quantity, memoSize) {
      assert StatOk(l, c);
      var key := (l.stats[c].issuer, c);
      if key in l.balances {
        assert BalanceOk(l, key);
        BalanceWithinSupply(l, key);
      }
    }
  }

  // Retiring what was just issued to the issuer restores supply and balances.
  lemma {:induction false} RetireUndoesIssue(env: Env, l: Ledger, quantity: Asset, memoSize: nat)
    requires Conserved(l) && quantity.symbol.code in l.stats
    requires Issued(env, l, true, l.stats[quantity.symbol.code].issuer, quantity, memoSize).Some?
    ensures var l' := Issued(env, l, true, l.stats[quantity.symbol.code].issuer, quantity, memoSize).value;
      && Retired(env, l', true, quantity, memoSize).Some?
      && SameBalances(Retired(env, l', true, quantity, memoSize).value, l)
  {
    hide Minted, Retired, Conserved, IsValid;
    var c := quantity.symbol.code;
    var l' := Issued(env, l, true, l.stats[c].issuer, quantity, memoSize).value;
    SupplySymbol(l, c);
    IssueSucceeds(env, l, true, l.stats[c].issuer, quantity, memoSize);
    BalanceNonNegative(l, l.stats[c].issuer, c);
    MintConserves(env, l, true, quantity, memoSize);
    MintAdds(env, l, true, quantity, memoSize);
    RetireSucceeds(env, l', true, quantity, memoSize);
    RetireTakes(env, l', true, quantity, memoSize);
  }

  lemma {:induction false} SupplySymbol(l: Ledger, code: nat)
    requires Conserved(l) && code in l.stats
    ensures l.stats[code].supply.symbol.code == code
  {
    assert StatOk(l, code);
  }

  lemma {:induction false} RetireTakes(env: Env, l: Ledger, auth: bool, quantity: Asset, memoSize: nat)
    requires Retired(env, l, auth, quantity, memoSize).Some?
    ensures var l', c := Retired(env, l, auth, quantity, memoSize).value, quantity.symbol.code; var st := l.stats[c];
      && l'.stats == l.stats[c := st.(supply := Asset(st.supply.amount - quantity.amount, quantity.symbol))]
      && (st.issuer, c) in l'.balances && l'.balances == l.balances[(st.issuer, c) := l'.balances[(st.issuer, c)]]
      && l'.balances[(st.issuer, c)].amount == BalanceOf(l, st.issuer, c) - quantity.amount
  {
    hide IsValid;
  }

  lemma {:induction false} MintAdds(env: Env, l: Ledger, auth: bool, quantity: Asset, memoSize: nat)
    requires Minted(env, l, auth, quantity, memoSize).Some?
    ensures var l', c := Minted(env, l, auth, quantity, memoSize).value, quantity.symbol.code; var st := l.stats[c];
      && l'.stats == l.stats[c := st.(supply := Asset(st.supply.amount + quantity.amount, quantity.symbol))]
      && (st.issuer, c) in l'.balances && l'.balances == l.balances[(st.issuer, c) := l'.balances[(st.issuer, c)]]
      && l'.balances[(st.issuer, c)].amount == BalanceOf(l, st.issuer, c) + quantity.amount
  {
    hide IsValid;
  }

  lemma {:induction false} CreateConserves(env: Env, l: Ledger, auth: bool, issuer: Name, maximum: Asset)
    requires Conserved(l) && Created(env, l, auth, issuer, maximum).Some?
    ensures Conserved(Created(env, l, auth, issuer, maximum).value)
  {
    var l', c := Created(env, l, auth, issuer, maximum).value, maximum.symbol.code;
    forall key | key in l'.balances ensures BalanceOk(l', key) && HeldIn(c)(key, l.balances[key]) == 0.0 {
      assert BalanceOk(l, key);
    }
    TotalZero(l.balances, HeldIn(c));
    forall code | code in l'.stats ensures StatOk(l', code) {
      if code != c { assert StatOk(l, code); }
    }
  }

  lemma {:induction false} RowsConserve(l: Ledger, auth: bool, owner: Name, symbol: Symbol)
    requires Conserved(l)
    ensures Opened(l, auth, owner, symbol).Some? ==> Conserved(Opened(l, auth, owner, symbol).value)
    ensures Closed(l, auth, owner, symbol).Some? ==> Conserved(Closed(l, auth, owner, symbol).value)
  {
    var key := (owner, symbol.code);
    var o, c := Opened(l, auth, owner, symbol), Closed(l, auth, owner, symbol);
    forall code | code in l.stats
      ensures o.Some? ==> StatOk(o.value, code)
      ensures c.Some? ==> StatOk(c.value, code)
    {
      assert StatOk(l, code);
      SetRow(l.balances, key, Asset(0, symbol), code);
      if key in l.balances { Remove(l.balances, HeldIn(code), key); }
    }
    forall k
      ensures o.Some? && k in o.value.balances ==> BalanceOk(o.value, k)
      ensures c.Some? && k in c.value.balances ==> BalanceOk(c.value, k)
    {
      if k in l.balances { assert BalanceOk(l, k); }
    }
  }

  lemma {:induction false} ActionConserves(env: Env, l: Ledger, a: Action)
    requires Conserved(l) && Apply(env, l, a).Some?
    ensures Conserved(Apply(env, l, a).value)
  {
    match a
    case Create(auth, issuer, maximum) => CreateConserves(env, l, auth, issuer, maximum);
    case Issue(auth, to, quantity, memoSize) =>
      MintConserves(env, l, auth, quantity, memoSize);
      var issuer := l.stats[quantity.symbol.code].issuer;
      if to != issuer { TransferConserves(env, Minted(env, l, auth, quantity, memoSize).value, auth, issuer, to, quantity, memoSize); }
    case Retire(auth, quantity, memoSize) => RetireConserves(env, l, auth, quantity, memoSize);
    case Transfer(auth, from, to, quantity, memoSize) => TransferConserves(env, l, auth, from, to, quantity, memoSize);
    case Open(auth, owner, symbol) => RowsConserve(l, auth, owner, symbol);
    case Close(auth, owner, symbol) => RowsConserve(l, auth, owner, symbol);
  }

  // Every run conserves: the books always balance and every amount is in range.
  lemma {:induction false} RunConserves(env: Env, actions: seq<Action>)
    ensures Conserved(Run(env, actions))
    ensures forall key :: key in Run(env, actions).balances ==> 0 <= Run(env, actions).balances[key].amount <= MAX_AMOUNT
    decreases |actions|
  {
    var l := Run(env, actions);
    if actions != [] {
      var before := Run(env, actions[..|actions| - 1]);
      RunConserves(env, actions[..|actions| - 1]);
      if Apply(env, before, actions[|actions| - 1]).Some? { ActionConserves(env, before, actions[|actions| - 1]); }
    }
    forall key | key in l.balances ensures 0 <= l.balances[key].amount <= MAX_AMOUNT {
      BalanceWithinSupply(l, key);
    }
  }

  // --- what each action does ------------------------------------------------------------

  // Creation succeeds exactly for an authorised, valid and positive maximum of a new symbol;
  // it stores maximum and issuer with a supply of 0.
  lemma {:induction false} CreateEffect(env: Env, l: Ledger, auth: bool, issuer: Name, maximum: Asset)
    ensures Apply(env, l, Create(auth, issuer, maximum)).Some? <==>
      && auth && env.validSymbol(maximum.symbol) && 0 < maximum.amount <= 0x3FFF_FFFF_FFFF_FFFF && maximum.symbol.code !in l.stats
    ensures Apply(env, l, Create(auth, issuer, maximum)).Some? ==>
      var l' := Apply(env, l, Create(auth, issuer, maximum)).value;
      && l'.balances == l.balances
      && l'.stats == l.stats[maximum.symbol.code := Stat(Asset(0, maximum.symbol), maximum, issuer)]
  {
  }

  // Issuing raises the supply and the recipient's balance by the quantity, and no other.
  lemma {:induction false} IssueMoves(env: Env, l: Ledger, auth: bool, to: Name, quantity: Asset, memoSize: nat)
    requires Apply(env, l, Issue(auth, to, quantity, memoSize)).Some?
    ensures var l', c := Apply(env, l, Issue(auth, to, quantity, memoSize)).value, quantity.symbol.code;
      && c in l.stats && l'.stats == l.stats[c := l.stats[c].(supply := Asset(l.stats[c].supply.amount + quantity.amount, quantity.symbol))]
      && forall owner, code :: BalanceOf(l', owner, code) == BalanceOf(l, owner, code) + if code == c && owner == to then quantity.amount else 0
  {
    hide Minted, Transferred;
    var m, c := Minted(env, l, auth, quantity, memoSize).value, quantity.symbol.code;
    MintKnown(env, l, auth, quantity, memoSize);
    MintAdds(env, l, auth, quantity, memoSize);
    if to != l.stats[c].issuer { TransferMoves(env, m, auth, l.stats[c].issuer, to, quantity, memoSize); }
  }

  lemma {:induction false} MintKnown(env: Env, l: Ledger, auth: bool, quantity: Asset, memoSize: nat)
    requires Minted(env, l, auth, quantity, memoSize).Some?
    ensures quantity.symbol.code in l.stats
  {
  }

  // Retiring lowers the supply and the issuer's balance by the quantity, and no other.
  lemma {:induction false} RetireMoves(env: Env, l: Ledger, auth: bool, quantity: Asset, memoSize: nat)
    requires Apply(env, l, Retire(auth, quantity, memoSize)).Some?
    ensures var l', c := Apply(env, l, Retire(auth, quantity, memoSize)).value, quantity.symbol.code;
      && c in l.stats && l'.stats == l.stats[c := l.stats[c].(supply := Asset(l.stats[c].supply.amount - quantity.amount, quantity.symbol))]
      && forall owner, code :: BalanceOf(l', owner, code)
           == BalanceOf(l, owner, code) - if code == c && owner == l.stats[c].issuer then quantity.amount else 0
  {
    RetireTakes(env, l, auth, quantity, memoSize);
  }

  // Rows are opened and closed without moving anything; only an empty row can be closed.
  lemma {:induction false} RowEffect(env: Env, l: Ledger, auth: bool, owner: Name, symbol: Symbol)
    ensures Apply(env, l, Open(auth, owner, symbol)).Some? <==> auth && symbol.code in l.stats && l.stats[symbol.code].supply.symbol == symbol
    ensures Apply(env, l, Open(auth, owner, symbol)).Some? ==>
      var l' := Apply(env, l, Open(auth, owner, symbol)).value;
      SameBalances(l', l) && l'.balances.Keys == l.balances.Keys + {(owner, symbol.code)}
    ensures Apply(env, l, Close(auth, owner, symbol)).Some? <==>
      auth && (owner, symbol.code) in l.balances && BalanceOf(l, owner, symbol.code) == 0
    ensures Apply(env, l, Close(auth, owner, symbol)).Some? ==>
      var l' := Apply(env, l, Close(auth, owner, symbol)).value;
      SameBalances(l', l) && l'.balances.Keys == l.balances.Keys - {(owner, symbol.code)}
  {
  }

  lemma {:induction false} StatKept(env: Env, l: Ledger, a: Action, code: nat)
    requires Apply(env, l, a).Some? && code in l.stats
    ensures var l' := Apply(env, l, a).value;
      && code in l'.stats && l'.stats[code].maxSupply == l.stats[code].maxSupply && l'.stats[code].issuer == l.stats[code].issuer
      && l'.stats[code].supply.amount == l.stats[code].supply.amount + Net(a, code)
  {
    hide Created, Issued, Retired, Transferred;
    match a
    case Create(auth, issuer, maximum) => CreateEffect(env, l, auth, issuer, maximum);
    case Issue(auth, to, quantity, memoSize) => IssueMoves(env, l, auth, to, quantity, memoSize);
    case Retire(auth, quantity, memoSize) => RetireMoves(env, l, auth, quantity, memoSize);
    case Transfer(auth, from, to, quantity, memoSize) => TransferMoves(env, l, auth, from, to, quantity, memoSize);
    case Open(auth, owner, symbol) =>
    case Close(auth, owner, symbol) =>
  }

  // What an action adds to the supply of a symbol code.
  function Net(a: Action, code: nat): int {
    if a.Issue? && a.quantity.symbol.code == code then a.quantity.amount
    else if a.Retire? && a.quantity.symbol.code == code then -a.quantity.amount
    else 0
  }

  // Everything issued less everything retired, over the actions of a run that succeeded.
  function NetIssued(env: Env, actions: seq<Action>, code: nat): int
    decreases |actions|
  {
    if actions == [] then 0
    else
      var front, a := actions[..|actions| - 1], actions[|actions| - 1];
      NetIssued(env, front, code) + if Apply(env, Run(env, front), a).Some? then Net(a, code) else 0
  }

  // On every run, from the creation of a symbol on: maximum and issuer are the ones it was
  // created with, and the supply is what was issued since less what was retired, never above
  // that maximum.
  lemma {:induction false} MaximumHolds(env: Env, actions: seq<Action>, k: nat)
    requires k < |actions| && actions[k].Create? && Apply(env, Run(env, actions[..k]), actions[k]).Some?
    ensures var st, maximum := Run(env, actions).stats, actions[k].maximum; var code := maximum.symbol.code;
      && code in st && st[code].maxSupply == maximum && st[code].issuer == actions[k].issuer
      && st[code].supply.amount == NetIssued(env, actions, code)
      && 0 <= st[code].supply.amount <= maximum.amount
    decreases |actions|
  {
    hide Apply, Conserved;
    var front, a, maximum := actions[..|actions| - 1], actions[|actions| - 1], actions[k].maximum;
    RunConserves(env, actions);
    if k == |front| {
      CreateEffect(env, Run(env, front), a.auth, a.issuer, maximum);
      NothingIssued(env, front, maximum.symbol.code);
    } else {
      assert front[..k] == actions[..k];
      MaximumHolds(env, front, k);
      if Apply(env, Run(env, front), a).Some? { StatKept(env, Run(env, front), a, maximum.symbol.code); }
    }
    SupplyWithin(Run(env, actions), maximum.symbol.code);
  }

  lemma {:induction false} SupplyWithin(l: Ledger, code: nat)
    requires Conserved(l) && code in l.stats
    ensures 0 <= l.stats[code].supply.amount <= l.stats[code].maxSupply.amount
  {
    assert StatOk(l, code);
  }

  lemma {:induction false} NothingIssued(env: Env, actions: seq<Action>, code: nat)
    requires code !in Run(env, actions).stats
    ensures NetIssued(env, actions, code) == 0
    decreases |actions|
  {
    hide Apply;
    if actions != [] {
      var front, a := actions[..|actions| - 1], actions[|actions| - 1];
      var l := Run(env, front);
      if Apply(env, l, a).Some? {
        NotIssued(env, l, a, code);
      }
      NothingIssued(env, front, code);
    }
  }

  lemma {:induction false} NotIssued(env: Env, l: Ledger, a: Action, code: nat)
    requires Apply(env, l, a).Some? && code !in Apply(env, l, a).value.stats
    ensures code !in l.stats && Net(a, code) == 0
  {
    if code in l.stats { StatKept(env, l, a, code); }
  }

  // --- the contract, updating its tables in place ---------------------------------------

  class Contract {
    var stats: map<nat, Stat>
    var balances: map<(Name, nat), Asset>
    const env: Env

    constructor (env: Env)
      ensures Now() == Ledger(map[], map[]) && this.env == env
    {
      stats, balances, this.env := map[], map[], env;
    }

    function Now(): Ledger
      reads this
    {
      Ledger(stats, balances)
    }

    method CreateToken(auth: bool, issuer: Name, maximum: Asset) returns (ok: bool)
      modifies this
      ensures ok == Created(env, old(Now()), auth, issuer, maximum).Some?
      ensures Now() == if ok then Created(env, old(Now()), auth, issuer, maximum).value else old(Now())
    {
      ok := auth && IsValid(env, maximum) && maximum.amount > 0 && maximum.symbol.code !in stats;
      if ok {
        stats := stats[maximum.symbol.code := Stat(Asset(0, maximum.symbol), maximum, issuer)];
      }
    }

    method SubBalance(owner: Name, value: Asset) returns (ok: bool)
      modifies this`balances
      ensures ok == WithoutBalance(old(Now()), owner, value).Some?
      ensures Now() == if ok then WithoutBalance(old(Now()), owner, value).value else old(Now())
    {
      var key := (owner, value.symbol.code);
      if key !in balances || balances[key].amount < value.amount {
        return false;
      }
      var rest := Minus(balances[key], value);
      ok := rest.Some?;
      if ok {
        balances := balances[key := rest.value];
      }
    }

    method AddBalance(owner: Name, value: Asset) returns (ok: bool)
      modifies this`balances
      ensures ok == WithBalance(old(Now()), owner, value).Some?
      ensures Now() == if ok then WithBalance(old(Now()), owner, value).value else old(Now())
    {
      var key := (owner, value.symbol.code);
      ok := true;
      if key !in balances {
        balances := balances[key := value];
      } else {
        var sum := Plus(balances[key], value);
        ok := sum.Some?;
        if ok {
          balances := balances[key := sum.value];
        }
      }
    }

    method DoTransfer(auth: bool, from: Name, to: Name, quantity: Asset, memoSize: nat) returns (ok: bool)
      modifies this`balances
      ensures ok == Transferred(env, old(Now()), auth, from, to, quantity, memoSize).Some?
      ensures Now() == if ok then Transferred(env, old(Now()), auth, from, to, quantity, memoSize).value else old(Now())
    {
      if !auth || from == to || !env.isAccount(to) || !MayMove(env, Now(), quantity, memoSize) {
        return false;
      }
      var saved := balances;
      ok := SubBalance(from, quantity);
      if ok {
        ok := AddBalance(to, quantity);
        if !ok {
          balances := saved;
        }
      }
    }

    method DoIssue(auth: bool, to: Name, quantity: Asset, memoSize: nat) returns (ok: bool)
      modifies this
      ensures ok == Issued(env, old(Now()), auth, to, quantity, memoSize).Some?
      ensures Now() == if ok then Issued(env, old(Now()), auth, to, quantity, memoSize).value else old(Now())
    {
      if !MayMove(env, Now(), quantity, memoSize) || !auth {
        return false;
      }
      var savedStats, savedBalances := stats, balances;
      var code := quantity.symbol.code;
      var st := stats[code];
      if quantity.amount > st.maxSupply.amount - st.supply.amount {
        return false;
      }
      var supply := Plus(st.supply, quantity);
      if supply.None? {
        return false;
      }
      stats := stats[code := st.(supply := supply.value)];
      ok := AddBalance(st.issuer, quantity);
      if ok && to != st.issuer {
        ok := DoTransfer(auth, st.issuer, to, quantity, memoSize);
      }
      if !ok {
        stats, balances := savedStats, savedBalances;
      }
    }

    method DoRetire(auth: bool, quantity: Asset, memoSize: nat) returns (ok: bool)
      modifies this
      ensures ok == Retired(env, old(Now()), auth, quantity, memoSize).Some?
      ensures Now() == if ok then Retired(env, old(Now()), auth, quantity, memoSize).value else old(Now())
    {
      if !MayMove(env, Now(), quantity, memoSize) || !auth {
        return false;
      }
      var savedStats := stats;
      var code := quantity.symbol.code;
      var st := stats[code];
      var supply := Minus(st.supply, quantity);
      if supply.None? {
        return false;
      }
      stats := stats[code := st.(supply := supply.value)];
      ok := SubBalance(st.issuer, quantity);
      if !ok {
        stats := savedStats;
      }
    }

    method OpenRow(auth: bool, owner: Name, symbol: Symbol) returns (ok: bool)
      modifies this`balances
      ensures ok == Opened(old(Now()), auth, owner, symbol).Some?
      ensures Now() == if ok then Opened(old(Now()), auth, owner, symbol).value else old(Now())
    {
      ok := auth && symbol.code in stats && stats[symbol.code].supply.symbol == symbol;
      if ok && (owner, symbol.code) !in balances {
        balances := balances[(owner, symbol.code) := Asset(0, symbol)];
      }
    }

    method CloseRow(auth: bool, owner: Name, symbol: Symbol) returns (ok: bool)
      modifies this`balances
      ensures ok == Closed(old(Now()), auth, owner, symbol).Some?
      ensures Now() == if ok then Closed(old(Now()), auth, owner, symbol).value else old(Now())
    {
      var key := (owner, symbol.code);
      ok := auth && key in balances && balances[key].amount == 0;
      if ok {
        balances := balances - {key};
      }
    }
  }
}
