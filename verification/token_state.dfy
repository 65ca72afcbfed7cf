/** The token ledger (`token/src/state.rs`): balances per account, the daily-bonus
    records and the `total_supply` register, with saturating u128 arithmetic. */
module TokenState {
  import opened Abi
  import opened Bonus

  datatype TokenError =
    | InsufficientBalance(balance: Amount, requested: Amount)
    | BonusNotReady
    | OnlyOwnerCanMint

  datatype Ledger = Ledger(
    accounts: map<Account, Amount>,
    dailyBonuses: map<Account, DailyBonus>,
    totalSupply: Amount)

  function EmptyLedger(): (r: Ledger)
    ensures forall a :: Balance(r, a) == 0
    ensures r.totalSupply == 0 && r.dailyBonuses == map[]
  {
    Ledger(map[], map[], 0)
  }

  /** The balance of `owner`; an account never credited holds zero. */
  function Balance(l: Ledger, owner: Account): (r: Amount)
    ensures owner !in l.accounts ==> r == 0
    ensures owner in l.accounts ==> r == l.accounts[owner]
  {
    if owner in l.accounts then l.accounts[owner] else 0
  }

  /** Adds `amount` to `owner` and to the supply, each saturating; nothing else changes. */
  function Credit(l: Ledger, owner: Account, amount: Amount): (r: Ledger)
    ensures Balance(r, owner) == SatAdd(Balance(l, owner), amount)
    ensures forall a :: a != owner ==> Balance(r, a) == Balance(l, a)
    ensures r.totalSupply == SatAdd(l.totalSupply, amount)
    ensures r.dailyBonuses == l.dailyBonuses
  {
    var current := Balance(l, owner);
    Ledger(l.accounts[owner := SatAdd(current, amount)], l.dailyBonuses, SatAdd(l.totalSupply, amount))
  }

  /** Takes `amount` from `owner` and from the supply; refused, with nothing changed, when
      the balance is smaller than the amount. */
  function Debit(l: Ledger, owner: Account, amount: Amount): (r: Result<Ledger, TokenError>)
    ensures r.Failure? <==> Balance(l, owner) < amount
    ensures r.Failure? ==> r.error == InsufficientBalance(Balance(l, owner), amount)
    ensures r.Success? ==>
              && Balance(r.value, owner) + amount == Balance(l, owner)
              && (forall a :: a != owner ==> Balance(r.value, a) == Balance(l, a))
              && r.value.totalSupply == SatSub(l.totalSupply, amount)
              && r.value.dailyBonuses == l.dailyBonuses
  {
    var current := Balance(l, owner);
    if current < amount then Failure(InsufficientBalance(current, amount))
    else
      var supply: Amount := SatSub(l.totalSupply, amount);
      Success(Ledger(l.accounts[owner := current - amount], l.dailyBonuses, supply))
  }

  /** Debit `from`, then credit `to`. */
  function Transfer(l: Ledger, from: Account, to: Account, amount: Amount): (r: Result<Ledger, TokenError>)
    ensures r.Failure? <==> Balance(l, from) < amount
    ensures r.Failure? ==> r.error == InsufficientBalance(Balance(l, from), amount)
    ensures r.Success? && from == to ==> forall a :: Balance(r.value, a) == Balance(l, a)
    ensures r.Success? && from != to ==>
              && Balance(r.value, from) + amount == Balance(l, from)
              && Balance(r.value, to) == SatAdd(Balance(l, to), amount)
    ensures r.Success? ==> forall a :: a != from && a != to ==> Balance(r.value, a) == Balance(l, a)
    ensures r.Success? && l.totalSupply >= amount ==> r.value.totalSupply == l.totalSupply
    ensures r.Success? ==> r.value.dailyBonuses == l.dailyBonuses
  {
    match Debit(l, from, amount)
    case Failure(e) => Failure(e)
    case Success(d) => Success(Credit(d, to, amount))
  }

  // ---------------------------------------------------------------------------
  // Conservation: the balances add up to the supply
  // ---------------------------------------------------------------------------

  ghost function Pick(m: map<Account, Amount>): (k: Account)
    requires |m| > 0
    ensures k in m
  {
    var k :| k in m; k
  }

  /** The sum of all balances. */
  ghost function Sum(m: map<Account, Amount>): nat
    decreases |m|
  {
    if |m| == 0 then 0
    else
      var k := Pick(m);
      assert |m - {k}| == |m| - 1 by { assert m.Keys - {k} == (m - {k}).Keys; }
      m[k] + Sum(m - {k})
  }

  /** Any entry can be taken out first: the sum does not depend on the choice. */
  lemma {:induction false} SumRemove(m: map<Account, Amount>, k: Account)
    requires k in m
    ensures Sum(m) == m[k] + Sum(m - {k})
    decreases |m|
  {
    var p := Pick(m);
    if p != k {
      assert (m - {k}).Keys == m.Keys - {k};
      assert (m - {p}).Keys == m.Keys - {p};
      SumRemove(m - {p}, k);
      SumRemove(m - {k}, p);
      assert m - {p} - {k} == m - {k} - {p};
    }
  }

  lemma SumUpdate(m: map<Account, Amount>, k: Account, v: Amount)
    ensures Sum(m[k := v]) + (if k in m then m[k] else 0) == Sum(m) + v
  {
    SumRemove(m[k := v], k);
    if k in m {
      SumRemove(m, k);
      assert m[k := v] - {k} == m - {k};
    } else {
      assert m[k := v] - {k} == m;
    }
  }

  lemma EntryWithinSum(m: map<Account, Amount>, k: Account)
    requires k in m
    ensures m[k] <= Sum(m)
  {
    SumRemove(m, k);
  }

  /** The ledger's books balance: the supply register is the sum of every balance. */
  ghost predicate Conserved(l: Ledger) {
    Sum(l.accounts) == l.totalSupply
  }

  lemma BalanceWithinSupply(l: Ledger, a: Account)
    requires Conserved(l)
    ensures Balance(l, a) <= l.totalSupply
  {
    if a in l.accounts {
      EntryWithinSum(l.accounts, a);
    }
  }

  /** An unsaturated credit raises the sum of the balances by the amount. */
  lemma CreditSum(l: Ledger, owner: Account, amount: Amount)
    requires Balance(l, owner) + amount <= AMOUNT_MAX
    ensures Sum(Credit(l, owner, amount).accounts) == Sum(l.accounts) + amount
  {
    SumUpdate(l.accounts, owner, Balance(l, owner) + amount);
  }

  /** A credit that does not push the supply past u128 keeps the books balanced and is
      exact: neither the balance nor the supply saturates. */
  lemma CreditConserves(l: Ledger, owner: Account, amount: Amount)
    requires Conserved(l) && l.totalSupply + amount <= AMOUNT_MAX
    ensures Conserved(Credit(l, owner, amount))
    ensures Balance(Credit(l, owner, amount), owner) == Balance(l, owner) + amount
    ensures Credit(l, owner, amount).totalSupply == l.totalSupply + amount
  {
    BalanceWithinSupply(l, owner);
    CreditSum(l, owner, amount);
  }

  /** A debit the balance covers lowers the sum of the balances by the amount. */
  lemma DebitSum(l: Ledger, owner: Account, amount: Amount)
    requires amount <= Balance(l, owner)
    ensures Debit(l, owner, amount).Success?
    ensures Sum(Debit(l, owner, amount).value.accounts) + amount == Sum(l.accounts)
  {
    SumUpdate(l.accounts, owner, Balance(l, owner) - amount);
  }

  /** A successful debit keeps the books balanced and lowers the supply by the amount. */
  lemma DebitConserves(l: Ledger, owner: Account, amount: Amount)
    requires Conserved(l) && amount <= Balance(l, owner)
    ensures Debit(l, owner, amount).Success?
    ensures Conserved(Debit(l, owner, amount).value)
    ensures Debit(l, owner, amount).value.totalSupply + amount == l.totalSupply
  {
    BalanceWithinSupply(l, owner);
    DebitSum(l, owner, amount);
  }

  /** On balanced books a transfer is exact and conserves the supply: `from` loses the
      amount, `to` gains it, and the books still balance. */
  lemma TransferConserves(l: Ledger, from: Account, to: Account, amount: Amount)
    requires Conserved(l) && Transfer(l, from, to, amount).Success?
    ensures Conserved(Transfer(l, from, to, amount).value)
    ensures Transfer(l, from, to, amount).value.totalSupply == l.totalSupply
    ensures from != to ==> Balance(Transfer(l, from, to, amount).value, to) == Balance(l, to) + amount
  {
    DebitConserves(l, from, amount);
    var d := Debit(l, from, amount).value;
    CreditConserves(d, to, amount);
  }
}
