/** The token application's operations (`token/src/contract.rs`). The signer, the clock
    and the chain's super owners are explicit inputs. A missing signer makes the source
    abort (`expect`/`unwrap`); that is the `Panic` response, which leaves the ledger as it
    was, since an aborted operation commits nothing. */
module TokenContract {
  import opened Abi
  import opened Bonus
  import opened TokenState

  datatype TokenOperation =
    | Transfer(to: Account, amount: Amount)
    | ClaimBonus
    | Mint(to: Account, amount: Amount)

  /** `Balance` of the source is `BalanceReport` here; none of the modelled arms returns it. */
  datatype TokenResponse = Ok | BalanceReport(amount: Amount) | Error(error: TokenError) | Panic

  datatype Step = Step(state: Ledger, response: TokenResponse)

  /** The bonus record of `owner`, or a fresh one for an account that never claimed. */
  function BonusOf(l: Ledger, owner: Account): (r: DailyBonus)
    ensures owner !in l.dailyBonuses ==> r == New()
    ensures owner in l.dailyBonuses ==> r == l.dailyBonuses[owner]
  {
    if owner in l.dailyBonuses then l.dailyBonuses[owner] else New()
  }

  function ExecTransfer(l: Ledger, from: Account, to: Account, amount: Amount): (r: Step)
    ensures r.response.Ok? <==> Balance(l, from) >= amount
    ensures r.response.Ok? ==> r.state == TokenState.Transfer(l, from, to, amount).value
    ensures !r.response.Ok? ==> r == Step(l, Error(InsufficientBalance(Balance(l, from), amount)))
  {
    match TokenState.Transfer(l, from, to, amount)
    case Success(l') => Step(l', Ok)
    case Failure(e) => Step(l, Error(e))
  }

  /** Claims the owner's bonus: refused and nothing written unless the record allows a
      claim; otherwise the owner is credited the record's amount and the record restarts
      its clock at `now`. */
  function ExecClaimBonus(l: Ledger, owner: Account, now: Timestamp): (r: Step)
    ensures var b := BonusOf(l, owner);
            r.response.Ok? <==> CanClaim(b, now) && b.amount > 0
    ensures !r.response.Ok? ==> r == Step(l, Error(BonusNotReady))
    ensures r.response.Ok? ==>
              var b := BonusOf(l, owner);
              && Balance(r.state, owner) == SatAdd(Balance(l, owner), b.amount)
              && (forall a :: a != owner ==> Balance(r.state, a) == Balance(l, a))
              && r.state.totalSupply == SatAdd(l.totalSupply, b.amount)
              && r.state.dailyBonuses == l.dailyBonuses[owner := b.(lastClaim := now)]
  {
    var (b', granted) := Claim(BonusOf(l, owner), now);
    if granted == 0 then Step(l, Error(BonusNotReady))
    else
      var l' := Credit(l, owner, granted);
      Step(l'.(dailyBonuses := l'.dailyBonuses[owner := b']), Ok)
  }

  /** Mints for a super owner only; anyone else is refused and nothing changes. */
  function ExecMint(l: Ledger, caller: Account, superOwners: set<Account>, to: Account, amount: Amount): (r: Step)
    ensures r.response.Ok? <==> caller in superOwners
    ensures caller !in superOwners ==> r == Step(l, Error(OnlyOwnerCanMint))
    ensures caller in superOwners ==> r.state == Credit(l, to, amount)
  {
    if caller !in superOwners then Step(l, Error(OnlyOwnerCanMint))
    else Step(Credit(l, to, amount), Ok)
  }

  /** One operation. The signer is the account value moves from, claims for, or mints as;
      without one every operation aborts. */
  function Exec(l: Ledger, caller: Option<Account>, now: Timestamp, superOwners: set<Account>,
                op: TokenOperation): (r: Step)
    ensures caller.None? ==> r == Step(l, Panic)
    ensures !r.response.Ok? ==> r.state == l
    ensures r.response.Ok? || r.response.Error? || r.response.Panic?
    ensures caller.Some? && op.Transfer? ==> r == ExecTransfer(l, caller.value, op.to, op.amount)
    ensures caller.Some? && op.ClaimBonus? ==> r == ExecClaimBonus(l, caller.value, now)
    ensures caller.Some? && op.Mint? ==> r == ExecMint(l, caller.value, superOwners, op.to, op.amount)
  {
    match caller
    case None => Step(l, Panic)
    case Some(signer) =>
      match op
      case Transfer(to, amount) => ExecTransfer(l, signer, to, amount)
      case ClaimBonus => ExecClaimBonus(l, signer, now)
      case Mint(to, amount) => ExecMint(l, signer, superOwners, to, amount)
  }

  /** Credits `initialSupply` to each super owner in turn, starting from an empty ledger.
      Each owner ends with exactly the initial supply, whatever the order, and the supply
      is their number times it (saturating at u128). */
  method Instantiate(superOwners: set<Account>, initialSupply: Amount) returns (l: Ledger)
    ensures forall a :: a in superOwners ==> Balance(l, a) == initialSupply
    ensures forall a :: a !in superOwners ==> Balance(l, a) == 0
    ensures l.totalSupply == Cap(|superOwners| * initialSupply)
    ensures l.dailyBonuses == map[]
    ensures |superOwners| * initialSupply <= AMOUNT_MAX ==> Conserved(l)
  {
    l := EmptyLedger();
    var remaining := superOwners;
    ghost var minted: nat := 0;
    while remaining != {}
      invariant remaining <= superOwners
      invariant Minted(l, superOwners - remaining, initialSupply, minted)
      decreases |remaining|
    {
      var owner :| owner in remaining;
      MintNext(l, superOwners, remaining, initialSupply, minted, owner);
      l := Credit(l, owner, initialSupply);
      remaining := remaining - {owner};
      minted := minted + initialSupply;
    }
    assert superOwners - remaining == superOwners;
    MintedFinal(l, superOwners, initialSupply, minted);
  }

  /** Each account in `owners` holding `amount`, and no other account. */
  function Uniform(owners: set<Account>, amount: Amount): (r: map<Account, Amount>)
    ensures r.Keys == owners
    ensures forall a :: a in owners ==> r[a] == amount
  {
    map a | a in owners :: amount
  }

  /** The loop invariant of `Instantiate`: the owners in `done` hold `initialSupply` each
      and nobody else holds anything; the supply is the saturated total `minted`. */
  ghost predicate Minted(l: Ledger, done: set<Account>, initialSupply: Amount, minted: nat) {
    && minted == |done| * initialSupply
    && l.accounts == Uniform(done, initialSupply)
    && l.totalSupply == Cap(minted)
    && l.dailyBonuses == map[]
  }

  lemma MintStep(l: Ledger, done: set<Account>, initialSupply: Amount, minted: nat, owner: Account)
    requires Minted(l, done, initialSupply, minted) && owner !in done
    ensures Minted(Credit(l, owner, initialSupply), done + {owner}, initialSupply, minted + initialSupply)
  {
    CapAbsorbs(minted, initialSupply);
    MulSucc(|done|, initialSupply);
    assert |done + {owner}| == |done| + 1;
    assert Credit(l, owner, initialSupply).accounts == Uniform(done + {owner}, initialSupply);
  }

  /** One turn of the `Instantiate` loop: crediting an owner still to be served moves it
      from the remaining owners to the served ones. */
  lemma MintNext(l: Ledger, superOwners: set<Account>, remaining: set<Account>, initialSupply: Amount,
                 minted: nat, owner: Account)
    requires remaining <= superOwners && owner in remaining
    requires Minted(l, superOwners - remaining, initialSupply, minted)
    ensures Minted(Credit(l, owner, initialSupply), superOwners - (remaining - {owner}), initialSupply,
                   minted + initialSupply)
  {
    assert superOwners - (remaining - {owner}) == (superOwners - remaining) + {owner};
    MintStep(l, superOwners - remaining, initialSupply, minted, owner);
  }

  lemma MintedFinal(l: Ledger, owners: set<Account>, initialSupply: Amount, minted: nat)
    requires Minted(l, owners, initialSupply, minted)
    ensures forall a :: a in owners ==> Balance(l, a) == initialSupply
    ensures forall a :: a !in owners ==> Balance(l, a) == 0
    ensures minted <= AMOUNT_MAX ==> Conserved(l)
  {
    SumUniform(owners, initialSupply);
  }

  lemma UniformWithout(owners: set<Account>, amount: Amount, k: Account)
    ensures Uniform(owners, amount) - {k} == Uniform(owners - {k}, amount)
  {
    var l := Uniform(owners, amount) - {k};
    var r := Uniform(owners - {k}, amount);
    assert l.Keys == r.Keys;
    assert forall a :: a in l ==> l[a] == r[a];
  }

  /** n accounts holding `amount` each add up to n times it. */
  lemma {:induction false} SumUniform(owners: set<Account>, amount: Amount)
    ensures Sum(Uniform(owners, amount)) == |owners| * amount
    decreases |owners|
  {
    if owners != {} {
      var k :| k in owners;
      var m := Uniform(owners, amount);
      var rest := owners - {k};
      assert |owners| == |rest| + 1;
      calc {
        Sum(m);
        { SumRemove(m, k); UniformWithout(owners, amount, k); }
        amount + Sum(Uniform(rest, amount));
        { SumUniform(rest, amount); }
        amount + |rest| * amount;
        { MulSucc(|rest|, amount); }
        (|rest| + 1) * amount;
      }
    } else {
      assert Uniform(owners, amount) == map[];
    }
  }

  /** Whether the credit a call would make, if any, fits in the u128 supply: a granted
      bonus claim or a super owner's mint. Refused calls and transfers always fit. */
  predicate CreditFits(l: Ledger, caller: Option<Account>, now: Timestamp, superOwners: set<Account>,
                       op: TokenOperation)
  {
    && (caller.Some? && op.ClaimBonus? && CanClaim(BonusOf(l, caller.value), now) ==>
          l.totalSupply + BonusOf(l, caller.value).amount <= AMOUNT_MAX)
    && (caller.Some? && op.Mint? && caller.value in superOwners ==>
          l.totalSupply + op.amount <= AMOUNT_MAX)
  }

  /** On balanced books every operation keeps them balanced, as long as a credit it makes
      does not push the supply past u128. */
  lemma ExecConserves(l: Ledger, caller: Option<Account>, now: Timestamp, superOwners: set<Account>,
                      op: TokenOperation)
    requires Conserved(l)
    requires CreditFits(l, caller, now, superOwners, op)
    ensures Conserved(Exec(l, caller, now, superOwners, op).state)
  {
    var r := Exec(l, caller, now, superOwners, op);
    if r.response.Ok? {
      var signer := caller.value;
      match op
      case Transfer(to, amount) =>
        TransferConserves(l, signer, to, amount);
      case ClaimBonus =>
        CreditConserves(l, signer, BonusOf(l, signer).amount);
      case Mint(to, amount) =>
        CreditConserves(l, to, amount);
    }
  }

  // ---------------------------------------------------------------------------
  // Runs: the bonus is granted at most once per cooldown window
  // ---------------------------------------------------------------------------

  datatype Call = Call(caller: Option<Account>, now: Timestamp, op: TokenOperation)

  function StepOf(l: Ledger, superOwners: set<Account>, c: Call): Step {
    Exec(l, c.caller, c.now, superOwners, c.op)
  }

  /** The ledger at the end of a run. */
  function Run(l: Ledger, superOwners: set<Account>, calls: seq<Call>): Ledger
    decreases |calls|
  {
    if |calls| == 0 then l else Run(StepOf(l, superOwners, calls[0]).state, superOwners, calls[1..])
  }

  /** No call of the run pushes the supply past u128 at the point where it runs. */
  predicate RunFits(l: Ledger, superOwners: set<Account>, calls: seq<Call>)
    decreases |calls|
  {
    |calls| == 0 ||
      (&& CreditFits(l, calls[0].caller, calls[0].now, superOwners, calls[0].op)
       && RunFits(StepOf(l, superOwners, calls[0]).state, superOwners, calls[1..]))
  }

  /** Conservation over runs: from balanced books, any sequence of token operations in
      which no credit saturates ends with the sum of all balances equal to the supply. */
  lemma {:induction false} RunConserves(l: Ledger, superOwners: set<Account>, calls: seq<Call>)
    requires Conserved(l)
    requires RunFits(l, superOwners, calls)
    ensures Conserved(Run(l, superOwners, calls))
    decreases |calls|
  {
    if |calls| > 0 {
      var c := calls[0];
      ExecConserves(l, c.caller, c.now, superOwners, c.op);
      RunConserves(StepOf(l, superOwners, c).state, superOwners, calls[1..]);
    }
  }

  /** On balanced books a run of transfers alone keeps the books balanced and never
      changes the supply, whichever of them succeed. */
  lemma {:induction false} TransfersKeepSupply(l: Ledger, superOwners: set<Account>, calls: seq<Call>)
    requires Conserved(l)
    requires forall i :: 0 <= i < |calls| ==> calls[i].op.Transfer?
    ensures Conserved(Run(l, superOwners, calls))
    ensures Run(l, superOwners, calls).totalSupply == l.totalSupply
    decreases |calls|
  {
    if |calls| > 0 {
      var c := calls[0];
      var r := StepOf(l, superOwners, c);
      if r.response.Ok? {
        TransferConserves(l, c.caller.value, c.op.to, c.op.amount);
      }
      assert forall i :: 0 <= i < |calls[1..]| ==> calls[1..][i] == calls[i + 1];
      TransfersKeepSupply(r.state, superOwners, calls[1..]);
    }
  }

  /** Whether call `c` is a bonus claim of `owner` that was granted. */
  predicate Granted(r: Step, c: Call, owner: Account) {
    r.response.Ok? && c.op.ClaimBonus? && c.caller == Some(owner)
  }

  /** The times at which `owner` was granted the bonus during a run. */
  function Grants(l: Ledger, superOwners: set<Account>, calls: seq<Call>, owner: Account): seq<Timestamp>
    decreases |calls|
  {
    if |calls| == 0 then []
    else
      var r := StepOf(l, superOwners, calls[0]);
      (if Granted(r, calls[0], owner) then [calls[0].now] else [])
      + Grants(r.state, superOwners, calls[1..], owner)
  }

  /** A step moves `owner`'s bonus clock only when it grants `owner` the bonus, and then
      only forward past a full cooldown, to the time of the claim. */
  lemma BonusStep(l: Ledger, superOwners: set<Account>, c: Call, owner: Account)
    ensures var r := StepOf(l, superOwners, c);
            if Granted(r, c, owner) then
              && c.now >= BonusOf(l, owner).lastClaim + DAILY_BONUS_COOLDOWN_MICROS
              && BonusOf(r.state, owner).lastClaim == c.now
            else BonusOf(r.state, owner) == BonusOf(l, owner)
  {
  }

  /** Whatever else happens in between and however the clock moves, the bonus grants of
      one account are spaced by at least the cooldown, the first one a cooldown after
      the account's recorded last claim. */
  lemma {:induction false} GrantsAreSpaced(l: Ledger, superOwners: set<Account>, calls: seq<Call>, owner: Account)
    ensures Spaced(BonusOf(l, owner).lastClaim, Grants(l, superOwners, calls, owner))
    decreases |calls|
  {
    if |calls| > 0 {
      var c := calls[0];
      var r := StepOf(l, superOwners, c);
      BonusStep(l, superOwners, c, owner);
      GrantsAreSpaced(r.state, superOwners, calls[1..], owner);
      var rest := Grants(r.state, superOwners, calls[1..], owner);
      if Granted(r, c, owner) {
        assert Grants(l, superOwners, calls, owner) == [c.now] + rest;
        SpacedCons(BonusOf(l, owner).lastClaim, c.now, rest);
      } else {
        assert Grants(l, superOwners, calls, owner) == rest;
      }
    }
  }

  /** From a ledger without bonus records (a fresh one, or what `Instantiate` leaves) no
      account is granted the bonus before one cooldown after the epoch, and its k-th grant
      comes no earlier than k + 1 cooldowns after it. */
  lemma FreshGrantsWait(l: Ledger, superOwners: set<Account>, calls: seq<Call>, owner: Account, k: nat)
    requires l.dailyBonuses == map[]
    requires k < |Grants(l, superOwners, calls, owner)|
    ensures Grants(l, superOwners, calls, owner)[k] >= (k + 1) * DAILY_BONUS_COOLDOWN_MICROS
  {
    var g := Grants(l, superOwners, calls, owner);
    GrantsAreSpaced(l, superOwners, calls, owner);
    assert BonusOf(l, owner).lastClaim == 0;
    assert g[0] >= Previous(0, g, 0) + DAILY_BONUS_COOLDOWN_MICROS;
    SpacedSpan(0, g, 0, k);
    MulSucc(k, DAILY_BONUS_COOLDOWN_MICROS);
  }
}
