/** Runs of the market application: arbitrary sequences of operations from arbitrary
    signers at arbitrary times. Market ids are handed out 0, 1, 2, ...; each
    (market, account) pair is paid at most once; and everything paid on one market stays
    within 95% of its total pool. */
module MarketRun {
  import opened Abi
  import opened MarketState
  import opened MarketContract
  import opened MarketLifecycle
  import opened Settlement

  datatype Call = Call(caller: Option<Account>, now: Timestamp, op: MarketOperation)

  function StepOf(s: State, c: Call): Step {
    Exec(s, c.caller, c.now, c.op)
  }

  function Run(s: State, calls: seq<Call>): State
    decreases |calls|
  {
    if |calls| == 0 then s else Run(StepOf(s, calls[0]).state, calls[1..])
  }

  lemma {:induction false} RunPreservesValid(s: State, calls: seq<Call>)
    requires Valid(s)
    ensures Valid(Run(s, calls))
    decreases |calls|
  {
    if |calls| > 0 {
      ExecPreservesValid(s, calls[0].caller, calls[0].now, calls[0].op);
      RunPreservesValid(StepOf(s, calls[0]).state, calls[1..]);
    }
  }

  // ---------------------------------------------------------------------------
  // Sequential market ids
  // ---------------------------------------------------------------------------

  /** The ids reported by the successful CreateMarket calls of a run, in order. */
  function CreatedIds(s: State, calls: seq<Call>): seq<nat>
    decreases |calls|
  {
    if |calls| == 0 then []
    else
      var r := StepOf(s, calls[0]);
      (if r.response.MarketId? then [r.response.id] else []) + CreatedIds(r.state, calls[1..])
  }

  /** The k-th market created is given id `next + k`, and the counter ends just past the last. */
  lemma {:induction false} CreatedIdsAreSequential(s: State, calls: seq<Call>)
    ensures forall k :: 0 <= k < |CreatedIds(s, calls)| ==> CreatedIds(s, calls)[k] == s.nextMarketId + k
    ensures Run(s, calls).nextMarketId == s.nextMarketId + |CreatedIds(s, calls)|
    decreases |calls|
  {
    if |calls| > 0 {
      var r := StepOf(s, calls[0]);
      CreatedIdsAreSequential(r.state, calls[1..]);
      match calls[0].op
      case CreateMarket(_, _, _, _, _) =>
      case PlaceBet(_, _, _) =>
      case ResolveMarket(_, _) =>
      case ClaimWinnings(_) =>
      case CancelMarket(_) =>
    }
  }

  /** From a fresh store the markets are numbered 0, 1, 2, ... in creation order. */
  lemma FreshIdsStartAtZero(calls: seq<Call>)
    ensures forall k :: 0 <= k < |CreatedIds(Empty(), calls)| ==> CreatedIds(Empty(), calls)[k] == k
  {
    CreatedIdsAreSequential(Empty(), calls);
  }

  // ---------------------------------------------------------------------------
  // Payouts
  // ---------------------------------------------------------------------------

  /** The successful ClaimWinnings calls on market `id` in a run: who was paid, and how much. */
  function Paid(s: State, calls: seq<Call>, id: nat): seq<(Account, nat)>
    decreases |calls|
  {
    if |calls| == 0 then []
    else
      var c := calls[0];
      var r := StepOf(s, c);
      (if r.response.Payout? && c.op.ClaimWinnings? && c.op.marketId == id && c.caller.Some?
       then [(c.caller.value, r.response.amount)] else [])
      + Paid(r.state, calls[1..], id)
  }

  function Claimants(paid: seq<(Account, nat)>): (r: seq<Account>)
    ensures |r| == |paid|
    ensures forall k :: 0 <= k < |paid| ==> r[k] == paid[k].0
  {
    if |paid| == 0 then [] else [paid[0].0] + Claimants(paid[1..])
  }

  function Total(paid: seq<(Account, nat)>): nat {
    if |paid| == 0 then 0 else paid[0].1 + Total(paid[1..])
  }

  /** A Resolved or Cancelled market and its bets are the same at the end of any run. */
  lemma {:induction false} RunKeepsTerminal(s: State, calls: seq<Call>, id: nat)
    requires Valid(s) && id in s.markets && s.markets[id].status != Active
    ensures id in Run(s, calls).markets && Run(s, calls).markets[id] == s.markets[id]
    ensures GetBets(Run(s, calls), id) == GetBets(s, id)
    decreases |calls|
  {
    if |calls| > 0 {
      var c := calls[0];
      TerminalIsFinal(s, c.caller, c.now, c.op, id);
      ExecPreservesValid(s, c.caller, c.now, c.op);
      RunKeepsTerminal(StepOf(s, c).state, calls[1..], id);
    }
  }

  lemma {:induction false} RunKeepsClaims(s: State, calls: seq<Call>, id: nat, a: Account)
    requires HasClaimed(s, id, a)
    ensures HasClaimed(Run(s, calls), id, a)
    decreases |calls|
  {
    if |calls| > 0 {
      var c := calls[0];
      ClaimsPersist(s, c.caller, c.now, c.op, id, a);
      RunKeepsClaims(StepOf(s, c).state, calls[1..], id, a);
    }
  }

  /** Once a pair has been paid, every further claim by that account on that market is
      refused with AlreadyClaimed and changes nothing, whatever runs in between. */
  lemma ClaimIsOneShot(s: State, a: Account, now: Timestamp, id: nat, calls: seq<Call>, t: Timestamp)
    requires Exec(s, Some(a), now, ClaimWinnings(id)).response.Payout?
    ensures var f := Run(Exec(s, Some(a), now, ClaimWinnings(id)).state, calls);
            Exec(f, Some(a), t, ClaimWinnings(id)) == Step(f, Error(AlreadyClaimed))
  {
    var s1 := Exec(s, Some(a), now, ClaimWinnings(id)).state;
    RunKeepsClaims(s1, calls, id, a);
  }

  /** The payout depends only on the market record and its bets. */
  lemma PayoutFrame(s: State, t: State, id: nat, a: Account)
    requires id in s.markets && id in t.markets && s.markets[id] == t.markets[id]
    requires GetBets(s, id) == GetBets(t, id)
    ensures PayoutOf(s, id, a) == PayoutOf(t, id, a)
  {
    assert GetMarket(s, id) == GetMarket(t, id);
  }

  /** What a successful claim step establishes: the claimant had not been paid, is now
      marked, the market is Resolved and unchanged, and the amount is its settlement. */
  lemma PayoutStep(s: State, c: Call)
    requires StepOf(s, c).response.Payout?
    ensures c.op.ClaimWinnings? && c.caller.Some?
    ensures var r := StepOf(s, c);
            var id := c.op.marketId;
            var a := c.caller.value;
            && !HasClaimed(s, id, a) && HasClaimed(r.state, id, a)
            && id in s.markets && s.markets[id].status == Resolved
            && r.state.markets == s.markets && r.state.bets == s.bets
            && 0 < r.response.amount == PayoutOf(s, id, a)
  {
  }

  /** Every account paid on `id` during a run was not yet marked for `id` when it began. */
  lemma {:induction false} PaidWereUnclaimed(s: State, calls: seq<Call>, id: nat)
    ensures forall k :: 0 <= k < |Paid(s, calls, id)| ==> !HasClaimed(s, id, Paid(s, calls, id)[k].0)
    decreases |calls|
  {
    if |calls| > 0 {
      var c := calls[0];
      var r := StepOf(s, c);
      PaidWereUnclaimed(r.state, calls[1..], id);
      var rest := Paid(r.state, calls[1..], id);
      forall k | 0 <= k < |rest|
        ensures !HasClaimed(s, id, rest[k].0)
      {
        if HasClaimed(s, id, rest[k].0) {
          ClaimsPersist(s, c.caller, c.now, c.op, id, rest[k].0);
        }
      }
      if r.response.Payout? && c.op.ClaimWinnings? && c.op.marketId == id && c.caller.Some? {
        PayoutStep(s, c);
      }
    }
  }

  /** No account appears twice among the payouts of one market in a run. */
  lemma {:induction false} PaidAreDistinct(s: State, calls: seq<Call>, id: nat)
    ensures Distinct(Claimants(Paid(s, calls, id)))
    decreases |calls|
  {
    if |calls| > 0 {
      var c := calls[0];
      var r := StepOf(s, c);
      PaidAreDistinct(r.state, calls[1..], id);
      var rest := Paid(r.state, calls[1..], id);
      if r.response.Payout? && c.op.ClaimWinnings? && c.op.marketId == id && c.caller.Some? {
        var a := c.caller.value;
        var p := Paid(s, calls, id);
        assert p == [(a, r.response.amount)] + rest;
        PayoutStep(s, c);
        PaidWereUnclaimed(r.state, calls[1..], id);
        assert Claimants(p) == [a] + Claimants(rest);
      }
    }
  }

  /** Each payout of a run is positive and equals what settlement gives that account on
      the final store: a resolved market never changes afterwards. */
  lemma {:induction false} PaidAmountsAreFinal(s: State, calls: seq<Call>, id: nat)
    requires Valid(s)
    ensures forall k :: 0 <= k < |Paid(s, calls, id)| ==>
              0 < Paid(s, calls, id)[k].1 == PayoutOf(Run(s, calls), id, Paid(s, calls, id)[k].0)
    decreases |calls|
  {
    if |calls| > 0 {
      var c := calls[0];
      var r := StepOf(s, c);
      var rest := Paid(r.state, calls[1..], id);
      ExecPreservesValid(s, c.caller, c.now, c.op);
      PaidAmountsAreFinal(r.state, calls[1..], id);
      assert Run(s, calls) == Run(r.state, calls[1..]);
      if r.response.Payout? && c.op.ClaimWinnings? && c.op.marketId == id && c.caller.Some? {
        var a := c.caller.value;
        PayoutStep(s, c);
        RunKeepsTerminal(r.state, calls[1..], id);
        PayoutFrame(s, Run(s, calls), id, a);
        assert Paid(s, calls, id) == [(a, r.response.amount)] + rest;
      } else {
        assert Paid(s, calls, id) == rest;
      }
    }
  }

  lemma {:induction false} TotalIsSumPayouts(f: State, id: nat, p: seq<(Account, nat)>)
    requires forall k :: 0 <= k < |p| ==> p[k].1 == PayoutOf(f, id, p[k].0)
    ensures Total(p) == SumPayouts(f, id, Claimants(p))
    decreases |p|
  {
    if |p| > 0 {
      TotalIsSumPayouts(f, id, p[1..]);
      assert Claimants(p)[1..] == Claimants(p[1..]);
    }
  }

  /** No double claim: along any run, an account receives at most one payout per market. */
  lemma AtMostOnePayoutPerAccount(s: State, calls: seq<Call>, id: nat)
    requires Valid(s)
    ensures forall i, j :: 0 <= i < j < |Paid(s, calls, id)| ==>
              Paid(s, calls, id)[i].0 != Paid(s, calls, id)[j].0
  {
    PaidAreDistinct(s, calls, id);
    var p := Paid(s, calls, id);
    assert forall i :: 0 <= i < |p| ==> Claimants(p)[i] == p[i].0;
  }

  /** Payout conservation: whatever sequence of operations runs, the amounts paid out on
      one market add up to at most floor(total_pool * 95 / 100), as long as its stakes did
      not saturate the u128 pools. */
  lemma {:induction false} PayoutsWithinPool(s: State, calls: seq<Call>, id: nat)
    requires Valid(s)
    requires id in Run(s, calls).markets
    requires SideTotal(GetBets(Run(s, calls), id), Up) + SideTotal(GetBets(Run(s, calls), id), Down) <= AMOUNT_MAX
    ensures Total(Paid(s, calls, id)) <= Run(s, calls).markets[id].totalPool * 95 / 100
  {
    var f := Run(s, calls);
    var p := Paid(s, calls, id);
    RunPreservesValid(s, calls);
    PaidAreDistinct(s, calls, id);
    PaidAmountsAreFinal(s, calls, id);
    TotalIsSumPayouts(f, id, p);
    DistinctClaimantsWithinPool(f, id, Claimants(p));
  }

  /** An even two-account market, set up: a 60-minute market, 1,000,000 on Up by one account and
      on Down by another, resolved Up. The pools hold 2,000,000 in all and the platform
      books 5% of it. */
  lemma EvenMarketSetup(alice: Account, bob: Account, t: Timestamp)
    requires alice != bob && t + 3_600_000_005 <= TIME_MAX
    ensures var s1 := Exec(Empty(), Some(alice), t, CreateMarket("q", "d", Crypto, 60, Manual));
            var s2 := Exec(s1.state, Some(alice), t + 1, PlaceBet(0, Up, 1_000_000));
            var s3 := Exec(s2.state, Some(bob), t + 2, PlaceBet(0, Down, 1_000_000));
            var s4 := Exec(s3.state, Some(alice), t + 3, ResolveMarket(0, Up));
            && s1.response == MarketId(0)
            && s2.response == Ok && s3.response == Ok && s4.response == Ok
            && s4.state.platformFees == 100_000
            && 0 in s4.state.markets && s4.state.markets[0].status == Resolved
            && s4.state.markets[0].outcome == Some(Up)
            && s4.state.markets[0].totalPool == 2_000_000 && s4.state.markets[0].upPool == 1_000_000
            && GetBets(s4.state, 0) == [Bet(0, alice, Up, 1_000_000, t + 1, false), Bet(0, bob, Down, 1_000_000, t + 2, false)]
            && !HasClaimed(s4.state, 0, alice) && !HasClaimed(s4.state, 0, bob)
  {
    var s1 := Exec(Empty(), Some(alice), t, CreateMarket("q", "d", Crypto, 60, Manual));
    var s2 := Exec(s1.state, Some(alice), t + 1, PlaceBet(0, Up, 1_000_000));
    assert s2.state.markets[0].totalPool == 1_000_000;
  }

  /** Settlement on a resolved market holding one Up and one Down stake of 1,000,000 by
      two accounts, placed at any times: the Up bettor is paid 1,900,000 exactly once and
      the Down bettor gets nothing. */
  lemma EvenMarketPays(s: State, alice: Account, bob: Account, t1: Timestamp, t2: Timestamp, t: Timestamp)
    requires alice != bob
    requires 0 in s.markets && s.markets[0].status == Resolved && s.markets[0].outcome == Some(Up)
    requires s.markets[0].totalPool == 2_000_000 && s.markets[0].upPool == 1_000_000
    requires GetBets(s, 0) == [Bet(0, alice, Up, 1_000_000, t1, false), Bet(0, bob, Down, 1_000_000, t2, false)]
    requires !HasClaimed(s, 0, alice) && !HasClaimed(s, 0, bob)
    ensures var s5 := Exec(s, Some(alice), t, ClaimWinnings(0));
            && s5.response == Payout(1_900_000)
            && Exec(s5.state, Some(alice), t, ClaimWinnings(0)).response == Error(AlreadyClaimed)
            && Exec(s5.state, Some(bob), t, ClaimWinnings(0)).response == Error(NoWinnings)
  {
    assert WinningStake(GetBets(s, 0), alice, Up) == 1_000_000;
    assert FirstMatch(GetBets(s, 0), bob, Up) == None;
    EvenMarketShare();
  }

  /** The store the even two-account market's set-up run leaves. */
  function EvenMarketStore(alice: Account, bob: Account, t: Timestamp): State
    requires t + 3_600_000_005 <= TIME_MAX
  {
    var s1 := Exec(Empty(), Some(alice), t, CreateMarket("q", "d", Crypto, 60, Manual));
    var s2 := Exec(s1.state, Some(alice), t + 1, PlaceBet(0, Up, 1_000_000));
    var s3 := Exec(s2.state, Some(bob), t + 2, PlaceBet(0, Down, 1_000_000));
    Exec(s3.state, Some(alice), t + 3, ResolveMarket(0, Up)).state
  }

  /** The even two-account market end to end: on the market the set-up run produces, the Up bettor
      is paid 1,900,000 once and the Down bettor gets nothing. */
  lemma EvenMarketSettles(alice: Account, bob: Account, t: Timestamp)
    requires alice != bob && t + 3_600_000_005 <= TIME_MAX
    ensures var s5 := Exec(EvenMarketStore(alice, bob, t), Some(alice), t + 4, ClaimWinnings(0));
            && s5.response == Payout(1_900_000)
            && Exec(s5.state, Some(alice), t + 5, ClaimWinnings(0)).response == Error(AlreadyClaimed)
            && Exec(s5.state, Some(bob), t + 5, ClaimWinnings(0)).response == Error(NoWinnings)
  {
    EvenMarketSetup(alice, bob, t);
    var s4 := EvenMarketStore(alice, bob, t);
    EvenMarketPays(s4, alice, bob, t + 1, t + 2, t + 4);
    var s5 := Exec(s4, Some(alice), t + 4, ClaimWinnings(0));
    EvenMarketPays(s4, alice, bob, t + 1, t + 2, t + 5);
    assert Exec(s4, Some(alice), t + 5, ClaimWinnings(0)).state == s5.state;
  }
}
