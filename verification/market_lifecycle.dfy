/** Invariants of the market application across operations: the pool accounting, the
    one-shot lifecycle transitions and the claim-once rule (`market/src/contract.rs`,
    with the status predicates of `abi/src/lib.rs`). */
module MarketLifecycle {
  import opened Abi
  import opened MarketState
  import opened MarketContract

  /** The sum of the stakes on outcome `o`. */
  function SideTotal(bets: seq<Bet>, o: Outcome): nat {
    if |bets| == 0 then 0
    else (if bets[0].prediction == o then bets[0].amount else 0) + SideTotal(bets[1..], o)
  }

  lemma {:induction false} SideTotalAppend(bets: seq<Bet>, b: Bet, o: Outcome)
    ensures SideTotal(bets + [b], o) == SideTotal(bets, o) + (if b.prediction == o then b.amount else 0)
    decreases |bets|
  {
    if |bets| == 0 {
      assert bets + [b] == [b];
      assert [b][1..] == [];
    } else {
      assert (bets + [b])[1..] == bets[1..] + [b];
      SideTotalAppend(bets[1..], b, o);
    }
  }

  /** The stored market `m` under key `id` agrees with its bet list: each side's pool is
      the (saturated) sum of that side's stakes and the total pool is the (saturated) sum
      of the two sides. The outcome and resolution time are present exactly when Resolved,
      and the derived-only status `Closed` is never stored. */
  ghost predicate WellFormed(m: Market, id: nat, bets: seq<Bet>) {
    && m.id == id
    && m.status != Closed
    && m.upPool == Cap(SideTotal(bets, Up))
    && m.downPool == Cap(SideTotal(bets, Down))
    && m.totalPool == Cap(m.upPool + m.downPool)
    && (m.outcome.Some? <==> m.status == Resolved)
    && (m.resolvedAt.Some? <==> m.status == Resolved)
  }

  ghost predicate Valid(s: State) {
    && (forall id :: id in s.markets ==> id < s.nextMarketId)
    && (forall id :: id in s.markets ==> WellFormed(s.markets[id], id, GetBets(s, id)))
    && (forall id :: id in s.bets ==> id in s.markets)
  }

  /** When no side has saturated, the pools are exact: total == up + down. */
  lemma {:induction false} PoolsExact(s: State, id: nat)
    requires Valid(s) && id in s.markets
    requires SideTotal(GetBets(s, id), Up) + SideTotal(GetBets(s, id), Down) <= AMOUNT_MAX
    ensures s.markets[id].totalPool == s.markets[id].upPool + s.markets[id].downPool
    ensures s.markets[id].upPool == SideTotal(GetBets(s, id), Up)
    ensures s.markets[id].downPool == SideTotal(GetBets(s, id), Down)
  {
    assert WellFormed(s.markets[id], id, GetBets(s, id));
  }

  lemma EmptyIsValid()
    ensures Valid(Empty())
  {
  }

  /** Adding a bet's stake to its market keeps the market in step with its bet list. */
  lemma {:induction false} AddStakeWellFormed(m: Market, id: nat, bets: seq<Bet>, b: Bet)
    requires WellFormed(m, id, bets)
    ensures WellFormed(AddStake(m, b.prediction, b.amount), id, bets + [b])
  {
    SideTotalAppend(bets, b, Up);
    SideTotalAppend(bets, b, Down);
    CapAbsorbs(SideTotal(bets, b.prediction), b.amount);
    CapAbsorbs(m.upPool + m.downPool, b.amount);
  }

  lemma {:induction false} PlaceBetPreservesValid(s: State, caller: Option<Account>, now: Timestamp, op: MarketOperation)
    requires Valid(s) && op.PlaceBet?
    ensures Valid(ExecPlaceBet(s, caller, now, op).state)
  {
    var r := ExecPlaceBet(s, caller, now, op);
    if r.response == Ok {
      var id := op.marketId;
      var b := Bet(id, caller.value, op.prediction, op.amount, now, false);
      assert WellFormed(s.markets[id], id, GetBets(s, id));
      AddStakeWellFormed(s.markets[id], id, GetBets(s, id), b);
      forall k | k in r.state.markets
        ensures WellFormed(r.state.markets[k], k, GetBets(r.state, k))
      {
        if k != id {
          assert r.state.markets[k] == s.markets[k];
        }
      }
    }
  }

  lemma CreatePreservesValid(s: State, caller: Option<Account>, now: Timestamp, op: MarketOperation)
    requires Valid(s) && op.CreateMarket?
    ensures Valid(ExecCreateMarket(s, caller, now, op).state)
  {
    var r := ExecCreateMarket(s, caller, now, op);
    if r.response.MarketId? {
      var id := s.nextMarketId;
      assert id !in s.bets;
      assert WellFormed(r.state.markets[id], id, GetBets(r.state, id));
      forall k | k in r.state.markets
        ensures WellFormed(r.state.markets[k], k, GetBets(r.state, k))
      {
        if k != id {
          assert GetMarket(r.state, k) == GetMarket(s, k);
        }
      }
    }
  }

  /** Resolving or cancelling only relabels an Active market, so the pools still match. */
  lemma ResolvePreservesValid(s: State, caller: Option<Account>, now: Timestamp, op: MarketOperation)
    requires Valid(s) && op.ResolveMarket?
    ensures Valid(ExecResolveMarket(s, caller, now, op).state)
  {
    if ExecResolveMarket(s, caller, now, op).response == Ok {
      assert WellFormed(s.markets[op.marketId], op.marketId, GetBets(s, op.marketId));
    }
  }

  lemma CancelPreservesValid(s: State, caller: Option<Account>, op: MarketOperation)
    requires Valid(s) && op.CancelMarket?
    ensures Valid(ExecCancelMarket(s, caller, op).state)
  {
    if ExecCancelMarket(s, caller, op).response == Ok {
      assert WellFormed(s.markets[op.marketId], op.marketId, GetBets(s, op.marketId));
    }
  }

  lemma {:induction false} ExecPreservesValid(s: State, caller: Option<Account>, now: Timestamp, op: MarketOperation)
    requires Valid(s)
    ensures Valid(Exec(s, caller, now, op).state)
  {
    match op
    case CreateMarket(_, _, _, _, _) =>
      CreatePreservesValid(s, caller, now, op);
    case PlaceBet(_, _, _) =>
      PlaceBetPreservesValid(s, caller, now, op);
    case ResolveMarket(_, _) =>
      ResolvePreservesValid(s, caller, now, op);
    case ClaimWinnings(_) =>
    case CancelMarket(_) =>
      CancelPreservesValid(s, caller, op);
  }

  /** Resolved and Cancelled are terminal: no operation changes such a market's record
      (status, outcome, pools) or its bet list. */
  lemma {:induction false} TerminalIsFinal(s: State, caller: Option<Account>, now: Timestamp, op: MarketOperation, id: nat)
    requires Valid(s) && id in s.markets && s.markets[id].status != Active
    ensures id in Exec(s, caller, now, op).state.markets
    ensures Exec(s, caller, now, op).state.markets[id] == s.markets[id]
    ensures GetBets(Exec(s, caller, now, op).state, id) == GetBets(s, id)
  {
    var r := Exec(s, caller, now, op);
    match op
    case CreateMarket(_, _, _, _, _) =>
      if r.response.MarketId? {
        assert id != s.nextMarketId;
        assert GetMarket(r.state, id) == GetMarket(s, id);
      }
    case PlaceBet(_, _, _) =>
      if r.response == Ok {
        assert op.marketId != id;
        assert WellFormed(s.markets[op.marketId], op.marketId, GetBets(s, op.marketId));
      }
    case ResolveMarket(_, _) =>
      if r.response == Ok {
        assert WellFormed(s.markets[op.marketId], op.marketId, GetBets(s, op.marketId));
      }
    case ClaimWinnings(_) =>
    case CancelMarket(_) =>
      if r.response == Ok {
        assert WellFormed(s.markets[op.marketId], op.marketId, GetBets(s, op.marketId));
      }
  }

  /** A market exists forever once created, and markets stay under their keys. */
  lemma {:induction false} MarketsPersist(s: State, caller: Option<Account>, now: Timestamp, op: MarketOperation, id: nat)
    requires Valid(s) && id in s.markets
    ensures id in Exec(s, caller, now, op).state.markets
    ensures Exec(s, caller, now, op).state.markets[id].creator == s.markets[id].creator
    ensures s.markets[id].status != Active ==> Exec(s, caller, now, op).state.markets[id].status == s.markets[id].status
  {
    var r := Exec(s, caller, now, op);
    if s.markets[id].status != Active {
      TerminalIsFinal(s, caller, now, op, id);
    } else if r.response.MarketId? {
      assert GetMarket(r.state, id) == GetMarket(s, id);
    } else if !r.response.Error? {
      assert WellFormed(s.markets[id], id, GetBets(s, id));
      var k := op.marketId;
      assert WellFormed(s.markets[k], k, GetBets(s, k));
    }
  }

  /** A claim mark is never removed. */
  lemma ClaimsPersist(s: State, caller: Option<Account>, now: Timestamp, op: MarketOperation, id: nat, a: Account)
    requires HasClaimed(s, id, a)
    ensures HasClaimed(Exec(s, caller, now, op).state, id, a)
  {
  }

  /** A second resolution of the same market is refused and changes nothing. */
  lemma {:induction false} ResolveIsOneShot(s: State, c1: Option<Account>, t1: Timestamp, c2: Option<Account>, t2: Timestamp,
                                            id: nat, o1: Outcome, o2: Outcome)
    requires Valid(s)
    requires Exec(s, c1, t1, ResolveMarket(id, o1)).response == Ok
    ensures var s1 := Exec(s, c1, t1, ResolveMarket(id, o1)).state;
            && s1.markets[id].outcome == Some(o1)
            && Exec(s1, c2, t2, ResolveMarket(id, o2)).state == s1
            && (c2.Some? ==> Exec(s1, c2, t2, ResolveMarket(id, o2)).response == Error(AlreadyResolvedOrCancelled))
  {
    assert WellFormed(s.markets[id], id, GetBets(s, id));
  }

  /** Cancellation changes only the status: pools and bets stay as they were and nothing
      is refunded, so no bettor of a cancelled market can ever be paid. */
  lemma {:induction false} CancelledMarketPaysNothing(s: State, creator: Account, now: Timestamp, id: nat, a: Account, t: Timestamp)
    requires Valid(s)
    requires Exec(s, Some(creator), now, CancelMarket(id)).response == Ok
    ensures var s1 := Exec(s, Some(creator), now, CancelMarket(id)).state;
            && s1.markets[id].status == Cancelled
            && s1.markets[id].totalPool == s.markets[id].totalPool
            && s1.markets[id].upPool == s.markets[id].upPool
            && s1.markets[id].downPool == s.markets[id].downPool
            && GetBets(s1, id) == GetBets(s, id)
            && !Exec(s1, Some(a), t, ClaimWinnings(id)).response.Payout?
  {
    assert WellFormed(s.markets[id], id, GetBets(s, id));
  }

  /** A market past its close time still reads Active, yet refuses bets. */
  lemma ClosedMarketRefusesBets(s: State, a: Account, now: Timestamp, id: nat, o: Outcome, amount: Amount)
    requires id in s.markets && s.markets[id].status == Active && now >= s.markets[id].closesAt
    requires amount >= MIN_BET_AMOUNT
    ensures s.markets[id].IsClosed(now)
    ensures Exec(s, Some(a), now, PlaceBet(id, o, amount)) == Step(s, Error(ClosedForBetting))
  {
  }
}
