/** The market application's operation handler (`market/src/contract.rs`) as a step
    function `Exec(s, caller, now, op)`. The authenticated signer and the system time
    are explicit inputs. The market never calls the token ledger: bets debit nothing and
    payouts are only reported. */
module MarketContract {
  import opened Abi
  import opened MarketState

  datatype MarketOperation =
    | CreateMarket(question: string, description: string, category: MarketCategory,
                   durationMinutes: nat, oracleMode: OracleMode)
    | PlaceBet(marketId: nat, prediction: Outcome, amount: Amount)
    | ResolveMarket(marketId: nat, outcome: Outcome)
    | ClaimWinnings(marketId: nat)
    | CancelMarket(marketId: nat)

  datatype MarketResponse = Ok | MarketId(id: nat) | Payout(amount: nat) | Error(error: MarketError)

  datatype Step = Step(state: State, response: MarketResponse)

  /** A market operation another application sends on behalf of its own signer; the
      authentication is forwarded with the call. */
  datatype Sent = Sent(signer: Option<Account>, op: MarketOperation)

  const MICROS_PER_MINUTE: nat := 60 * 1_000_000

  /** A market that just opened: Active, empty pools, no outcome, closing `duration` after `now`. */
  function NewMarket(op: MarketOperation, creator: Account, now: Timestamp): Market
    requires op.CreateMarket?
  {
    Market(
      0, creator, op.question, op.description, op.category, Active, now,
      TimeAdd(now, op.durationMinutes * MICROS_PER_MINUTE), None, None, 0, 0, 0,
      op.oracleMode, None)
  }

  function ExecCreateMarket(s: State, caller: Option<Account>, now: Timestamp, op: MarketOperation): (r: Step)
    requires op.CreateMarket?
    ensures caller.None? ==> r == Step(s, Error(Unauthenticated))
    ensures r.response.Error? ==> r.state == s
    ensures r.response.MarketId? <==>
              caller.Some? &&
              MIN_MARKET_DURATION_MICROS <= op.durationMinutes * MICROS_PER_MINUTE <= MAX_MARKET_DURATION_MICROS
    ensures (caller.Some? && op.durationMinutes * MICROS_PER_MINUTE < MIN_MARKET_DURATION_MICROS)
              ==> r.response == Error(DurationTooShort)
    ensures (caller.Some? && op.durationMinutes * MICROS_PER_MINUTE > MAX_MARKET_DURATION_MICROS)
              ==> r.response == Error(DurationTooLong)
    ensures r.response.MarketId? ==>
              r.response.id == s.nextMarketId && r.state.nextMarketId == s.nextMarketId + 1
              && s.nextMarketId in r.state.markets
    ensures r.response.MarketId? && s.nextMarketId in r.state.markets ==>
              var id := s.nextMarketId;
              var m := r.state.markets[id];
              && m == NewMarket(op, caller.value, now).(id := id)
              && m.question == op.question && m.description == op.description
              && m.category == op.category && m.oracleMode == op.oracleMode
              && m.resolutionSource.None?
              && m.id == id && m.creator == caller.value && m.status == Active
              && m.totalPool == 0 && m.upPool == 0 && m.downPool == 0
              && m.outcome.None? && m.resolvedAt.None?
              && m.createdAt == now
              && m.closesAt == TimeAdd(now, op.durationMinutes * MICROS_PER_MINUTE)
              && (forall k :: k != id ==> GetMarket(r.state, k) == GetMarket(s, k))
              && r.state.bets == s.bets && r.state.claimed == s.claimed
              && r.state.platformFees == s.platformFees
  {
    match caller
    case None => Step(s, Error(Unauthenticated))
    case Some(creator) =>
      var duration := op.durationMinutes * MICROS_PER_MINUTE;
      if duration < MIN_MARKET_DURATION_MICROS then Step(s, Error(DurationTooShort))
      else if duration > MAX_MARKET_DURATION_MICROS then Step(s, Error(DurationTooLong))
      else
        var (s', id) := MarketState.CreateMarket(s, NewMarket(op, creator, now));
        Step(s', MarketId(id))
  }

  /** The market after a stake of `amount` on `prediction`: the total and that side's pool
      grow (saturating), the other side's pool stays. */
  function AddStake(m: Market, prediction: Outcome, amount: Amount): (r: Market)
    ensures r.totalPool == SatAdd(m.totalPool, amount)
    ensures r.Pool(prediction) == SatAdd(m.Pool(prediction), amount)
    ensures prediction == Up ==> r.downPool == m.downPool
    ensures prediction == Down ==> r.upPool == m.upPool
    ensures r == m.(totalPool := r.totalPool, upPool := r.upPool, downPool := r.downPool)
  {
    var m' := m.(totalPool := SatAdd(m.totalPool, amount));
    match prediction
    case Up => m'.(upPool := SatAdd(m.upPool, amount))
    case Down => m'.(downPool := SatAdd(m.downPool, amount))
  }

  function ExecPlaceBet(s: State, caller: Option<Account>, now: Timestamp, op: MarketOperation): (r: Step)
    requires op.PlaceBet?
    ensures caller.None? ==> r == Step(s, Error(Unauthenticated))
    ensures r.response.Error? ==> r.state == s
    ensures caller.Some? && op.amount < MIN_BET_AMOUNT ==> r.response == Error(BetTooSmall)
    ensures (caller.Some? && op.amount >= MIN_BET_AMOUNT && op.marketId !in s.markets)
              ==> r.response == Error(MarketNotFound(op.marketId))
    ensures (caller.Some? && op.amount >= MIN_BET_AMOUNT && op.marketId in s.markets
               && !s.markets[op.marketId].CanBet(now))
              ==> r.response == Error(ClosedForBetting)
    ensures r.response == Ok <==>
              caller.Some? && op.amount >= MIN_BET_AMOUNT && op.marketId in s.markets
              && s.markets[op.marketId].CanBet(now)
    ensures r.response.Ok? || r.response.Error?
    ensures r.response == Ok ==>
              var id := op.marketId;
              && (var m := s.markets[id];
                  r.state.markets == s.markets[m.id := AddStake(m, op.prediction, op.amount)])
              && GetBets(r.state, id)
                 == GetBets(s, id) + [Bet(id, caller.value, op.prediction, op.amount, now, false)]
              && (forall k :: k != id ==> GetBets(r.state, k) == GetBets(s, k))
              && r.state.nextMarketId == s.nextMarketId && r.state.claimed == s.claimed
              && r.state.platformFees == s.platformFees
  {
    match caller
    case None => Step(s, Error(Unauthenticated))
    case Some(bettor) =>
      if op.amount < MIN_BET_AMOUNT then Step(s, Error(BetTooSmall))
      else
        match GetMarket(s, op.marketId)
        case Failure(e) => Step(s, Error(e))
        case Success(m) =>
          if !m.CanBet(now) then Step(s, Error(ClosedForBetting))
          else
            var s1 := UpdateMarket(s, AddStake(m, op.prediction, op.amount));
            var bet := Bet(op.marketId, bettor, op.prediction, op.amount, now, false);
            Step(MarketState.PlaceBet(s1, bet), Ok)
  }

  /** Resolution checks only that a signer is present and that the market is Active: the
      signer's identity and the close time play no part. */
  function ExecResolveMarket(s: State, caller: Option<Account>, now: Timestamp, op: MarketOperation): (r: Step)
    requires op.ResolveMarket?
    ensures caller.None? ==> r == Step(s, Error(Unauthenticated))
    ensures r.response.Error? ==> r.state == s
    ensures caller.Some? && op.marketId !in s.markets ==> r.response == Error(MarketNotFound(op.marketId))
    ensures (caller.Some? && op.marketId in s.markets && s.markets[op.marketId].status != Active)
              ==> r.response == Error(AlreadyResolvedOrCancelled)
    ensures r.response == Ok <==>
              caller.Some? && op.marketId in s.markets && s.markets[op.marketId].status == Active
    ensures r.response.Ok? || r.response.Error?
    ensures r.response == Ok ==>
              var m := s.markets[op.marketId];
              && r.state.markets == s.markets[m.id := m.(status := Resolved,
                                                                  outcome := Some(op.outcome),
                                                                  resolvedAt := Some(now))]
              && r.state.platformFees == SatAdd(s.platformFees, m.totalPool * PLATFORM_FEE_PERCENT / 100)
              && r.state.bets == s.bets && r.state.claimed == s.claimed
              && r.state.nextMarketId == s.nextMarketId
  {
    match caller
    case None => Step(s, Error(Unauthenticated))
    case Some(_) =>
      match GetMarket(s, op.marketId)
      case Failure(e) => Step(s, Error(e))
      case Success(m) =>
        if m.status != Active then Step(s, Error(AlreadyResolvedOrCancelled))
        else
          var resolved := m.(status := Resolved, outcome := Some(op.outcome), resolvedAt := Some(now));
          var fee := m.totalPool * 5 / 100;
          var s1 := s.(platformFees := SatAdd(s.platformFees, fee));
          Step(UpdateMarket(s1, resolved), Ok)
  }

  /** Record-then-report: the pair is marked claimed in the same step that reports the
      payout, and a zero payout is refused without marking anything. */
  function ExecClaimWinnings(s: State, caller: Option<Account>, op: MarketOperation): (r: Step)
    requires op.ClaimWinnings?
    ensures caller.None? ==> r == Step(s, Error(Unauthenticated))
    ensures r.response.Error? ==> r.state == s
    ensures caller.Some? && HasClaimed(s, op.marketId, caller.value) ==> r.response == Error(AlreadyClaimed)
    ensures (caller.Some? && !HasClaimed(s, op.marketId, caller.value)
               && CalculatePayout(s, op.marketId, caller.value).Failure?)
              ==> r.response == Error(CalculatePayout(s, op.marketId, caller.value).error)
    ensures (caller.Some? && CalculatePayout(s, op.marketId, caller.value) == Success(0))
              ==> r.response.Error?
    ensures (caller.Some? && !HasClaimed(s, op.marketId, caller.value)
               && CalculatePayout(s, op.marketId, caller.value) == Success(0))
              ==> r.response == Error(NoWinnings)
    ensures r.response.Payout? <==>
              && caller.Some? && !HasClaimed(s, op.marketId, caller.value)
              && CalculatePayout(s, op.marketId, caller.value).Success?
              && CalculatePayout(s, op.marketId, caller.value).value > 0
    ensures r.response.Payout? || r.response.Error?
    ensures r.response.Payout? ==>
              && r.response.amount == CalculatePayout(s, op.marketId, caller.value).value
              && r.state == MarkClaimed(s, op.marketId, caller.value)
              && HasClaimed(r.state, op.marketId, caller.value)
  {
    match caller
    case None => Step(s, Error(Unauthenticated))
    case Some(bettor) =>
      if HasClaimed(s, op.marketId, bettor) then Step(s, Error(AlreadyClaimed))
      else
        match CalculatePayout(s, op.marketId, bettor)
        case Failure(e) => Step(s, Error(e))
        case Success(payout) =>
          if payout == 0 then Step(s, Error(NoWinnings))
          else Step(MarkClaimed(s, op.marketId, bettor), Payout(payout))
  }

  /** Only the creator may cancel, only while Active; the status is the only change and
      no stake is refunded. */
  function ExecCancelMarket(s: State, caller: Option<Account>, op: MarketOperation): (r: Step)
    requires op.CancelMarket?
    ensures caller.None? ==> r == Step(s, Error(Unauthenticated))
    ensures r.response.Error? ==> r.state == s
    ensures caller.Some? && op.marketId !in s.markets ==> r.response == Error(MarketNotFound(op.marketId))
    ensures (caller.Some? && op.marketId in s.markets && s.markets[op.marketId].creator != caller.value)
              ==> r.response == Error(NotCreator)
    ensures (caller.Some? && op.marketId in s.markets && s.markets[op.marketId].creator == caller.value
               && s.markets[op.marketId].status != Active)
              ==> r.response == Error(CannotCancel)
    ensures r.response == Ok <==>
              && caller.Some? && op.marketId in s.markets
              && s.markets[op.marketId].creator == caller.value
              && s.markets[op.marketId].status == Active
    ensures r.response.Ok? || r.response.Error?
    ensures r.response == Ok ==>
              && (var m := s.markets[op.marketId];
                  r.state.markets == s.markets[m.id := m.(status := Cancelled)])
              && r.state.bets == s.bets && r.state.claimed == s.claimed
              && r.state.platformFees == s.platformFees && r.state.nextMarketId == s.nextMarketId
  {
    match caller
    case None => Step(s, Error(Unauthenticated))
    case Some(canceller) =>
      match GetMarket(s, op.marketId)
      case Failure(e) => Step(s, Error(e))
      case Success(m) =>
        if m.creator != canceller then Step(s, Error(NotCreator))
        else if m.status != Active then Step(s, Error(CannotCancel))
        else Step(UpdateMarket(s, m.(status := Cancelled)), Ok)
  }

  /** One operation of the market application. A failed operation leaves the store as it was. */
  function Exec(s: State, caller: Option<Account>, now: Timestamp, op: MarketOperation): (r: Step)
    ensures caller.None? ==> r == Step(s, Error(Unauthenticated))
    ensures r.response.Error? ==> r.state == s
    ensures r.response.MarketId? ==> op.CreateMarket?
    ensures r.response.Payout? ==> op.ClaimWinnings?
  {
    match op
    case CreateMarket(_, _, _, _, _) => ExecCreateMarket(s, caller, now, op)
    case PlaceBet(_, _, _) => ExecPlaceBet(s, caller, now, op)
    case ResolveMarket(_, _) => ExecResolveMarket(s, caller, now, op)
    case ClaimWinnings(_) => ExecClaimWinnings(s, caller, op)
    case CancelMarket(_) => ExecCancelMarket(s, caller, op)
  }
}
