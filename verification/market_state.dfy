/** The market application's store (`market/src/state.rs`): markets keyed by a
    sequential id, an append-only bet list per market, the platform-fee register and
    the claim map. Storage writes are modelled as infallible map updates. */
module MarketState {
  import opened Abi

  /** The failures the market application reports, one per message of the source. */
  datatype MarketError =
    | Unauthenticated
    | DurationTooShort
    | DurationTooLong
    | BetTooSmall
    | MarketNotFound(id: nat)
    | ClosedForBetting
    | AlreadyResolvedOrCancelled
    | AlreadyClaimed
    | NotResolved
    | NoOutcome
    | NoWinnings
    | NotCreator
    | CannotCancel

  datatype State = State(
    markets: map<nat, Market>,
    bets: map<nat, seq<Bet>>,
    nextMarketId: nat,
    platformFees: Amount,
    claimed: map<(nat, Account), bool>)

  /** The store of a freshly instantiated application: every view at its default. */
  function Empty(): (r: State)
    ensures r.nextMarketId == 0 && r.platformFees == 0
    ensures forall id :: GetMarket(r, id) == Failure(MarketNotFound(id))
    ensures forall id :: GetBets(r, id) == []
    ensures forall id, a :: !HasClaimed(r, id, a)
  {
    State(map[], map[], 0, 0, map[])
  }

  /** Stores `m` under the next id (overwriting its `id` field) and advances the counter. */
  function CreateMarket(s: State, m: Market): (r: (State, nat))
    ensures r.1 == s.nextMarketId && r.0.nextMarketId == s.nextMarketId + 1
    ensures GetMarket(r.0, r.1) == Success(m.(id := r.1))
    ensures forall id :: id != r.1 ==> GetMarket(r.0, id) == GetMarket(s, id)
    ensures r.0.bets == s.bets && r.0.platformFees == s.platformFees && r.0.claimed == s.claimed
  {
    var id := s.nextMarketId;
    (s.(markets := s.markets[id := m.(id := id)], nextMarketId := id + 1), id)
  }

  function GetMarket(s: State, id: nat): (r: Result<Market, MarketError>)
    ensures r.Success? <==> id in s.markets
    ensures r.Success? ==> r.value == s.markets[id]
    ensures r.Failure? ==> r.error == MarketNotFound(id)
  {
    if id in s.markets then Success(s.markets[id]) else Failure(MarketNotFound(id))
  }

  /** Writes `m` back under its own id; every other market reads as before. */
  function UpdateMarket(s: State, m: Market): (r: State)
    ensures GetMarket(r, m.id) == Success(m)
    ensures forall id :: id != m.id ==> GetMarket(r, id) == GetMarket(s, id)
    ensures r.bets == s.bets && r.nextMarketId == s.nextMarketId
    ensures r.platformFees == s.platformFees && r.claimed == s.claimed
  {
    s.(markets := s.markets[m.id := m])
  }

  /** The bets of a market in arrival order; a market without bets reads as empty. */
  function GetBets(s: State, id: nat): (r: seq<Bet>)
    ensures id !in s.bets ==> r == []
    ensures id in s.bets ==> r == s.bets[id]
  {
    if id in s.bets then s.bets[id] else []
  }

  /** Appends `b` to its market's bet list; earlier bets and other lists are untouched. */
  function PlaceBet(s: State, b: Bet): (r: State)
    ensures GetBets(r, b.marketId) == GetBets(s, b.marketId) + [b]
    ensures forall id :: id != b.marketId ==> GetBets(r, id) == GetBets(s, id)
    ensures r.markets == s.markets && r.nextMarketId == s.nextMarketId
    ensures r.platformFees == s.platformFees && r.claimed == s.claimed
  {
    s.(bets := s.bets[b.marketId := GetBets(s, b.marketId) + [b]])
  }

  /** A bet by `bettor` on the outcome `o`. */
  predicate Matches(b: Bet, bettor: Account, o: Outcome) {
    b.bettor == bettor && b.prediction == o
  }

  /** `i` is the position of the first bet by `bettor` on `o`. */
  ghost predicate IsFirstMatch(bets: seq<Bet>, i: nat, bettor: Account, o: Outcome) {
    && i < |bets|
    && Matches(bets[i], bettor, o)
    && forall j :: 0 <= j < i ==> !Matches(bets[j], bettor, o)
  }

  /** The linear search of the source: the position of the first matching bet, if any. */
  function FirstMatch(bets: seq<Bet>, bettor: Account, o: Outcome): (r: Option<nat>)
    ensures r.None? <==> forall i :: 0 <= i < |bets| ==> !Matches(bets[i], bettor, o)
    ensures r.Some? ==> IsFirstMatch(bets, r.value, bettor, o)
  {
    if |bets| == 0 then None
    else if Matches(bets[0], bettor, o) then Some(0)
    else
      match FirstMatch(bets[1..], bettor, o)
      case None => None
      case Some(i) => Some(i + 1)
  }

  /** The stake the settlement uses: that of the first matching bet, zero without one.
      Later bets by the same account on the same side are ignored. */
  function WinningStake(bets: seq<Bet>, bettor: Account, o: Outcome): (r: Amount)
    ensures (forall i :: 0 <= i < |bets| ==> !Matches(bets[i], bettor, o)) ==> r == 0
    ensures forall i: nat {:trigger IsFirstMatch(bets, i, bettor, o)} ::
      IsFirstMatch(bets, i, bettor, o) ==> r == bets[i].amount
  {
    match FirstMatch(bets, bettor, o)
    case None => 0
    case Some(i) =>
      bets[i].amount
  }

  /** Settlement of one claimant: the fee-adjusted proportional share of the total pool,
      floor(stake * total * 95 / (winning * 100)), in unbounded integers. */
  function CalculatePayout(s: State, id: nat, bettor: Account): (r: Result<nat, MarketError>)
    ensures id !in s.markets ==> r == Failure(MarketNotFound(id))
    ensures id in s.markets && s.markets[id].status != Resolved ==> r == Failure(NotResolved)
    ensures (id in s.markets && s.markets[id].status == Resolved && s.markets[id].outcome.None?)
              ==> r == Failure(NoOutcome)
    ensures r.Success? <==>
              id in s.markets && s.markets[id].status == Resolved && s.markets[id].outcome.Some?
    ensures r.Success? ==>
              var m := s.markets[id];
              var o := m.outcome.value;
              var w := m.Pool(o);
              var stake := WinningStake(GetBets(s, id), bettor, o);
              && (stake == 0 || w == 0 ==> r.value == 0)
              && (w > 0 ==> r.value == Share(stake, m.totalPool, w))
  {
    match GetMarket(s, id)
    case Failure(e) => Failure(e)
    case Success(m) =>
      if m.status != Resolved then Failure(NotResolved)
      else if m.outcome.None? then Failure(NoOutcome)
      else
        var o := m.outcome.value;
        var bets := GetBets(s, id);
        match FirstMatch(bets, bettor, o)
        case None => Success(0)
        case Some(i) =>
          var winning := m.Pool(o);
          if winning == 0 then Success(0)
          else Success(Share(bets[i].amount, m.totalPool, winning))
  }

  /** The fee-adjusted share of `total` owed to `stake` out of a winning pool `winning`:
      the multiplication happens before the single division, so only one rounding occurs. */
  function Share(stake: nat, total: nat, winning: nat): nat
    requires winning > 0
  {
    DivNat(MulNat(stake, total) * 95, winning * 100)
  }

  function DivNat(a: nat, b: nat): (r: nat)
    requires b > 0
    ensures r == a / b
  {
    a / b
  }

  function MulNat(a: nat, b: nat): (r: nat)
    ensures r == a * b
  {
    a * b
  }

  /** Whether the pair has been paid; a pair never marked reads as not claimed. */
  predicate HasClaimed(s: State, id: nat, bettor: Account): (r: bool)
    ensures (id, bettor) !in s.claimed ==> !r
    ensures r <==> (id, bettor) in s.claimed && s.claimed[(id, bettor)]
  {
    (id, bettor) in s.claimed && s.claimed[(id, bettor)]
  }

  /** Records that (`id`, `bettor`) has been paid; no other pair changes. */
  function MarkClaimed(s: State, id: nat, bettor: Account): (r: State)
    ensures HasClaimed(r, id, bettor)
    ensures forall m: nat, a :: (m, a) != (id, bettor) ==> HasClaimed(r, m, a) == HasClaimed(s, m, a)
    ensures r.markets == s.markets && r.bets == s.bets
    ensures r.nextMarketId == s.nextMarketId && r.platformFees == s.platformFees
  {
    s.(claimed := s.claimed[(id, bettor) := true])
  }
}
