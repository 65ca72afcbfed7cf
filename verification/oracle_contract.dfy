/** The oracle application's operations (`oracle/src/contract.rs`). The signer and the
    clock are explicit inputs. The cross-application call to the market is an emitted
    command: the step lists the market operations it sends, and their answers are
    ignored, as in the source. */
module OracleContract {
  import opened Abi
  import opened OracleState
  import MarketState
  import MarketContract

  datatype OracleOperation =
    | SubmitPrice(symbol: string, price: Amount)
    | ResolveMarketAI(marketId: nat, outcome: Outcome, confidence: real, reasoning: string, sources: seq<string>)
    | ResolveMarketManual(marketId: nat, outcome: Outcome)
    | RegisterOracle

  datatype OracleError = Unauthenticated | NotRegistered

  datatype OracleResponse = Ok | Error(error: OracleError)

  datatype Step = Step(state: State, response: OracleResponse, sent: seq<MarketContract.Sent>)

  const MANUAL_CONFIDENCE: real := 100.0
  const MANUAL_REASONING: string := "Manual resolution"

  /** The resolution a call records: a manual one carries full confidence, a fixed
      explanation and no sources. */
  function ResolutionOf(op: OracleOperation, now: Timestamp): (r: OracleResolution)
    requires op.ResolveMarketAI? || op.ResolveMarketManual?
    ensures r.marketId == op.marketId && r.outcome == op.outcome && r.resolvedAt == now
    ensures op.ResolveMarketManual? ==>
              r.confidence == 100.0 && r.reasoning == "Manual resolution" && r.sources == []
    ensures op.ResolveMarketAI? ==>
              r.confidence == op.confidence && r.reasoning == op.reasoning && r.sources == op.sources
  {
    match op
    case ResolveMarketAI(id, o, confidence, reasoning, sources) =>
      OracleResolution(id, o, confidence, reasoning, sources, now)
    case ResolveMarketManual(id, o) =>
      OracleResolution(id, o, MANUAL_CONFIDENCE, MANUAL_REASONING, [], now)
  }

  /** One operation. Every operation needs a signer; all but RegisterOracle also need the
      signer to be a registered oracle. A resolution is recorded first and then forwarded
      to the market as ResolveMarket, and the oracle answers Ok whatever the market does. */
  function Exec(s: State, caller: Option<Account>, now: Timestamp, op: OracleOperation): (r: Step)
    ensures caller.None? ==> r == Step(s, Error(Unauthenticated), [])
    ensures (caller.Some? && !op.RegisterOracle? && !IsOracle(s, caller.value))
              ==> r == Step(s, Error(NotRegistered), [])
    ensures r.response.Error? ==> r.state == s && r.sent == []
    ensures r.response.Ok? <==> caller.Some? && (op.RegisterOracle? || IsOracle(s, caller.value))
    ensures (r.response.Ok? && op.SubmitPrice?) ==>
              r.state == OracleState.SubmitPrice(s, op.symbol, op.price, now) && r.sent == []
    ensures (r.response.Ok? && (op.ResolveMarketAI? || op.ResolveMarketManual?)) ==>
              && r.state == RecordResolution(s, ResolutionOf(op, now))
              && r.sent == [MarketContract.Sent(caller, MarketContract.ResolveMarket(op.marketId, op.outcome))]
    ensures (r.response.Ok? && op.RegisterOracle?) ==>
              r.state == OracleState.RegisterOracle(s, caller.value) && r.sent == []
  {
    match caller
    case None => Step(s, Error(Unauthenticated), [])
    case Some(signer) =>
      if op.RegisterOracle? then Step(OracleState.RegisterOracle(s, signer), Ok, [])
      else if !IsOracle(s, signer) then Step(s, Error(NotRegistered), [])
      else
        match op
        case SubmitPrice(symbol, price) => Step(OracleState.SubmitPrice(s, symbol, price, now), Ok, [])
        case ResolveMarketAI(id, o, _, _, _) =>
          Step(RecordResolution(s, ResolutionOf(op, now)), Ok, [MarketContract.Sent(caller, MarketContract.ResolveMarket(id, o))])
        case ResolveMarketManual(id, o) =>
          Step(RecordResolution(s, ResolutionOf(op, now)), Ok, [MarketContract.Sent(caller, MarketContract.ResolveMarket(id, o))])
  }

  /** Registration is open: any signer can make itself an oracle, after which its
      submissions are accepted. */
  lemma SelfRegistrationSuffices(s: State, a: Account, t1: Timestamp, t2: Timestamp, symbol: string, price: Amount)
    ensures var s1 := Exec(s, Some(a), t1, RegisterOracle).state;
            && Exec(s, Some(a), t1, RegisterOracle).response == Ok
            && Exec(s1, Some(a), t2, SubmitPrice(symbol, price)).response == Ok
            && GetPrice(Exec(s1, Some(a), t2, SubmitPrice(symbol, price)).state, symbol) == Some(price)
  {
  }

  /** Every operation keeps the resolution counter at or above the number of markets with
      a recorded resolution. */
  lemma ExecKeepsCount(s: State, caller: Option<Account>, now: Timestamp, op: OracleOperation)
    requires CountCovers(s)
    ensures CountCovers(Exec(s, caller, now, op).state)
    ensures Exec(s, caller, now, op).state.resolutionCount >= s.resolutionCount
  {
    var r := Exec(s, caller, now, op);
    if r.response.Ok? && (op.ResolveMarketAI? || op.ResolveMarketManual?) {
      RecordKeepsCount(s, ResolutionOf(op, now));
    }
  }

  /** The two applications together: a registered oracle's manual resolution, delivered
      to the market with the oracle's authentication, resolves an Active market to the
      same outcome the oracle recorded. */
  lemma ManualResolutionReachesMarket(s: State, m: MarketState.State, a: Account, now: Timestamp,
                                      id: nat, o: Outcome)
    requires IsOracle(s, a)
    requires id in m.markets && m.markets[id].status == Active && m.markets[id].id == id
    ensures var r := Exec(s, Some(a), now, ResolveMarketManual(id, o));
            && r.state.resolutions[id].outcome == o
            && |r.sent| == 1
            && var mr := MarketContract.Exec(m, r.sent[0].signer, now, r.sent[0].op);
               && mr.response == MarketContract.Ok
               && mr.state.markets[id].status == Resolved
               && mr.state.markets[id].outcome == Some(o)
  {
  }
}
