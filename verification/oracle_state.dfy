/** The oracle application's store (`oracle/src/state.rs`): the latest price per symbol,
    the recorded resolution per market, the set of registered oracles and a counter of
    recorded resolutions. */
module OracleState {
  import opened Abi

  datatype PriceFeed = PriceFeed(symbol: string, price: Amount, timestamp: nat)

  datatype State = State(
    priceFeeds: map<string, PriceFeed>,
    resolutions: map<nat, OracleResolution>,
    oracles: map<Account, bool>,
    resolutionCount: nat)

  function Empty(): (r: State)
    ensures forall a :: !IsOracle(r, a)
    ensures forall sym :: GetPrice(r, sym) == None
    ensures r.resolutionCount == 0 && r.resolutions == map[]
  {
    State(map[], map[], map[], 0)
  }

  /** Stores `price` as the latest for `symbol`; every other symbol reads as before. */
  function SubmitPrice(s: State, symbol: string, price: Amount, timestamp: nat): (r: State)
    ensures GetPrice(r, symbol) == Some(price)
    ensures r.priceFeeds[symbol] == PriceFeed(symbol, price, timestamp)
    ensures forall sym :: sym != symbol ==> GetPrice(r, sym) == GetPrice(s, sym)
    ensures r.resolutions == s.resolutions && r.oracles == s.oracles && r.resolutionCount == s.resolutionCount
  {
    s.(priceFeeds := s.priceFeeds[symbol := PriceFeed(symbol, price, timestamp)])
  }

  /** The last price submitted for `symbol`, none if there never was one. */
  function GetPrice(s: State, symbol: string): (r: Option<Amount>)
    ensures r.None? <==> symbol !in s.priceFeeds
    ensures r.Some? ==> r.value == s.priceFeeds[symbol].price
  {
    if symbol in s.priceFeeds then Some(s.priceFeeds[symbol].price) else None
  }

  /** Records `res` under its market, replacing any earlier entry, and counts it. The
      counter counts recordings, not markets. */
  function RecordResolution(s: State, res: OracleResolution): (r: State)
    ensures r.resolutions == s.resolutions[res.marketId := res]
    ensures r.resolutionCount == s.resolutionCount + 1
    ensures |r.resolutions| <= |s.resolutions| + 1
    ensures r.priceFeeds == s.priceFeeds && r.oracles == s.oracles
  {
    s.(resolutions := s.resolutions[res.marketId := res], resolutionCount := s.resolutionCount + 1)
  }

  function RegisterOracle(s: State, a: Account): (r: State)
    ensures IsOracle(r, a)
    ensures forall b :: b != a ==> IsOracle(r, b) == IsOracle(s, b)
    ensures IsOracle(s, a) ==> forall b :: IsOracle(r, b) == IsOracle(s, b)
    ensures r.priceFeeds == s.priceFeeds && r.resolutions == s.resolutions && r.resolutionCount == s.resolutionCount
  {
    s.(oracles := s.oracles[a := true])
  }

  /** Registered exactly when marked true; an account never registered is not an oracle. */
  predicate IsOracle(s: State, a: Account): (r: bool)
    ensures a !in s.oracles ==> !r
  {
    a in s.oracles && s.oracles[a]
  }

  /** Registering twice is the same as registering once. */
  lemma RegisterIsIdempotent(s: State, a: Account)
    ensures RegisterOracle(RegisterOracle(s, a), a) == RegisterOracle(s, a)
  {
  }

  /** The counter never falls below the number of markets with a recorded resolution. */
  ghost predicate CountCovers(s: State) {
    |s.resolutions| <= s.resolutionCount
  }

  lemma RecordKeepsCount(s: State, res: OracleResolution)
    requires CountCovers(s)
    ensures CountCovers(RecordResolution(s, res))
  {
  }

  /** Recording the same market twice keeps one entry, the later one, yet counts two. */
  lemma RecordTwiceCountsTwice(s: State, r1: OracleResolution, r2: OracleResolution)
    requires r1.marketId == r2.marketId
    ensures var t := RecordResolution(RecordResolution(s, r1), r2);
            && t.resolutions[r2.marketId] == r2
            && t.resolutions.Keys == s.resolutions.Keys + {r1.marketId}
            && t.resolutionCount == s.resolutionCount + 2
  {
  }
}
