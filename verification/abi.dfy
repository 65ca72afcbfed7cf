/** Types, constants and small predicates shared by the market, token, oracle and
    agent applications (the `abi` crate).

    Amounts are u128 attos and timestamps are u64 microseconds; both are modelled as
    bounded naturals so that the source's saturating arithmetic can be stated exactly. */
module Abi {

  datatype Option<+T> = None | Some(value: T)

  /** A recoverable failure carrying a typed error instead of the source's message string. */
  datatype Result<+T, +E> = Success(value: T) | Failure(error: E)

  /** An account owner: an opaque identity that is only ever compared for equality. */
  datatype Account = Account(key: nat)

  const AMOUNT_MAX: nat := 0xFFFF_FFFF_FFFF_FFFF_FFFF_FFFF_FFFF_FFFF
  type Amount = a: nat | a <= AMOUNT_MAX

  const TIME_MAX: nat := 0xFFFF_FFFF_FFFF_FFFF
  type Timestamp = t: nat | t <= TIME_MAX

  /** One display token is 10^18 attos. */
  const ATTOS_PER_TOKEN: nat := 1_000_000_000_000_000_000

  const MIN_BET_AMOUNT: nat := 100_000
  const MARKET_CREATION_FEE: nat := 1_000_000
  const PLATFORM_FEE_PERCENT: nat := 5
  const MIN_MARKET_DURATION_MICROS: nat := 60_000_000
  const MAX_MARKET_DURATION_MICROS: nat := 604_800_000_000
  const DAILY_BONUS_AMOUNT: nat := 100_000_000
  const DAILY_BONUS_COOLDOWN_MICROS: nat := 86_400_000_000

  /** The largest amount not above `n`: what a chain of u128 saturating additions yields. */
  function Cap(n: nat): (r: Amount)
    ensures r <= n
    ensures r == n || r == AMOUNT_MAX
  {
    if n <= AMOUNT_MAX then n else AMOUNT_MAX
  }

  /** u128 `saturating_add` on amounts. */
  function SatAdd(a: Amount, b: Amount): (r: Amount)
    ensures a <= r && b <= r && r <= a + b
    ensures r < a + b ==> r == AMOUNT_MAX
  {
    Cap(a + b)
  }

  /** `saturating_sub`: subtraction that stops at zero. */
  function SatSub(a: nat, b: nat): (r: nat)
    ensures r <= a
    ensures a >= b ==> r + b == a
    ensures a < b ==> r == 0
  {
    if a >= b then a - b else 0
  }

  /** `Timestamp::saturating_add`: a u64 microsecond clock that stops at its maximum. */
  function TimeAdd(t: Timestamp, micros: nat): (r: Timestamp)
    ensures t <= r && r <= t + micros
    ensures r < t + micros ==> r == TIME_MAX
  {
    if t + micros <= TIME_MAX then t + micros else TIME_MAX
  }

  /** Adding to a saturated sum saturates the same way as adding to the exact sum. */
  lemma CapAbsorbs(n: nat, a: nat)
    ensures Cap(Cap(n) + a) == Cap(n + a)
  {
  }

  lemma MulSucc(n: nat, x: nat)
    ensures (n + 1) * x == n * x + x
  {
  }

  /** The duration bounds, the minimum stake and the bonus cooldown in their own units. */
  lemma ConstantsAgree()
    ensures MIN_MARKET_DURATION_MICROS == 60 * 1_000_000
    ensures MAX_MARKET_DURATION_MICROS == 7 * 24 * 60 * 60 * 1_000_000
    ensures MIN_MARKET_DURATION_MICROS < MAX_MARKET_DURATION_MICROS
    ensures DAILY_BONUS_COOLDOWN_MICROS == 24 * 60 * 60 * 1_000_000
    ensures MIN_BET_AMOUNT == 100_000 && PLATFORM_FEE_PERCENT == 5
  {
  }

  // ---------------------------------------------------------------------------
  // Markets and bets
  // ---------------------------------------------------------------------------

  datatype MarketCategory = Crypto | Sports | Politics | Weather | AI | Custom

  /** `Closed` exists in the enumeration but no operation ever stores it. */
  datatype MarketStatus = Active | Closed | Resolved | Cancelled

  datatype Outcome = Up | Down

  datatype OracleMode = AIResolved | Manual | Decentralized

  datatype Market = Market(
    id: nat,
    creator: Account,
    question: string,
    description: string,
    category: MarketCategory,
    status: MarketStatus,
    createdAt: Timestamp,
    closesAt: Timestamp,
    resolvedAt: Option<Timestamp>,
    outcome: Option<Outcome>,
    totalPool: Amount,
    upPool: Amount,
    downPool: Amount,
    oracleMode: OracleMode,
    resolutionSource: Option<string>)
  {
    /** Open for betting: stored as Active and the close time not yet reached. */
    predicate IsActive(now: Timestamp): (r: bool)
      ensures status != Active ==> !r
      ensures r ==> now < closesAt
      ensures status == Active && now < closesAt ==> r
    {
      status == Active && now < closesAt
    }

    /** Derived-closed: still stored as Active, but the close time has passed. */
    predicate IsClosed(now: Timestamp): (r: bool)
      ensures r ==> !IsActive(now)
      ensures status == Active ==> (r <==> !IsActive(now))
      ensures status != Active ==> !r && !IsActive(now)
    {
      status == Active && now >= closesAt
    }

    /** Whether a bet placed at `now` is accepted. */
    predicate CanBet(now: Timestamp): (r: bool)
      ensures r <==> IsActive(now)
      ensures r ==> !IsClosed(now)
    {
      status == Active && now < closesAt
    }

    /** The pool that backs the given outcome. */
    function Pool(o: Outcome): Amount {
      match o
      case Up => upPool
      case Down => downPool
    }
  }

  /** Time only closes a market: once derived-closed it stays closed and never reads
      active again, while its stored status is unchanged. */
  lemma ClosingIsPermanent(m: Market, t1: Timestamp, t2: Timestamp)
    requires t1 <= t2 && m.IsClosed(t1)
    ensures m.IsClosed(t2) && !m.IsActive(t2) && !m.CanBet(t2)
  {
  }

  datatype Bet = Bet(
    marketId: nat,
    bettor: Account,
    prediction: Outcome,
    amount: Amount,
    placedAt: Timestamp,
    claimed: bool)

  /** A resolution as the oracle records it. The f32 confidence is carried as a `real`
      and never computed with. */
  datatype OracleResolution = OracleResolution(
    marketId: nat,
    outcome: Outcome,
    confidence: real,
    reasoning: string,
    sources: seq<string>,
    resolvedAt: Timestamp)

  // ---------------------------------------------------------------------------
  // AI agents
  // ---------------------------------------------------------------------------

  datatype AgentStrategy = Conservative | Moderate | Aggressive | Contrarian | AIAnalysis

  /** An autonomous betting agent; the floating-point `accuracy` field is not modelled. */
  datatype AIAgent = AIAgent(
    id: nat,
    name: string,
    strategy: AgentStrategy,
    totalBets: nat,
    wins: nat,
    losses: nat,
    totalProfit: Amount,
    active: bool)
  {
    /** Records one settled bet: it is counted once, as exactly one win or one loss. */
    function UpdateStats(won: bool, profit: Amount): (r: AIAgent)
      ensures r.totalBets == totalBets + 1
      ensures r.wins + r.losses == wins + losses + 1
      ensures won <==> r.wins == wins + 1
      ensures !won <==> r.losses == losses + 1
      ensures wins <= r.wins && losses <= r.losses
      ensures totalProfit <= r.totalProfit <= totalProfit + profit
      ensures r.totalProfit < totalProfit + profit ==> r.totalProfit == AMOUNT_MAX
      ensures r.id == id && r.name == name && r.strategy == strategy && r.active == active
      ensures wins + losses <= totalBets ==> r.wins + r.losses <= r.totalBets
    {
      var counted := this.(totalBets := totalBets + 1, totalProfit := SatAdd(totalProfit, profit));
      if won then counted.(wins := wins + 1) else counted.(losses := losses + 1)
    }
  }
}
