# Prediction market: a Dafny model of the on-chain core

This project models the four on-chain applications of a pooled-wager prediction market, together with the types they share. Each is a sequential, atomic state machine: a state record plus a pure step function `Exec(state, caller, now, op)` that returns the next state and a response.

- **Market** (`market/src/state.rs`, `market/src/contract.rs`):
  - markets are numbered sequentially and each has an append-only bet list;
  - markets move from Active to Resolved or Cancelled;
  - a Resolved market pays each account at most once;
  - the payout is the integer share `floor(stake * total * 95 / (winning * 100))` of the first bet that matches the outcome.
- **Token** (`token/src/state.rs`, `token/src/contract.rs`, `token/src/lib.rs`):
  - a ledger of u128 balances with a `total_supply` register, supporting transfer and mint;
  - the daily bonus, a 24-hour cooldown-gated grant;
  - the initial mint to the chain's super owners.
- **Oracle** (`oracle/src/state.rs`, `oracle/src/contract.rs`):
  - a price feed;
  - a resolution log with a counter;
  - an open registry of oracles;
  - forwarding of resolutions to the market.
- **AI agent** (`ai-agent/src/state.rs`, `ai-agent/src/contract.rs`):
  - agents are numbered sequentially;
  - each agent has bet, win and loss counters and an activity toggle;
  - an agent can forward a bet to the market.
- **Shared types** (`abi/src/lib.rs`): the market, bet and agent records, the status predicates and the constants.

Amounts are u128 attos and timestamps are u64 microseconds. Both are bounded naturals, so `saturating_add` and `saturating_sub` are modelled exactly.

The Linera runtime becomes explicit inputs of each step. These are:
- the authenticated signer, an `Option<Account>`;
- the system time;
- the super owners.

A call to another application becomes a command listed in the step's `sent` field. As in the source, its answer is ignored.

Every error path returns the state unchanged.

Files, one module each:

| file | module | what it holds |
|---|---|---|
| `abi.dfy` | `Abi` | shared datatypes, constants, saturating arithmetic, status predicates, `update_stats` |
| `market_state.dfy` | `MarketState` | the market store and `calculate_payout` |
| `market_contract.dfy` | `MarketContract` | the five market operations |
| `market_lifecycle.dfy` | `MarketLifecycle` | the pool invariant, terminal states, one-shot transitions |
| `settlement.dfy` | `Settlement` | the 95% bound on payouts and the u128 overflow finding |
| `market_run.dfy` | `MarketRun` | properties of arbitrary operation sequences: sequential ids, at most one payout per account, payouts within the pool |
| `bonus.dfy` | `Bonus` | the daily-bonus timer |
| `token_state.dfy` | `TokenState` | the ledger and conservation of the supply |
| `token_contract.dfy` | `TokenContract` | token operations, instantiation, bonus grants over runs |
| `oracle_state.dfy` | `OracleState` | the oracle store |
| `oracle_contract.dfy` | `OracleContract` | oracle operations and the hand-over to the market |
| `agent_state.dfy` | `AgentState` | the agent store |
| `agent_contract.dfy` | `AgentContract` | agent operations and the counter invariant over runs |

## Boundary behaviour

- **Duration bounds.** CreateMarket (market/src/contract.rs:58-64) refuses a duration only when it is strictly below `MIN_MARKET_DURATION_MICROS` or strictly above `MAX_MARKET_DURATION_MICROS`, so both bounds are accepted.
- **First bonus claim.** `DailyBonus::new` (token/src/lib.rs:62-72) starts the clock at `last_claim = 0`, so an account that never claimed waits one cooldown from the epoch: its first claim needs `now >= DAILY_BONUS_COOLDOWN_MICROS`.
  - `Bonus.New` states this.
  - `TokenContract.FreshGrantsWait` states the consequence over runs: from a ledger without bonus records, the k-th grant of an account comes no earlier than (k + 1) cooldowns after the epoch.
- **Oracle mode name.** The source's oracle mode `AI` is called `AIResolved` here, because `AI` is already a `MarketCategory` constructor.
- **Token response name.** The source's token response `Balance` is called `BalanceReport` here, because `Balance` is the ledger's query function.

## Model

| member | source | states |
|---|---|---|
| `Abi.ConstantsAgree` | abi/src/lib.rs:159-178 | the minimum duration is 60 s and below the maximum of 7 days; the cooldown is 24 h; the minimum bet is 100,000 attos and the platform fee is 5% |
| `Abi.Market.IsClosed` | abi/src/lib.rs:185-191 | `is_closed` and `is_active` never both hold; for an Active market exactly one holds; for any other status neither does |
| `Abi.Market.IsActive` | abi/src/lib.rs:185-187 | a market is open only while its stored status is Active and the close time is still ahead; a Resolved or Cancelled market is never active |
| `Abi.Market.CanBet` | abi/src/lib.rs:185-195 | `can_bet` holds exactly when `is_active` does, and never together with `is_closed` |
| `Abi.ClosingIsPermanent` | abi/src/lib.rs:185-195 | once past its close time a market stays derived-closed and never again reads active or takes bets |
| `Abi.AIAgent.UpdateStats` | abi/src/lib.rs:219-228 | one more bet is counted, as exactly one win or one loss; profit is added with saturation; identity fields are kept; `wins + losses <= total_bets` is preserved |
| `MarketState.Empty` | market/src/state.rs:8-26 | a fresh store has counter 0, no fees, no markets (every lookup is "not found"), no bets and no claims |
| `MarketState.CreateMarket` | market/src/state.rs:30-42 | returns the current counter as the id, stores the market under it with its `id` overwritten, advances the counter by one; every other market reads as before |
| `MarketState.GetMarket` | market/src/state.rs:45-51 | succeeds exactly for a stored id; an id never created gives MarketNotFound |
| `MarketState.UpdateMarket` | market/src/state.rs:54-58 | the market reads back under its own id; every other market, the bets, the counter and the claims are unchanged |
| `MarketState.GetBets` | market/src/state.rs:77-84 | a market without bets reads as the empty list |
| `MarketState.PlaceBet` | market/src/state.rs:61-74 | the bet is appended at the end of its market's list; earlier bets and other markets' lists are unchanged |
| `MarketState.FirstMatch` | market/src/state.rs:105-107 | none exactly when no bet of the account is on the outcome; otherwise the position of the first such bet |
| `MarketState.WinningStake` | market/src/state.rs:105-107 | the stake of the first bet of the account on the outcome, zero when there is none; later matching bets are ignored |
| `MarketState.CalculatePayout` | market/src/state.rs:87-132 | errors for an unknown market, a market that is not Resolved, or one with no outcome; succeeds otherwise; zero without a matching bet or with an empty winning pool; otherwise the 95% share of the total pool for the first matching stake |
| `MarketState.HasClaimed` | market/src/state.rs:135-141 | a pair reads as claimed exactly when it is marked true; a pair never marked reads as not claimed, as `unwrap_or(false)` gives |
| `MarketState.MarkClaimed` | market/src/state.rs:135-148 | afterwards `has_claimed` is true for the pair and unchanged for every other pair; markets, bets, counter and fees are untouched |
| `MarketContract.ExecCreateMarket` | market/src/contract.rs:45-91 | needs a signer; succeeds exactly when the duration is within both bounds, inclusive, with the matching error otherwise; the new market is the one built from the request (question, description, category, oracle mode, no resolution source) under the next id, with the creator, Active status, zero pools, no outcome, `created_at = now` and `closes_at = now + duration` (saturating); nothing else changes |
| `MarketContract.AddStake` | market/src/contract.rs:123-133 | the total and the predicted side's pool grow by the stake (saturating); the other pool and every other field are unchanged |
| `MarketContract.ExecPlaceBet` | market/src/contract.rs:93-148 | refuses, with the state unchanged, a missing signer, a stake below `MIN_BET_AMOUNT`, an unknown market, or a market that cannot take bets now; otherwise updates the pools and appends one unclaimed bet, leaving every other list alone |
| `MarketContract.ExecResolveMarket` | market/src/contract.rs:150-182 | succeeds exactly for any signer on an Active market, with no close-time or identity check; sets Resolved, the outcome and `resolved_at`, and raises `platform_fees` by 5% of the total pool (saturating); errors change nothing |
| `MarketContract.ExecClaimWinnings` | market/src/contract.rs:184-210 | refuses a pair already claimed, passes on settlement errors, and refuses a zero payout without marking; pays exactly when unclaimed with a positive payout, and then marks the pair in the same step |
| `MarketContract.ExecCancelMarket` | market/src/contract.rs:212-238 | succeeds exactly for the creator on an Active market; the status is the only change, with no refund |
| `MarketContract.Exec` | market/src/contract.rs:43-240 | without a signer every operation fails; any error leaves the store unchanged; only CreateMarket reports an id and only ClaimWinnings a payout |
| `MarketLifecycle.SideTotalAppend` | market/src/state.rs:61-74 | appending a bet raises its side's stake total by its amount and leaves the other side's total alone |
| `MarketLifecycle.PoolsExact` | market/src/contract.rs:123-127 | in a consistent store where nothing saturated, `total_pool == up_pool + down_pool` and each pool is the sum of that side's stakes |
| `MarketLifecycle.EmptyIsValid` | market/src/contract.rs:39-41 | the store of a freshly instantiated market application is consistent |
| `MarketLifecycle.AddStakeWellFormed` | market/src/contract.rs:123-147 | adding a bet's stake to its market keeps the pools equal to the (saturated) sums of the bet list |
| `MarketLifecycle.PlaceBetPreservesValid` | market/src/contract.rs:93-148 | an accepted bet keeps every market's pools in step with its bets |
| `MarketLifecycle.CreatePreservesValid` | market/src/contract.rs:45-91 | creating a market keeps the store consistent: a new market has zero pools and no bets |
| `MarketLifecycle.ResolvePreservesValid` | market/src/contract.rs:150-182 | resolution keeps the store consistent: outcome and `resolved_at` become present together with the Resolved status |
| `MarketLifecycle.CancelPreservesValid` | market/src/contract.rs:212-238 | cancellation keeps the store consistent |
| `MarketLifecycle.ExecPreservesValid` | market/src/contract.rs:43-240 | every operation keeps the store consistent |
| `MarketLifecycle.TerminalIsFinal` | market/src/contract.rs:116-230 | no operation changes the record or the bets of a Resolved or Cancelled market |
| `MarketLifecycle.MarketsPersist` | market/src/contract.rs:43-240 | a created market is never removed; its creator never changes, and neither does a terminal status |
| `MarketLifecycle.ClaimsPersist` | market/src/state.rs:144-148 | a claim mark is never removed by any operation |
| `MarketLifecycle.ResolveIsOneShot` | market/src/contract.rs:161-163 | after a successful resolution, a second one changes nothing and is refused with AlreadyResolvedOrCancelled |
| `MarketLifecycle.CancelledMarketPaysNothing` | market/src/contract.rs:212-238 | cancellation changes neither pools nor bets, and no account can then be paid on that market |
| `MarketLifecycle.ClosedMarketRefusesBets` | market/src/contract.rs:116-120 | a market past its close time still reads Active, is derived-closed, and refuses a bet with the state unchanged |
| `Settlement.ShareMono` | market/src/state.rs:123-129 | a larger stake never gets a smaller share |
| `Settlement.ShareSuperadditive` | market/src/state.rs:123-129 | paying two stakes separately never gives more than paying their sum at once |
| `Settlement.ShareWithinNinetyFivePercent` | market/src/state.rs:123-129 | a stake within the winning pool gets at most `floor(total * 95 / 100)` |
| `Settlement.EvenMarketShare` | market/src/state.rs:123-129 | with 1,000,000 on each side resolved Up, the Up bettor's share is 1,900,000 |
| `Settlement.DistinctStakesWithinSide` | market/src/state.rs:105-107 | the first-matching stakes of distinct accounts add up to at most the winning side's total |
| `Settlement.DistinctClaimantsWithinPool` | market/src/state.rs:87-132 | on a consistent, unsaturated store, the payouts of distinct accounts on one market add up to at most `floor(total_pool * 95 / 100)` |
| `Settlement.PayoutWithinNinetyFivePercent` | market/src/state.rs:123-131 | on any consistent store, saturated pools included, a single payout is at most floor(total_pool * 95 / 100) |
| `Settlement.ShareU128` | market/src/state.rs:125-129 | the payout as written in u128: the exact share when the intermediates fit, none exactly when `bet * total * 95` or `winning * 100` exceeds 2^128 - 1 |
| `Settlement.TwoTokenMarketOverflows` | market/src/state.rs:129 | two tokens on each side overflow the u128 intermediate, though the share is 3.8 tokens |
| `Settlement.ShareFitsAmount` | market/src/state.rs:129-131 | computed without the overflow, the share of a stake within the winning pool always fits a u128 amount |
| `MarketRun.RunPreservesValid` | market/src/contract.rs:43-240 | any sequence of operations keeps the store consistent |
| `MarketRun.CreatedIdsAreSequential` | market/src/state.rs:30-42 | the k-th market created in a run gets id `next + k`, and the counter ends one past the last |
| `MarketRun.FreshIdsStartAtZero` | market/src/state.rs:30-42 | from a fresh store markets are numbered 0, 1, 2, ... |
| `MarketRun.RunKeepsTerminal` | market/src/contract.rs:116-230 | a terminal market and its bets are the same at the end of any run |
| `MarketRun.ClaimIsOneShot` | market/src/contract.rs:190-193 | once a pair has been paid, every later claim by that account on that market, after any sequence of operations, is refused with AlreadyClaimed and changes nothing |
| `MarketRun.PayoutStep` | market/src/contract.rs:184-210 | a step that pays was a claim by an unmarked account on a Resolved market; it leaves markets and bets alone, marks the pair, and pays the positive settlement |
| `MarketRun.PaidAreDistinct` | market/src/contract.rs:190-204 | no account appears twice among the payouts of one market in a run |
| `MarketRun.PaidAmountsAreFinal` | market/src/contract.rs:194-209 | every payout of a run is positive and equals the settlement on the final store |
| `MarketRun.AtMostOnePayoutPerAccount` | market/src/contract.rs:184-210 | along any run, each account is paid at most once per market |
| `MarketRun.PayoutsWithinPool` | market/src/state.rs:123-129 | whatever runs, the amounts paid on one market add up to at most `floor(total_pool * 95 / 100)`, while its stakes have not saturated u128 |
| `MarketRun.EvenMarketSetup` | market/src/contract.rs:45-182 | a 60-minute market with 1,000,000 staked on each side by two accounts and resolved Up holds 2,000,000, books a 100,000 fee, and has no claims yet |
| `MarketRun.EvenMarketPays` | market/src/contract.rs:184-210 | on a resolved market with one Up and one Down stake of 1,000,000, placed at any times, the Up bettor is paid 1,900,000 once and the Down bettor gets NoWinnings |
| `MarketRun.EvenMarketSettles` | market/src/contract.rs:184-210 | continuing the set-up run, the Up bettor's claim pays 1,900,000, a second claim is refused as AlreadyClaimed, and the Down bettor gets NoWinnings |
| `Bonus.New` | token/src/lib.rs:62-67 | a fresh record has `last_claim = 0` and 100 tokens; its first claim is eligible exactly when `now >= cooldown` |
| `Bonus.CanClaim` | token/src/lib.rs:69-72 | eligible exactly when `now >= last_claim + cooldown` (the elapsed time saturates at zero) |
| `Bonus.Claim` | token/src/lib.rs:74-81 | when eligible, restarts the clock at `now` and returns the amount; otherwise returns zero and leaves the record alone |
| `Bonus.TimeUntilNextClaim` | token/src/lib.rs:83-90 | zero exactly when a claim would succeed; otherwise what is left of the cooldown; never more than the cooldown |
| `Bonus.WaitThenEligible` | token/src/lib.rs:69-90 | waiting the reported time makes a claim eligible |
| `Bonus.ImmediateSecondClaimIsZero` | token/src/lib.rs:74-81 | a second claim at the same instant grants nothing |
| `Bonus.ClaimsAreSpaced` | token/src/lib.rs:69-81 | two successful claims on one record are at least a cooldown apart |
| `Bonus.ClaimAllSpaced` | token/src/lib.rs:69-81 | over any sequence of attempts, each success comes a cooldown after the previous one, and the record remembers the last |
| `Bonus.SpacedSpan` | token/src/lib.rs:69-81 | the i-th and j-th of a spaced sequence of times are at least j - i cooldowns apart |
| `Bonus.ClaimAllSpan` | token/src/lib.rs:69-81 | the i-th and j-th successful claims are at least j - i cooldowns apart |
| `TokenState.EmptyLedger` | token/src/state.rs:26-32 | a fresh ledger holds nothing for anyone and has no supply |
| `TokenState.Balance` | token/src/state.rs:26-32 | an account never credited holds zero |
| `TokenState.Credit` | token/src/state.rs:35-44 | the account and the supply each grow by the amount (saturating); no other account changes |
| `TokenState.Debit` | token/src/state.rs:47-64 | fails, with the balance and amount reported, exactly when the balance is short; otherwise both the balance and the supply drop by the amount |
| `TokenState.Transfer` | token/src/state.rs:67-76 | fails exactly when the debit does, with the balance and amount reported; `from` drops and `to` rises by the amount; `from == to` changes no balance; the supply is unchanged whenever it covers the amount, which balanced books guarantee |
| `TokenState.SumRemove` | token/src/state.rs:35-64 | the sum of the balances does not depend on which account is taken out first |
| `TokenState.SumUpdate` | token/src/state.rs:35-64 | overwriting one balance changes the sum of the balances by the difference |
| `TokenState.BalanceWithinSupply` | token/src/state.rs:26-32 | on balanced books no balance exceeds the supply |
| `TokenState.CreditConserves` | token/src/state.rs:35-44 | a credit that does not push the supply past u128 is exact and keeps the sum of the balances equal to the supply |
| `TokenState.DebitConserves` | token/src/state.rs:47-64 | a debit the balance covers succeeds and keeps the books balanced |
| `TokenState.TransferConserves` | token/src/state.rs:67-76 | on balanced books a successful transfer is exact, keeps the supply, and keeps the books balanced |
| `TokenContract.BonusOf` | token/src/contract.rs:72-79 | an account without a record uses a fresh one |
| `TokenContract.ExecTransfer` | token/src/contract.rs:52-62 | moves value from the signer; succeeds exactly when the signer's balance covers the amount, and changes nothing otherwise |
| `TokenContract.ExecClaimBonus` | token/src/contract.rs:64-100 | succeeds exactly when the record allows a claim; then it credits the owner and persists `last_claim = now`; otherwise it writes nothing and answers BonusNotReady |
| `TokenContract.ExecMint` | token/src/contract.rs:102-115 | succeeds exactly for a super owner, crediting `to` and the supply; anyone else is refused and nothing changes |
| `TokenContract.Exec` | token/src/contract.rs:50-117 | without a signer every operation aborts and nothing changes; any non-Ok step leaves the ledger unchanged; each arm dispatches to its operation |
| `TokenContract.Instantiate` | token/src/contract.rs:38-48 | each super owner ends with the initial supply and everyone else with nothing; the supply is their number times the initial supply (saturating), and the books balance when nothing saturates |
| `TokenContract.SumUniform` | token/src/contract.rs:38-48 | n accounts holding the same amount add up to n times it |
| `TokenContract.ExecConserves` | token/src/contract.rs:50-117 | on balanced books every token operation keeps the books balanced, as long as a credit the call actually makes (a granted bonus, a super owner's mint) does not push the supply past u128 |
| `TokenContract.RunConserves` | token/src/contract.rs:50-117 | from balanced books, any sequence of token operations whose credits never saturate ends with the balances adding up to the supply |
| `TokenContract.TransfersKeepSupply` | token/src/contract.rs:52-62 | on balanced books a run of transfers alone, successful or refused, keeps the books balanced and the supply unchanged |
| `TokenContract.BonusStep` | token/src/contract.rs:64-100 | a step moves an account's bonus clock only when it grants that account the bonus, and then to the claim time, a full cooldown later |
| `TokenContract.GrantsAreSpaced` | token/src/contract.rs:64-100 | over any run, the bonus grants of one account are spaced by at least the cooldown |
| `TokenContract.FreshGrantsWait` | token/src/contract.rs:64-100 | from a ledger without bonus records, a fresh one or the one instantiation leaves, the k-th grant of an account comes at or after (k + 1) cooldowns |
| `OracleState.Empty` | oracle/src/state.rs:16-30 | a fresh store has no oracles, no prices, no resolutions and a zero counter |
| `OracleState.SubmitPrice` | oracle/src/state.rs:34-44 | the symbol's latest price is the submitted one; every other symbol reads as before |
| `OracleState.GetPrice` | oracle/src/state.rs:47-53 | none exactly for a symbol never submitted; otherwise the last submitted price |
| `OracleState.RecordResolution` | oracle/src/state.rs:56-65 | overwrites any earlier entry for the market and always adds one to the counter |
| `OracleState.RegisterOracle` | oracle/src/state.rs:68-72 | afterwards the account is an oracle; nobody else's status changes |
| `OracleState.IsOracle` | oracle/src/state.rs:75-81 | an account never registered is not an oracle |
| `OracleState.RegisterIsIdempotent` | oracle/src/state.rs:68-72 | registering twice is the same as registering once |
| `OracleState.RecordKeepsCount` | oracle/src/state.rs:56-65 | the counter stays at or above the number of markets with a recorded resolution |
| `OracleState.RecordTwiceCountsTwice` | oracle/src/state.rs:56-65 | recording one market twice keeps one entry, the later one, yet counts two |
| `OracleContract.ResolutionOf` | oracle/src/contract.rs:82-125 | a manual resolution records confidence 100, reasoning "Manual resolution" and no sources; an AI one records what it is given |
| `OracleContract.Exec` | oracle/src/contract.rs:42-152 | without a signer nothing happens; SubmitPrice and both resolutions need a registered signer and otherwise change nothing; RegisterOracle needs only a signer; a resolution is recorded and ResolveMarket is sent to the market, and the answer is Ok whatever the market says |
| `OracleContract.SelfRegistrationSuffices` | oracle/src/contract.rs:140-150 | any signer can register itself, after which its price submissions are accepted |
| `OracleContract.ExecKeepsCount` | oracle/src/contract.rs:42-152 | every oracle operation keeps the counter at or above the number of recorded markets, and never lowers it |
| `OracleContract.ManualResolutionReachesMarket` | oracle/src/contract.rs:105-138 | a registered oracle's manual resolution, delivered to the market, resolves an Active market to the recorded outcome |
| `AgentState.Empty` | ai-agent/src/state.rs:5-13 | a fresh store has counter 0 and every lookup is "not found" |
| `AgentState.CreateAgent` | ai-agent/src/state.rs:17-29 | returns the current counter as the id, stores the agent under it with its `id` set, and advances the counter by one |
| `AgentState.GetAgent` | ai-agent/src/state.rs:32-38 | succeeds exactly for a stored id; otherwise AgentNotFound |
| `AgentState.UpdateAgent` | ai-agent/src/state.rs:41-45 | replaces only the entry keyed by the agent's id |
| `AgentContract.NewAgent` | ai-agent/src/contract.rs:51-61 | a new agent has zero counters and profit and is active |
| `AgentContract.Exec` | ai-agent/src/contract.rs:43-137 | CreateAgent needs a signer and reports the next id; PlaceBet, UpdateStats and ToggleAgent check no identity; an unknown agent or a bet by an inactive agent changes nothing; a bet raises `total_bets` and sends PlaceBet to the market |
| `AgentContract.ExecPreservesValid` | ai-agent/src/contract.rs:43-137 | every operation keeps each agent under its own id and below the counter, with `wins + losses <= total_bets`; agents are never removed |
| `AgentContract.ToggleTwiceRestores` | ai-agent/src/contract.rs:123-135 | toggling an agent twice restores the store, whoever asks |
| `AgentContract.RunPreservesValid` | ai-agent/src/contract.rs:96-121 | across every sequence of operations, `wins + losses <= total_bets` holds for every agent |
| `AgentContract.CreatedIdsAreSequential` | ai-agent/src/state.rs:17-29 | agents created in a run get consecutive ids from the counter, so from an empty store they get 0, 1, 2, ... and no id twice |

## Left out

- The GraphQL services (`*/src/service.rs`), the web frontend and the Python oracle service are left out. They are I/O: network clients, an LLM call and HTTP price fetches.
- The operation, message and response declarations in `market/src/lib.rs`, `oracle/src/lib.rs` and `ai-agent/src/lib.rs` appear only as datatypes. There is nothing to prove about them.
- The Linera runtime is replaced by step inputs: the authenticated signer, the system time, the super owners and the application parameters.
- `load`, `store` and the storage views are in-memory maps. The `map_err` paths of `MapView` writes are treated as infallible.
- `execute_message` panics in every application. No modelled operation sends a cross-chain message, so it is unreachable and not modelled.
- Instantiating the market, oracle and agent applications stores nothing. Their `Empty()` stores stand for that.
- Floating point is left out:
  - `odds_up`, `odds_down`, `win_rate` and the agent's `accuracy` are omitted;
  - the oracle's `f32` confidence is carried as a `real` and never computed with.
- u64 ids and counters (`next_market_id`, `next_agent_id`, `resolution_count`, `total_bets`, `wins`, `losses`) are unbounded naturals. The wrap-around at 2^64 is not modelled.
- `MarketContract.ExecCreateMarket` computes `duration_minutes * 60 * 1_000_000` as an unbounded natural. In the source this u64 product overflows once `duration_minutes` exceeds about 3.07 * 10^11. Such inputs are reported DurationTooLong here, and the source's panic or wrap is not modelled.
- `MarketContract.ExecResolveMarket` computes the platform fee `total_pool * 5 / 100` as an unbounded natural. The source's u128 product overflows only when the total pool exceeds (2^128 - 1) / 5 attos; that case is not modelled.
- `MarketState.CalculatePayout` computes the share as an unbounded natural, which is the corrected behaviour. The u128 computation as written is `Settlement.ShareU128`; see Findings.
- The market never moves tokens, because its `token_app` parameter is never used. So a bet debits nothing, a payout credits nothing, and a cancellation refunds nothing. The market and the ledger are independent machines here.
- The answers to cross-application calls are ignored, as in the source. The oracle's ResolveMarket and the agent's PlaceBet are listed in the step's `sent` field, each with the signer the call forwards. `OracleContract.ManualResolutionReachesMarket` composes one such delivery with the market.
- When the token application has no signer it aborts through `expect`/`unwrap`. This is the `Panic` response, which leaves the ledger unchanged.
- The token's balance query response (`BalanceReport`) is declared but returned by no modelled operation.
- Three constants are declared but never read by the code: `MARKET_CREATION_FEE`, `PLATFORM_FEE_PERCENT` and `DAILY_BONUS_AMOUNT`.
  - The fee at resolution and the payout use the literals `5` (market/src/contract.rs:172) and `95` (market/src/state.rs:129). `PLATFORM_FEE_PERCENT` in the ensures of `MarketContract.ExecResolveMarket` stands for that literal `5`.
  - `DAILY_BONUS_AMOUNT` is 10^8, which would be 100 tokens at 10^6 attos per token.
  - The bonus actually granted is `Amount::from_tokens(100)`, that is 100 * 10^18 attos, and the model uses that amount.
- Two fields are written but never changed after creation: a bet's `claimed` flag is always false, and a market's `resolution_source` is always empty. Claims are tracked in the claim map instead.
- The `Closed` status is never stored. Closing is only the derived predicate `is_closed`.

## Findings

| source | as written | input that shows it | evidently intended | confidence | as-written member | corrected member |
|---|---|---|---|---|---|---|
| market/src/state.rs:129 | the payout's intermediate `bet * total * 95` is computed in u128, the same width as the amounts | two bettors stake 2 tokens (2 * 10^18 attos) Up and Down, Up wins: 2e18 * 4e18 * 95 = 7.6 * 10^38, above 2^128 - 1 (about 3.4 * 10^38), so the claim panics, or returns a wrapped amount without overflow checks | the fee-adjusted share 3.8 tokens, computed in wider arithmetic; that share never exceeds 95% of the pool, so it always fits u128 | not executed | `Settlement.TwoTokenMarketOverflows` | `Settlement.ShareFitsAmount` |
