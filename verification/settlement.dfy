/** The settlement arithmetic of `calculate_payout` (`market/src/state.rs`): the 95%
    share never exceeds what the pool holds, summed over any set of distinct claimants. */
module Settlement {
  import opened Abi
  import opened MarketState
  import opened MarketLifecycle

  // ---------------------------------------------------------------------------
  // Integer division facts
  // ---------------------------------------------------------------------------

  lemma MulLeftMono(d: nat, a: nat, b: nat)
    requires a <= b
    ensures d * a <= d * b
  {
    assert d * b == d * a + d * (b - a);
  }

  lemma MulLeftStrictInv(d: nat, a: nat, b: nat)
    requires d * a < d * b
    ensures a < b
  {
    if a >= b {
      MulLeftMono(d, b, a);
    }
  }

  lemma {:induction false} DivLowerBound(x: nat, d: nat, q: nat)
    requires d > 0 && d * q <= x
    ensures q <= x / d
  {
    var q' := x / d;
    assert x == d * q' + x % d;
    assert d * (q' + 1) == d * q' + d;
    MulLeftStrictInv(d, q, q' + 1);
  }

  lemma {:induction false} DivUpperBound(x: nat, d: nat, q: nat)
    requires d > 0 && x < d * (q + 1)
    ensures x / d <= q
  {
    var q' := x / d;
    assert x == d * q' + x % d;
    MulLeftStrictInv(d, q', q + 1);
  }

  lemma {:induction false} DivMono(x: nat, y: nat, d: nat)
    requires d > 0 && x <= y
    ensures x / d <= y / d
  {
    assert x == d * (x / d) + x % d;
    DivLowerBound(y, d, x / d);
  }

  lemma {:induction false} DivSuperadditive(a: nat, b: nat, d: nat)
    requires d > 0
    ensures a / d + b / d <= (a + b) / d
  {
    assert a == d * (a / d) + a % d;
    assert b == d * (b / d) + b % d;
    assert d * (a / d + b / d) == d * (a / d) + d * (b / d);
    DivLowerBound(a + b, d, a / d + b / d);
  }

  /** Scaling numerator and denominator by the winning pool does not raise the quotient. */
  lemma {:induction false} DivCancel(w: nat, y: nat)
    requires w > 0
    ensures (w * y) / (w * 100) <= y / 100
  {
    var q := y / 100;
    assert y == 100 * q + y % 100;
    assert y < 100 * (q + 1);
    assert w * y < w * (100 * (q + 1)) by {
      assert w * (100 * (q + 1)) - w * y == w * (100 * (q + 1) - y);
    }
    assert w * (100 * (q + 1)) == (w * 100) * (q + 1);
    DivUpperBound(w * y, w * 100, q);
  }

  // ---------------------------------------------------------------------------
  // The share formula
  // ---------------------------------------------------------------------------

  lemma {:induction false} ShareMono(x: nat, y: nat, total: nat, w: nat)
    requires w > 0 && x <= y
    ensures Share(x, total, w) <= Share(y, total, w)
  {
    MulLeftMono(total * 95, x, y);
    assert x * total * 95 == (total * 95) * x;
    assert y * total * 95 == (total * 95) * y;
    DivMono(x * total * 95, y * total * 95, w * 100);
  }

  lemma {:induction false} ShareSuperadditive(x: nat, y: nat, total: nat, w: nat)
    requires w > 0
    ensures Share(x, total, w) + Share(y, total, w) <= Share(x + y, total, w)
  {
    assert (x + y) * total * 95 == x * total * 95 + y * total * 95;
    DivSuperadditive(x * total * 95, y * total * 95, w * 100);
  }

  /** A claimant whose stake is within the winning pool receives at most 95% of the total. */
  lemma {:induction false} ShareWithinNinetyFivePercent(stake: nat, total: nat, w: nat)
    requires 0 < w && stake <= w
    ensures Share(stake, total, w) <= total * 95 / 100
  {
    ShareMono(stake, w, total, w);
    assert w * total * 95 == w * (total * 95);
    DivCancel(w, total * 95);
  }

  /** An even two-account market: 1,000,000 on each side, resolved Up. */
  lemma EvenMarketShare()
    ensures Share(1_000_000, 2_000_000, 1_000_000) == 1_900_000
  {
  }

  // ---------------------------------------------------------------------------
  // Distinct claimants share at most the winning side's stakes
  // ---------------------------------------------------------------------------

  /** The bet list without the bets of `a`. */
  function Without(bets: seq<Bet>, a: Account): (r: seq<Bet>)
    ensures |r| <= |bets|
  {
    if |bets| == 0 then []
    else (if bets[0].bettor == a then [] else [bets[0]]) + Without(bets[1..], a)
  }

  lemma {:induction false} WinningStakeCons(bets: seq<Bet>, a: Account, o: Outcome)
    requires |bets| > 0
    ensures WinningStake(bets, a, o)
            == if Matches(bets[0], a, o) then bets[0].amount else WinningStake(bets[1..], a, o)
  {
    if !Matches(bets[0], a, o) {
      match FirstMatch(bets[1..], a, o)
      case None =>
      case Some(i) =>
        assert IsFirstMatch(bets, i + 1, a, o);
    }
  }

  lemma {:induction false} WinningStakeWithout(bets: seq<Bet>, a: Account, other: Account, o: Outcome)
    requires other != a
    ensures WinningStake(Without(bets, a), other, o) == WinningStake(bets, other, o)
    decreases |bets|
  {
    if |bets| > 0 {
      WinningStakeCons(bets, other, o);
      WinningStakeWithout(bets[1..], a, other, o);
      var w := Without(bets, a);
      if bets[0].bettor != a {
        assert w == [bets[0]] + Without(bets[1..], a);
        assert w[1..] == Without(bets[1..], a);
        WinningStakeCons(w, other, o);
      } else {
        assert w == Without(bets[1..], a);
        assert !Matches(bets[0], other, o);
        assert WinningStake(bets, other, o) == WinningStake(bets[1..], other, o);
      }
    }
  }

  lemma {:induction false} SideTotalWithout(bets: seq<Bet>, a: Account, o: Outcome)
    ensures SideTotal(Without(bets, a), o) + WinningStake(bets, a, o) <= SideTotal(bets, o)
    decreases |bets|
  {
    if |bets| > 0 {
      WinningStakeCons(bets, a, o);
      SideTotalWithout(bets[1..], a, o);
      var w := Without(bets, a);
      if bets[0].bettor == a {
        assert w == Without(bets[1..], a);
      } else {
        assert w == [bets[0]] + Without(bets[1..], a);
        assert w[1..] == Without(bets[1..], a);
      }
    }
  }

  /** The settled stakes of a list of claimants. */
  function SumStakes(bets: seq<Bet>, claimants: seq<Account>, o: Outcome): nat {
    if |claimants| == 0 then 0
    else WinningStake(bets, claimants[0], o) + SumStakes(bets, claimants[1..], o)
  }

  lemma {:induction false} SumStakesWithout(bets: seq<Bet>, a: Account, claimants: seq<Account>, o: Outcome)
    requires a !in claimants
    ensures SumStakes(Without(bets, a), claimants, o) == SumStakes(bets, claimants, o)
    decreases |claimants|
  {
    if |claimants| > 0 {
      WinningStakeWithout(bets, a, claimants[0], o);
      SumStakesWithout(bets, a, claimants[1..], o);
    }
  }

  ghost predicate Distinct<T>(xs: seq<T>) {
    forall i, j :: 0 <= i < j < |xs| ==> xs[i] != xs[j]
  }

  /** Distinct claimants are settled on at most the stakes placed on the winning side. */
  lemma {:induction false} DistinctStakesWithinSide(bets: seq<Bet>, claimants: seq<Account>, o: Outcome)
    requires Distinct(claimants)
    ensures SumStakes(bets, claimants, o) <= SideTotal(bets, o)
    decreases |claimants|
  {
    if |claimants| > 0 {
      var a := claimants[0];
      var rest := claimants[1..];
      assert a !in rest by {
        assert forall j :: 0 <= j < |rest| ==> rest[j] == claimants[j + 1] && claimants[0] != claimants[j + 1];
      }
      SumStakesWithout(bets, a, rest, o);
      DistinctStakesWithinSide(Without(bets, a), rest, o);
      SideTotalWithout(bets, a, o);
    }
  }

  // ---------------------------------------------------------------------------
  // Distinct claimants are paid at most 95% of the total pool
  // ---------------------------------------------------------------------------

  /** What `calculate_payout` reports for `a`, reading a failure as nothing paid. */
  function PayoutOf(s: State, id: nat, a: Account): nat {
    match CalculatePayout(s, id, a)
    case Success(p) => p
    case Failure(_) => 0
  }

  function SumPayouts(s: State, id: nat, claimants: seq<Account>): nat {
    if |claimants| == 0 then 0 else PayoutOf(s, id, claimants[0]) + SumPayouts(s, id, claimants[1..])
  }

  lemma {:induction false} SumPayoutsWithinShare(s: State, id: nat, claimants: seq<Account>)
    requires id in s.markets && s.markets[id].status == Resolved && s.markets[id].outcome.Some?
    requires s.markets[id].Pool(s.markets[id].outcome.value) > 0
    ensures var m := s.markets[id];
            var o := m.outcome.value;
            SumPayouts(s, id, claimants) <= Share(SumStakes(GetBets(s, id), claimants, o), m.totalPool, m.Pool(o))
    decreases |claimants|
  {
    if |claimants| > 0 {
      var m := s.markets[id];
      var o := m.outcome.value;
      SumPayoutsWithinShare(s, id, claimants[1..]);
      ShareSuperadditive(WinningStake(GetBets(s, id), claimants[0], o),
                         SumStakes(GetBets(s, id), claimants[1..], o), m.totalPool, m.Pool(o));
    }
  }

  /** The platform keeps its 5%: however many distinct accounts claim on one resolved
      market, the payouts together stay within floor(total_pool * 95 / 100), as long as the
      stakes did not saturate the u128 pools. */
  lemma {:induction false} DistinctClaimantsWithinPool(s: State, id: nat, claimants: seq<Account>)
    requires Valid(s) && id in s.markets
    requires SideTotal(GetBets(s, id), Up) + SideTotal(GetBets(s, id), Down) <= AMOUNT_MAX
    requires Distinct(claimants)
    ensures SumPayouts(s, id, claimants) <= s.markets[id].totalPool * 95 / 100
  {
    var m := s.markets[id];
    PoolsExact(s, id);
    if m.status == Resolved && m.outcome.Some? && m.Pool(m.outcome.value) > 0 {
      var o := m.outcome.value;
      var w := m.Pool(o);
      DistinctStakesWithinSide(GetBets(s, id), claimants, o);
      SumPayoutsWithinShare(s, id, claimants);
      ShareWithinNinetyFivePercent(SumStakes(GetBets(s, id), claimants, o), m.totalPool, w);
    } else {
      SumPayoutsZero(s, id, claimants);
    }
  }

  lemma {:induction false} SumPayoutsZero(s: State, id: nat, claimants: seq<Account>)
    requires !(id in s.markets && s.markets[id].status == Resolved && s.markets[id].outcome.Some?
               && s.markets[id].Pool(s.markets[id].outcome.value) > 0)
    ensures SumPayouts(s, id, claimants) == 0
    decreases |claimants|
  {
    if |claimants| > 0 {
      SumPayoutsZero(s, id, claimants[1..]);
    }
  }

  /** One claimant's payout never exceeds 95% of the total pool in a consistent store,
      saturated pools included: the stake is within its side's pool, which is within the
      total pool. */
  lemma {:induction false} PayoutWithinNinetyFivePercent(s: State, id: nat, a: Account)
    requires Valid(s) && id in s.markets
    ensures PayoutOf(s, id, a) <= s.markets[id].totalPool * 95 / 100
  {
    var m := s.markets[id];
    if m.status == Resolved && m.outcome.Some? && m.Pool(m.outcome.value) > 0 {
      var o := m.outcome.value;
      var bets := GetBets(s, id);
      var stake := WinningStake(bets, a, o);
      DistinctStakesWithinSide(bets, [a], o);
      assert SumStakes(bets, [a], o) == stake;
      assert stake <= m.Pool(o);
      SumPayoutsWithinShare(s, id, [a]);
      assert SumPayouts(s, id, [a]) == PayoutOf(s, id, a);
      ShareWithinNinetyFivePercent(stake, m.totalPool, m.Pool(o));
    } else {
      SumPayoutsZero(s, id, [a]);
      assert SumPayouts(s, id, [a]) == PayoutOf(s, id, a);
    }
  }

  // ---------------------------------------------------------------------------
  // The payout as written: a u128 intermediate product
  // ---------------------------------------------------------------------------

  /** `calculate_payout` evaluates `bet * total * 95` and `winning * 100` in u128, the same
      width as the amounts. `None` marks an intermediate that leaves u128: a panic when
      overflow checks are on, a wrapped (wrong) quotient when they are off. */
  function ShareU128(stake: Amount, total: Amount, w: Amount): (r: Option<nat>)
    requires w > 0
    ensures r.Some? ==> r.value == Share(stake, total, w)
    ensures r.None? <==> stake * total * 95 > AMOUNT_MAX || w * 100 > AMOUNT_MAX
  {
    var product := MulNat(stake, total);
    if product > AMOUNT_MAX || product * 95 > AMOUNT_MAX || w * 100 > AMOUNT_MAX then None
    else Some(Share(stake, total, w))
  }

  /** Two tokens on each side (2 * 10^18 attos), resolved Up: the exact share is 3.8 tokens,
      but the u128 intermediate 2e18 * 4e18 * 95 = 7.6e38 exceeds 2^128 - 1. */
  lemma TwoTokenMarketOverflows()
    ensures ShareU128(2 * ATTOS_PER_TOKEN, 4 * ATTOS_PER_TOKEN, 2 * ATTOS_PER_TOKEN).None?
    ensures Share(2 * ATTOS_PER_TOKEN, 4 * ATTOS_PER_TOKEN, 2 * ATTOS_PER_TOKEN) == 38 * ATTOS_PER_TOKEN / 10
  {
  }

  /** In unbounded (double-width) arithmetic the share of any stake within the winning pool
      is at most 95% of the total and so always fits an amount. */
  lemma {:induction false} ShareFitsAmount(stake: Amount, total: Amount, w: Amount)
    requires 0 < w && stake <= w
    ensures Share(stake, total, w) <= total * 95 / 100 <= AMOUNT_MAX
  {
    ShareWithinNinetyFivePercent(stake, total, w);
  }
}
