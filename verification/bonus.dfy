/** The daily-bonus timer of the token application (`token/src/lib.rs`): a per-account
    record of the last successful claim, gating the next one behind a 24-hour cooldown. */
module Bonus {
  import opened Abi

  /** Tokens granted per claim; `Amount::from_tokens(100)` in attos. */
  const BONUS_TOKENS: nat := 100

  datatype DailyBonus = DailyBonus(lastClaim: Timestamp, amount: Amount)

  /** The record of an account that never claimed: its clock starts at time zero, so the
      first claim waits for the cooldown to pass after the epoch. */
  function New(): (r: DailyBonus)
    ensures r.lastClaim == 0 && r.amount == BONUS_TOKENS * ATTOS_PER_TOKEN
    ensures forall now: Timestamp :: CanClaim(r, now) <==> now >= DAILY_BONUS_COOLDOWN_MICROS
    ensures !CanClaim(r, 0)
  {
    DailyBonus(0, BONUS_TOKENS * ATTOS_PER_TOKEN)
  }

  /** `delta_since`: the time since the last claim, zero when the clock reads earlier. */
  function Elapsed(b: DailyBonus, now: Timestamp): nat {
    SatSub(now, b.lastClaim)
  }

  predicate CanClaim(b: DailyBonus, now: Timestamp): (r: bool)
    ensures r <==> now >= b.lastClaim + DAILY_BONUS_COOLDOWN_MICROS
  {
    Elapsed(b, now) >= DAILY_BONUS_COOLDOWN_MICROS
  }

  /** Claims the bonus at `now`: when eligible the record restarts its clock at `now` and
      the amount is granted; otherwise nothing is granted and the record is untouched. */
  function Claim(b: DailyBonus, now: Timestamp): (r: (DailyBonus, Amount))
    ensures CanClaim(b, now) ==> r.0 == b.(lastClaim := now) && r.1 == b.amount
    ensures !CanClaim(b, now) ==> r.0 == b && r.1 == 0
    ensures r.0.amount == b.amount
  {
    if CanClaim(b, now) then (b.(lastClaim := now), b.amount) else (b, 0)
  }

  /** The wait before the next claim: zero exactly when a claim would succeed, otherwise
      what is left of the cooldown; never more than the cooldown. */
  function TimeUntilNextClaim(b: DailyBonus, now: Timestamp): (r: nat)
    ensures r == 0 <==> CanClaim(b, now)
    ensures r <= DAILY_BONUS_COOLDOWN_MICROS
    ensures (!CanClaim(b, now) && now >= b.lastClaim) ==> now + r == b.lastClaim + DAILY_BONUS_COOLDOWN_MICROS
    ensures now < b.lastClaim ==> r == DAILY_BONUS_COOLDOWN_MICROS
  {
    var delta := Elapsed(b, now);
    if delta >= DAILY_BONUS_COOLDOWN_MICROS then 0 else DAILY_BONUS_COOLDOWN_MICROS - delta
  }

  /** Waiting out the reported time makes the record eligible. */
  lemma WaitThenEligible(b: DailyBonus, now: Timestamp)
    requires now + TimeUntilNextClaim(b, now) <= TIME_MAX
    ensures now >= b.lastClaim ==> CanClaim(b, now + TimeUntilNextClaim(b, now))
  {
  }

  /** Claiming twice at the same instant grants at most once. */
  lemma ImmediateSecondClaimIsZero(b: DailyBonus, now: Timestamp)
    ensures Claim(Claim(b, now).0, now).1 == 0
  {
  }

  /** Two successful claims on one record are at least a cooldown apart. */
  lemma ClaimsAreSpaced(b: DailyBonus, t1: Timestamp, t2: Timestamp)
    requires CanClaim(b, t1) && CanClaim(Claim(b, t1).0, t2)
    ensures t2 >= t1 + DAILY_BONUS_COOLDOWN_MICROS
  {
  }

  /** Claims attempted at the times `times`, in order: the final record and the times at
      which a claim succeeded. */
  function ClaimAll(b: DailyBonus, times: seq<Timestamp>): (DailyBonus, seq<Timestamp>)
    decreases |times|
  {
    if |times| == 0 then (b, [])
    else
      var (b', _) := Claim(b, times[0]);
      var (f, rest) := ClaimAll(b', times[1..]);
      (f, (if CanClaim(b, times[0]) then [times[0]] else []) + rest)
  }

  /** The time the k-th success in `ok` had to wait from: the previous success, or
      `start` for the first. */
  function Previous(start: nat, ok: seq<Timestamp>, k: nat): nat
    requires k <= |ok|
  {
    if k == 0 then start else ok[k - 1]
  }

  /** Each time in `ok` comes at least a cooldown after the one before it, the first at
      least a cooldown after `start`. */
  predicate Spaced(start: nat, ok: seq<Timestamp>) {
    forall k {:trigger Previous(start, ok, k)} :: 0 <= k < |ok| ==> ok[k] >= Previous(start, ok, k) + DAILY_BONUS_COOLDOWN_MICROS
  }

  lemma SpacedCons(start: nat, t: Timestamp, rest: seq<Timestamp>)
    requires t >= start + DAILY_BONUS_COOLDOWN_MICROS && Spaced(t, rest)
    ensures Spaced(start, [t] + rest)
    ensures Previous(start, [t] + rest, |rest| + 1) == Previous(t, rest, |rest|)
  {
    var ok := [t] + rest;
    forall k | 0 <= k < |ok|
      ensures ok[k] >= Previous(start, ok, k) + DAILY_BONUS_COOLDOWN_MICROS
    {
      if k > 0 {
        assert ok[k] == rest[k - 1];
        assert Previous(start, ok, k) == Previous(t, rest, k - 1);
      }
    }
  }

  /** Every success comes a full cooldown after the previous one (or after the record's
      last claim, for the first), and the final record remembers the last success. */
  lemma {:induction false} ClaimAllSpaced(b: DailyBonus, times: seq<Timestamp>)
    ensures Spaced(b.lastClaim, ClaimAll(b, times).1)
    ensures ClaimAll(b, times).0.lastClaim == Previous(b.lastClaim, ClaimAll(b, times).1, |ClaimAll(b, times).1|)
    ensures ClaimAll(b, times).0.amount == b.amount
    decreases |times|
  {
    if |times| > 0 {
      var b' := Claim(b, times[0]).0;
      ClaimAllSpaced(b', times[1..]);
      var rest := ClaimAll(b', times[1..]).1;
      if CanClaim(b, times[0]) {
        assert ClaimAll(b, times).1 == [times[0]] + rest;
        SpacedCons(b.lastClaim, times[0], rest);
      } else {
        assert ClaimAll(b, times).1 == rest && b' == b;
      }
    }
  }

  /** Spaced times drift apart by a cooldown per step. */
  lemma {:induction false} SpacedSpan(start: nat, ok: seq<Timestamp>, i: nat, j: nat)
    requires Spaced(start, ok) && i <= j < |ok|
    ensures ok[j] >= ok[i] + (j - i) * DAILY_BONUS_COOLDOWN_MICROS
    decreases j - i
  {
    if i < j {
      SpacedSpan(start, ok, i, j - 1);
      assert ok[j] >= ok[j - 1] + DAILY_BONUS_COOLDOWN_MICROS by {
        assert Previous(start, ok, j) == ok[j - 1];
      }
      MulSucc(j - 1 - i, DAILY_BONUS_COOLDOWN_MICROS);
    }
  }

  /** At most one success per cooldown window: the i-th and j-th successful claims are at
      least j - i cooldowns apart. */
  lemma ClaimAllSpan(b: DailyBonus, times: seq<Timestamp>, i: nat, j: nat)
    requires i <= j < |ClaimAll(b, times).1|
    ensures ClaimAll(b, times).1[j] >= ClaimAll(b, times).1[i] + (j - i) * DAILY_BONUS_COOLDOWN_MICROS
  {
    ClaimAllSpaced(b, times);
    SpacedSpan(b.lastClaim, ClaimAll(b, times).1, i, j);
  }
}
