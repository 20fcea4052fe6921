/**
 The round a node expects at a given time after slot start (consensus_message.rs,
 current_estimated_round) against the timeout schedule it inverts.
 */
module RoundEstimate {
  import opened SsvTypes
  import opened SlotTiming

  const QUICK_TIMEOUT_THRESHOLD: nat := 8
  const QUICK_TIMEOUT_SECS: nat := 2
  const SLOW_TIMEOUT_SECS: nat := 120
  const MAX_ALLOWED_ROUNDS_FUTURE: nat := 3

  // `sinceMs` is the time since slot start; the code looks at whole seconds only.
  function CurrentEstimatedRound(sinceMs: nat): nat {
    var quick := FIRST_ROUND + sinceMs / 1000 / QUICK_TIMEOUT_SECS;
    if quick <= QUICK_TIMEOUT_THRESHOLD then quick
    else
      var quickPhase := QUICK_TIMEOUT_SECS * QUICK_TIMEOUT_THRESHOLD * 1000;
      var slow := if sinceMs < quickPhase then 0 else sinceMs - quickPhase;
      QUICK_TIMEOUT_THRESHOLD + FIRST_ROUND + slow / 1000 / SLOW_TIMEOUT_SECS
  }

  // When round `r` starts if every earlier round times out: eight quick rounds, then slow ones.
  function RoundStartMs(r: nat): nat
    requires r >= FIRST_ROUND
  {
    if r == FIRST_ROUND then 0
    else
      var timeout := if r - 1 <= QUICK_TIMEOUT_THRESHOLD then QUICK_TIMEOUT_SECS else SLOW_TIMEOUT_SECS;
      RoundStartMs(r - 1) + 1000 * timeout
  }

  lemma {:induction false} RoundStartClosedForm(r: nat)
    requires r >= FIRST_ROUND
    ensures RoundStartMs(r) == if r <= 9 then 2000 * (r - 1) else 16000 + 120000 * (r - 9)
  {
    if r > FIRST_ROUND {
      RoundStartClosedForm(r - 1);
    }
  }

  // The estimate is the exact inverse of the timeout schedule.
  lemma EstimateInvertsSchedule(r: nat, sinceMs: nat)
    requires r >= FIRST_ROUND
    ensures r <= CurrentEstimatedRound(sinceMs) <==> RoundStartMs(r) <= sinceMs
  {
    RoundStartClosedForm(r);
  }

  // The highest round admitted from a single signer at time `t`.
  function HighestAllowedRound(c: Chain, height: Slot, t: Millis): nat {
    var start := StartOf(c, height);
    (if t > start then CurrentEstimatedRound(t - start) else FIRST_ROUND) + MAX_ALLOWED_ROUNDS_FUTURE
  }

  predicate RoundInAllowedSpread(c: Chain, height: Slot, round: nat, t: Millis) {
    FIRST_ROUND <= round <= HighestAllowedRound(c, height, t)
  }

  // A round beyond the fourth is admitted exactly from the scheduled start of the round three
  // before it; rounds one to four at any time.
  lemma SpreadFollowsSchedule(c: Chain, height: Slot, round: nat, t: Millis)
    ensures RoundInAllowedSpread(c, height, round, t)
            <==> 1 <= round && (round <= 4 || RoundStartMs(round - 3) <= t - StartOf(c, height))
  {
    if round > 4 {
      RoundStartClosedForm(round - 3);
      if t > StartOf(c, height) {
        EstimateInvertsSchedule(round - 3, t - StartOf(c, height));
      }
    } else {
      RoundStartClosedForm(1);
      if t > StartOf(c, height) {
        EstimateInvertsSchedule(1, t - StartOf(c, height));
      }
    }
  }
}
