/**
 When a slot's messages are accepted, and how large a ring must be to remember them
 (the slot-time half of message_validator/src/lib.rs).
 Time is counted in whole milliseconds; slot arithmetic does not overflow.
 */
module SlotTiming {
  import opened Wrappers
  import opened SsvTypes

  const CLOCK_ERROR_TOLERANCE: nat := 50
  const EARLY_MESSAGE_MARGIN: nat := 1000
  const LATE_MESSAGE_MARGIN: nat := 3000
  const LATE_SLOT_ALLOWANCE: nat := 2

  datatype ChainParams = ChainParams(
    genesis: Millis, slotMs: nat, slotsPerEpoch: nat, minSeedLookahead: nat,
    epochsPerSyncCommitteePeriod: nat, booleEpoch: Option<Epoch>, gloasEpoch: Option<Epoch>)

  type Chain = c: ChainParams | c.slotMs > 0 && c.slotsPerEpoch > 0
    witness ChainParams(0, 12000, 32, 1, 256, None, None)

  // The timing margins fit within one slot, as the ring sizing relies on.
  predicate MarginsFitOneSlot(c: Chain) {
    c.slotMs > 2 * CLOCK_ERROR_TOLERANCE + EARLY_MESSAGE_MARGIN + LATE_MESSAGE_MARGIN
  }

  function StartOf(c: Chain, s: Slot): Millis {
    c.genesis + s * c.slotMs
  }

  function EpochOf(c: Chain, s: Slot): Epoch {
    s / c.slotsPerEpoch
  }

  function EpochStart(c: Chain, e: Epoch): Slot {
    e * c.slotsPerEpoch
  }

  function EpochLast(c: Chain, s: Slot): Slot {
    EpochStart(c, EpochOf(c, s)) + c.slotsPerEpoch - 1
  }

  function StoredSlotCount(c: Chain, role: Role): (n: nat)
    ensures n > 0
  {
    if role.ProposerPreferences?
    then (1 + c.minSeedLookahead) * c.slotsPerEpoch + 2 * c.slotsPerEpoch
    else 2 * c.slotsPerEpoch + LATE_SLOT_ALLOWANCE + 1
  }

  function Ttl(c: Chain, role: Role): nat {
    match role
    case Proposer | SyncCommittee | PTCAttester => 1 + LATE_SLOT_ALLOWANCE
    case Committee | Aggregator | ValidatorRegistration | VoluntaryExit | AggregatorCommittee =>
      c.slotsPerEpoch + LATE_SLOT_ALLOWANCE
    case ProposerPreferences => LATE_SLOT_ALLOWANCE
  }

  function EarliestSlot(c: Chain, role: Role, s: Slot): Slot {
    if role.ProposerPreferences?
    then
      var e := EpochOf(c, s);
      EpochStart(c, if e < c.minSeedLookahead then 0 else e - c.minSeedLookahead)
    else s
  }

  function MessageEarliness(c: Chain, role: Role, s: Slot, t: Millis): nat {
    var start := StartOf(c, EarliestSlot(c, role, s));
    if start <= t then 0 else start - t
  }

  function MessageLateness(c: Chain, role: Role, s: Slot, t: Millis): nat {
    var deadline := StartOf(c, s + Ttl(c, role)) + LATE_MESSAGE_MARGIN;
    if t <= deadline then 0 else t - deadline
  }

  predicate Early(c: Chain, role: Role, s: Slot, t: Millis) {
    MessageEarliness(c, role, s, t) > CLOCK_ERROR_TOLERANCE + EARLY_MESSAGE_MARGIN
  }

  predicate Late(c: Chain, role: Role, s: Slot, t: Millis) {
    MessageLateness(c, role, s, t) > CLOCK_ERROR_TOLERANCE
  }

  function ValidateSlotTime(c: Chain, role: Role, s: Slot, t: Millis): Verdict {
    if Early(c, role, s, t) then Refuse(EarlySlotMessage)
    else if Late(c, role, s, t) then Refuse(LateSlotMessage)
    else Accept
  }

  // The slot clock's current slot; None before genesis.
  function CurrentSlot(c: Chain, t: Millis): Option<Slot> {
    if t < c.genesis then None else Some((t - c.genesis) / c.slotMs)
  }

  // ---------- arithmetic of slots and epochs ----------

  lemma MulMono(a: nat, b: nat, m: nat)
    requires a <= b
    ensures a * m <= b * m
    ensures a < b ==> a * m + m <= b * m
  {
    assert b * m == a * m + (b - a) * m;
    if a < b {
      assert (b - a) * m == m + (b - a - 1) * m;
      assert (b - a - 1) * m >= 0;
    }
  }

  lemma StartMono(c: Chain, a: Slot, b: Slot)
    ensures a <= b ==> StartOf(c, a) <= StartOf(c, b)
    ensures a < b ==> StartOf(c, a) + c.slotMs <= StartOf(c, b)
  {
    if a <= b {
      MulMono(a, b, c.slotMs);
    }
  }

  lemma EpochBounds(c: Chain, s: Slot)
    ensures EpochStart(c, EpochOf(c, s)) <= s <= EpochLast(c, s)
  {
    var q, m := s / c.slotsPerEpoch, c.slotsPerEpoch;
    assert s == m * q + s % m;
    assert m * q == q * m;
  }

  // A slot lies in an epoch exactly when it is one of that epoch's slots.
  lemma {:induction false} EpochMembership(c: Chain, s: Slot, e: Epoch)
    ensures EpochOf(c, s) == e <==> EpochStart(c, e) <= s < EpochStart(c, e) + c.slotsPerEpoch
  {
    var q := EpochOf(c, s);
    EpochBounds(c, s);
    if q < e {
      MulMono(q, e, c.slotsPerEpoch);
    } else if e < q {
      MulMono(e, q, c.slotsPerEpoch);
    }
  }

  // ---------- the acceptance window ----------

  // When a message for slot `s` is on time, in milliseconds: from 1050 before the start of the slot, or
  // for preferences of the first slot of the epoch `minSeedLookahead` earlier, until 3050 after the
  // start of a later slot that depends on the role.
  lemma SlotTimeExactly(c: Chain, role: Role, s: Slot, t: Millis)
    ensures var epoch := s / c.slotsPerEpoch;
            var first := if !role.ProposerPreferences? then s
                         else if epoch < c.minSeedLookahead then 0
                         else (epoch - c.minSeedLookahead) * c.slotsPerEpoch;
            var last := match role
                        case Proposer | SyncCommittee | PTCAttester => s + 3
                        case Committee | AggregatorCommittee | Aggregator => s + c.slotsPerEpoch + 2
                        case ValidatorRegistration | VoluntaryExit => s + c.slotsPerEpoch + 2
                        case ProposerPreferences => s + 2;
            ValidateSlotTime(c, role, s, t)
            == if t < c.genesis + first * c.slotMs - 1050 then Refuse(EarlySlotMessage)
               else if t > c.genesis + last * c.slotMs + 3050 then Refuse(LateSlotMessage)
               else Accept
  {
    var last := s + Ttl(c, role);
    assert StartOf(c, last) == c.genesis + last * c.slotMs;
  }

  lemma LateMono(c: Chain, role: Role, a: Slot, b: Slot, t: Millis, u: Millis)
    requires a <= b && t <= u && Late(c, role, b, t)
    ensures Late(c, role, a, u)
  {
    StartMono(c, a + Ttl(c, role), b + Ttl(c, role));
  }

  lemma NotLateBefore(c: Chain, role: Role, s: Slot, t: Millis, u: Millis)
    requires t <= u && !Late(c, role, s, u)
    ensures !Late(c, role, s, t)
  {
    if Late(c, role, s, t) {
      LateMono(c, role, s, s, t, u);
    }
  }

  lemma EarlyMono(c: Chain, role: Role, s: Slot, t: Millis, u: Millis)
    requires t <= u && !Early(c, role, s, t)
    ensures !Early(c, role, s, u)
  {
  }

  // How far ahead of its earliest admissible moment a message's slot can lie.
  lemma LeadBound(c: Chain, role: Role, s: Slot)
    ensures role.ProposerPreferences? ==>
              s < EarliestSlot(c, role, s) + c.minSeedLookahead * c.slotsPerEpoch + c.slotsPerEpoch
  {
    var e, m, k := EpochOf(c, s), c.slotsPerEpoch, c.minSeedLookahead;
    EpochBounds(c, s);
    if e < k {
      MulMono(e, k, m);
    } else {
      assert (e - k) * m + k * m == e * m;
    }
  }

  // The widest span from a slot to the last deadline of its epoch, against the ring size.
  lemma EpochSpanBound(c: Chain, role: Role, s: Slot)
    ensures !role.ProposerPreferences? ==>
              EpochLast(c, s) + Ttl(c, role) + 2 <= s + StoredSlotCount(c, role)
    ensures role.ProposerPreferences? ==>
              EpochLast(c, s) + Ttl(c, role) <= s + c.slotsPerEpoch + 1
              && StoredSlotCount(c, role) == c.minSeedLookahead * c.slotsPerEpoch + 3 * c.slotsPerEpoch
  {
    EpochBounds(c, s);
    assert (1 + c.minSeedLookahead) * c.slotsPerEpoch == c.slotsPerEpoch + c.minSeedLookahead * c.slotsPerEpoch;
  }

  // The ring covers the window: once a message a whole ring ahead of slot `s` is admissible, every
  // slot of the epoch of `s` is past its deadline.
  lemma RingCoversWindow(c: Chain, role: Role, s: Slot, ahead: Slot, t: Millis)
    requires MarginsFitOneSlot(c)
    requires s + StoredSlotCount(c, role) <= ahead
    requires !Early(c, role, ahead, t)
    ensures Late(c, role, EpochLast(c, s), t)
  {
    EpochSpanBound(c, role, s);
    LeadBound(c, role, ahead);
    StartMono(c, EpochLast(c, s) + Ttl(c, role), EarliestSlot(c, role, ahead));
  }

  lemma CurrentSlotStarted(c: Chain, t: Millis)
    requires CurrentSlot(c, t).Some?
    ensures StartOf(c, CurrentSlot(c, t).value) <= t
  {
    var q := (t - c.genesis) / c.slotMs;
    assert t - c.genesis == c.slotMs * q + (t - c.genesis) % c.slotMs;
  }

  // What the cleaner relies on: a slot more than a ring behind the clock is past every deadline of
  // its epoch.
  lemma BehindTheRingIsLate(c: Chain, role: Role, s: Slot, now: Slot, t: Millis)
    requires MarginsFitOneSlot(c)
    requires CurrentSlot(c, t) == Some(now)
    requires s + StoredSlotCount(c, role) < now
    ensures Late(c, role, EpochLast(c, s), t)
  {
    CurrentSlotStarted(c, t);
    EpochSpanBound(c, role, s);
    StartMono(c, EpochLast(c, s) + Ttl(c, role), now);
  }
}
