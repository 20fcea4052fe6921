/**
 The rule against repeated decided messages (consensus_message.rs, validate_qbft_logic;
 duty_state.rs, has_seen_signers). The rule's comment speaks of "the same signers"; the code compares
 a digest over the signers in the order the message lists them, and signers need not be sorted. An
 entry that a higher round replaces starts again with no digests, so the digest is forgotten too.
 */
module DecidedRepeats {
  import opened Wrappers
  import opened OperatorIds
  import opened SsvTypes
  import opened SlotTiming
  import opened DutySpec
  import opened MessageRules
  import opened RoundEstimate
  import opened ValidatorRun

  // ---------- what an entry remembers ----------

  // An accepted decided message for this slot, signed by `o` among others.
  predicate Decides(c: Chain, st: State, ev: Event, id: MessageId, o: OperatorId, slot: Slot) {
    RecordsConsensus(c, st, ev, id, o) && ev.payload.qbft.height == slot && |ev.signed.signers| > 1
  }

  // A consensus message of a higher round takes the place of the entry.
  predicate Replaces(c: Chain, st: State, ev: Event, id: MessageId, o: OperatorId, slot: Slot) {
    && RecordsConsensus(c, st, ev, id, o) && ev.payload.qbft.height == slot
    && Op(c, st, id, o).Get(slot).Some? && ev.payload.qbft.round > Op(c, st, id, o).Get(slot).value.round
  }

  // Another slot takes the ring index.
  predicate Displaces(c: Chain, st: State, ev: Event, id: MessageId, o: OperatorId, slot: Slot) {
    var w := Writes(c, st, ev, id, o);
    w.Some? && w.value != slot && w.value % StoredSlotCount(c, id.role) == slot % StoredSlotCount(c, id.role)
  }

  predicate Forgets(c: Chain, st: State, ev: Event, id: MessageId, o: OperatorId, slot: Slot) {
    Replaces(c, st, ev, id, o, slot) || Displaces(c, st, ev, id, o, slot) || Drops(c, st, ev, id)
  }

  // The digests of the decided messages accepted since the entry was last forgotten.
  function Seen(c: Chain, evs: seq<Event>, id: MessageId, o: OperatorId, slot: Slot): set<seq<nat>> {
    if evs == [] then {}
    else
      var before, ev := evs[..|evs|-1], evs[|evs|-1];
      var st := Run(c, before);
      (if Forgets(c, st, ev, id, o, slot) then {} else Seen(c, before, id, o, slot))
      + (if Decides(c, st, ev, id, o, slot) then {SignersDigest(ev.signed.signers)} else {})
  }

  function SeenSigners(op: OperatorView, slot: Slot): set<seq<nat>> {
    if op.Get(slot).Some? then op.Get(slot).value.seenSigners else {}
  }

  predicate SharesIndex(op: OperatorView, a: Slot, b: Slot) {
    a != b && a % |op.ring| == b % |op.ring|
  }

  lemma SeenAfterConsensus(op: OperatorView, signed: Signed, m: QbftMessage, slot: Slot)
    ensures var outrun := m.height == slot && op.Get(slot).Some? && m.round > op.Get(slot).value.round;
            var decides := m.height == slot && |signed.signers| > 1;
            SeenSigners(op.RecordConsensus(signed, m), slot)
            == (if outrun || SharesIndex(op, m.height, slot) then {} else SeenSigners(op, slot))
               + (if decides then {SignersDigest(signed.signers)} else {})
  {
    GetAfterWrite(op, m.height, ConsensusEntry(op, signed, m), op.RecordConsensus(signed, m).maxSlot, slot);
  }

  lemma SeenAfterPartial(op: OperatorView, p: Packet, slot: Slot)
    ensures SeenSigners(op.RecordPartial(p).0, slot)
            == if SharesIndex(op, p.slot, slot) then {} else SeenSigners(op, slot)
  {
    hide SignerState.UpdateForPartial;
    var cur := op.Get(p.slot);
    PacketKeeps(if cur.Some? then cur.value else NewSignerState(p.slot, FIRST_ROUND), p);
    GetAfterWrite(op, p.slot, PartialEntry(op, p), op.RecordPartial(p).0.maxSlot, slot);
  }

  lemma SeenStep(c: Chain, st: State, ev: Event, id: MessageId, o: OperatorId, slot: Slot)
    requires |Op(c, st, id, o).ring| == StoredSlotCount(c, id.role)
    ensures |OpAfter(c, st, ev, id, o).ring| == StoredSlotCount(c, id.role)
    ensures SeenSigners(OpAfter(c, st, ev, id, o), slot)
            == (if Forgets(c, st, ev, id, o, slot) then {} else SeenSigners(Op(c, st, id, o), slot))
               + (if Decides(c, st, ev, id, o, slot) then {SignersDigest(ev.signed.signers)} else {})
  {
    hide OperatorView.RecordConsensus, OperatorView.RecordPartial, SeenSigners, Step, PartialReachesRing,
         StoredSlotCount;
    var op := Op(c, st, id, o);
    if RecordsConsensus(c, st, ev, id, o) {
      SeenAfterConsensus(op, ev.signed, ev.payload.qbft, slot);
    } else if RecordsPartial(c, st, ev, id, o) {
      SeenAfterPartial(op, ev.payload.packet, slot);
    } else if Drops(c, st, ev, id) {
      NothingSeen(StoredSlotCount(c, id.role), slot);
    }
  }

  lemma NothingSeen(size: Positive, slot: Slot)
    ensures SeenSigners(FreshOperator(size), slot) == {}
  {
  }

  // In every run, ordered or not, an entry's seen signers are exactly the digests of the decided
  // messages accepted for that operator and slot since the entry was last forgotten.
  lemma {:induction false} SeenExactly(c: Chain, evs: seq<Event>, id: MessageId, o: OperatorId, slot: Slot)
    ensures Sized(c, Run(c, evs)) && |Op(c, Run(c, evs), id, o).ring| == StoredSlotCount(c, id.role)
    ensures SeenSigners(Op(c, Run(c, evs), id, o), slot) == Seen(c, evs, id, o, slot)
    decreases |evs|
  {
    if evs != [] {
      var before, ev := evs[..|evs|-1], evs[|evs|-1];
      SeenExactly(c, before, id, o, slot);
      StepEffect(c, Run(c, before), ev, id, o);
      SeenStep(c, Run(c, before), ev, id, o, slot);
    }
  }

  // Lists of the same length whose ids agree, position by position, in their lowest 32 bits.
  predicate SameListing(a: seq<OperatorId>, b: seq<OperatorId>) {
    |a| == |b| && forall i :: 0 <= i < |a| ==> a[i] % 0x1_0000_0000 == b[i] % 0x1_0000_0000
  }

  lemma SameDigest(a: seq<OperatorId>, b: seq<OperatorId>)
    ensures SignersDigest(a) == SignersDigest(b) <==> SameListing(a, b)
  {
    var x, y := SignersDigest(a), SignersDigest(b);
    if x == y {
      forall i | 0 <= i < |a|
        ensures a[i] % 0x1_0000_0000 == b[i] % 0x1_0000_0000
      {
        assert x[i] == y[i];
      }
    }
  }

  predicate DecidesAt(
    c: Chain, evs: seq<Event>, i: nat, id: MessageId, o: OperatorId, slot: Slot, list: seq<OperatorId>)
    requires i < |evs|
  {
    Decides(c, Run(c, evs[..i]), evs[i], id, o, slot) && SameListing(evs[i].signed.signers, list)
  }

  predicate ForgetsAt(c: Chain, evs: seq<Event>, k: nat, id: MessageId, o: OperatorId, slot: Slot)
    requires k < |evs|
  {
    Forgets(c, Run(c, evs[..k]), evs[k], id, o, slot)
  }

  // Event `i` put the listing there and nothing since has made the entry forget it.
  ghost predicate RemembersSince(
    c: Chain, evs: seq<Event>, i: nat, id: MessageId, o: OperatorId, slot: Slot, list: seq<OperatorId>)
  {
    && i < |evs| && DecidesAt(c, evs, i, id, o, slot, list)
    && forall k | i < k < |evs| :: !ForgetsAt(c, evs, k, id, o, slot)
  }

  lemma DecidedListing(
    c: Chain, st: State, ev: Event, id: MessageId, o: OperatorId, slot: Slot, list: seq<OperatorId>)
    ensures Decides(c, st, ev, id, o, slot)
            ==> ev.Received? && (SignersDigest(ev.signed.signers) == SignersDigest(list)
                                 <==> SameListing(ev.signed.signers, list))
  {
    if ev.Received? {
      SameDigest(ev.signed.signers, list);
    }
  }

  lemma {:induction false} SeenHasSource(
    c: Chain, evs: seq<Event>, id: MessageId, o: OperatorId, slot: Slot, list: seq<OperatorId>) returns (i: nat)
    requires SignersDigest(list) in Seen(c, evs, id, o, slot)
    ensures RemembersSince(c, evs, i, id, o, slot, list)
    decreases |evs|
  {
    hide Forgets, Decides, Run, SameListing, SignersDigest;
    var before := evs[..|evs|-1];
    DecidedListing(c, Run(c, before), evs[|evs| - 1], id, o, slot, list);
    if DecidesAt(c, evs, |evs| - 1, id, o, slot, list) {
      i := |evs| - 1;
    } else {
      i := SeenHasSource(c, before, id, o, slot, list);
      assert before[..i] == evs[..i];
      forall k | i < k < |evs|
        ensures !ForgetsAt(c, evs, k, id, o, slot)
      {
        if k < |before| {
          assert before[..k] == evs[..k];
          assert !ForgetsAt(c, before, k, id, o, slot);
        }
      }
    }
  }

  lemma {:induction false} SourceIsSeen(
    c: Chain, evs: seq<Event>, i: nat, id: MessageId, o: OperatorId, slot: Slot, list: seq<OperatorId>)
    requires RemembersSince(c, evs, i, id, o, slot, list)
    ensures SignersDigest(list) in Seen(c, evs, id, o, slot)
    decreases |evs|
  {
    hide Forgets, Decides, Run, SameListing, SignersDigest;
    var before := evs[..|evs|-1];
    DecidedListing(c, Run(c, before), evs[|evs| - 1], id, o, slot, list);
    if i < |before| {
      assert before[..i] == evs[..i];
      assert !ForgetsAt(c, evs, |evs| - 1, id, o, slot);
      forall k | i < k < |before|
        ensures !ForgetsAt(c, before, k, id, o, slot)
      {
        assert before[..k] == evs[..k];
        assert !ForgetsAt(c, evs, k, id, o, slot);
      }
      SourceIsSeen(c, before, i, id, o, slot, list);
    }
  }

  // ---------- when a decided message is accepted ----------

  predicate IsDecided(ev: Event) {
    ev.Received? && ev.payload.Consensus? && |ev.signed.signers| > 1
  }

  // Every rule but the one against repeats.
  predicate OtherRulesAdmit(c: Chain, st: State, ev: Event)
    requires IsDecided(ev)
  {
    && ValidateStructure(ev.signed).Accept? && (forall s | s in ev.signed.signers :: s in ev.ctx.committee)
    && StatelessRulesAdmit(c, ev.id.role, ev.ctx, ev.signed, ev.payload.qbft)
    && DutiesAdmit(c, ev.id.role, ev.ctx, ev.signed, ev.payload.qbft, DutyOf(c, st, ev.id))
  }

  lemma DecidedAcceptance(c: Chain, st: State, ev: Event)
    requires IsDecided(ev)
    ensures Step(c, st, ev).1.Accept?
            <==> OtherRulesAdmit(c, st, ev)
                 && forall o | o in ev.signed.signers ::
                      SignersDigest(ev.signed.signers) !in SeenSigners(Op(c, st, ev.id, o), ev.payload.qbft.height)
  {
    var d, m := DutyOf(c, st, ev.id), ev.payload.qbft;
    ConsensusAcceptance(c, ev.id.role, ev.ctx, ev.signed, m, d);
    assert forall o ::
        CheckSigner(ev.signed, m, d.Lookup(o)).Accept?
        <==> SignersDigest(ev.signed.signers) !in SeenSigners(Op(c, st, ev.id, o), m.height);
  }

  // After any run, a decided message, whatever its root, round or time, is accepted exactly when
  // the other rules admit it and no signer's entry still remembers this listing of signers.
  lemma DecidedAcceptedExactly(c: Chain, evs: seq<Event>, ev: Event)
    requires IsDecided(ev)
    ensures Step(c, Run(c, evs), ev).1.Accept?
            <==> OtherRulesAdmit(c, Run(c, evs), ev)
                 && forall o, i | o in ev.signed.signers && 0 <= i < |evs| ::
                      !RemembersSince(c, evs, i, ev.id, o, ev.payload.qbft.height, ev.signed.signers)
  {
    var slot, list := ev.payload.qbft.height, ev.signed.signers;
    var digest := SignersDigest(list);
    DecidedAcceptance(c, Run(c, evs), ev);
    forall o | o in ev.signed.signers
      ensures digest in SeenSigners(Op(c, Run(c, evs), ev.id, o), slot)
              <==> exists i | 0 <= i < |evs| :: RemembersSince(c, evs, i, ev.id, o, slot, list)
    {
      SeenExactly(c, evs, ev.id, o, slot);
      if digest in Seen(c, evs, ev.id, o, slot) {
        var i := SeenHasSource(c, evs, ev.id, o, slot, list);
      }
      forall i | 0 <= i < |evs| && RemembersSince(c, evs, i, ev.id, o, slot, list)
        ensures digest in Seen(c, evs, ev.id, o, slot)
      {
        SourceIsSeen(c, evs, i, ev.id, o, slot, list);
      }
    }
  }

  // ---------- while the slot is live, only a higher round makes its entry forget ----------

  lemma LiveForgets(c: Chain, st: State, ev: Event, id: MessageId, o: OperatorId, slot: Slot, rec: set<Slot>)
    requires MarginsFitOneSlot(c) && Sized(c, st)
    requires Faithful(c, id.role, Op(c, st, id, o), rec, ev.Time()) && slot in rec
    requires !Late(c, id.role, slot, ev.Time()) && Forgets(c, st, ev, id, o, slot)
    ensures Replaces(c, st, ev, id, o, slot)
  {
    if !Replaces(c, st, ev, id, o, slot) {
      if Drops(c, st, ev, id) {
        FaithfulDrop(c, st, ev, id, o, rec);
      } else {
        WriteWasAdmitted(c, st, ev, id, o);
        NoLiveCollision(c, id.role, slot, Writes(c, st, ev, id, o).value, ev.Time());
      }
      EpochBounds(c, slot);
      LateMono(c, id.role, slot, EpochLast(c, slot), ev.Time(), ev.Time());
    }
  }

  predicate ReplacesAt(c: Chain, evs: seq<Event>, k: nat, id: MessageId, o: OperatorId, slot: Slot)
    requires k < |evs|
  {
    Replaces(c, Run(c, evs[..k]), evs[k], id, o, slot)
  }

  lemma {:induction false} DecidedIsRecorded(
    c: Chain, evs: seq<Event>, i: nat, id: MessageId, o: OperatorId, slot: Slot)
    requires i < |evs| && Decides(c, Run(c, evs[..i]), evs[i], id, o, slot)
    ensures slot in Recorded(c, evs, id, o)
    decreases |evs|
  {
    var before := evs[..|evs|-1];
    if i < |before| {
      assert before[..i] == evs[..i];
      DecidedIsRecorded(c, before, i, id, o, slot);
    }
  }

  lemma LiveForgetsRecorded(c: Chain, evs: seq<Event>, k: nat, id: MessageId, o: OperatorId, slot: Slot)
    requires MarginsFitOneSlot(c) && Ordered(evs) && k < |evs|
    requires slot in Recorded(c, evs[..k], id, o) && !Late(c, id.role, slot, evs[k].Time())
    ensures ForgetsAt(c, evs, k, id, o, slot) <==> ReplacesAt(c, evs, k, id, o, slot)
  {
    if ForgetsAt(c, evs, k, id, o, slot) {
      OrderedPrefix(evs, k);
      RunFaithful(c, evs[..k], id, o, evs[k].Time());
      LiveForgets(c, Run(c, evs[..k]), evs[k], id, o, slot, Recorded(c, evs[..k], id, o));
    }
  }

  lemma LiveForgetsAt(
    c: Chain, evs: seq<Event>, i: nat, k: nat, id: MessageId, o: OperatorId, slot: Slot, list: seq<OperatorId>)
    requires MarginsFitOneSlot(c) && Ordered(evs) && i < k < |evs|
    requires DecidesAt(c, evs, i, id, o, slot, list) && !Late(c, id.role, slot, evs[k].Time())
    ensures ForgetsAt(c, evs, k, id, o, slot) <==> ReplacesAt(c, evs, k, id, o, slot)
  {
    assert evs[..k][..i] == evs[..i];
    DecidedIsRecorded(c, evs[..k], i, id, o, slot);
    LiveForgetsRecorded(c, evs, k, id, o, slot);
  }

  // Event `i` decided with this listing and every later consensus message of `o` for the slot was of
  // no higher round than its entry.
  ghost predicate Unreplaced(
    c: Chain, evs: seq<Event>, i: nat, id: MessageId, o: OperatorId, slot: Slot, list: seq<OperatorId>)
  {
    && i < |evs| && DecidesAt(c, evs, i, id, o, slot, list)
    && forall k | i < k < |evs| :: !ReplacesAt(c, evs, k, id, o, slot)
  }

  lemma LiveRemembers(
    c: Chain, evs: seq<Event>, i: nat, id: MessageId, o: OperatorId, slot: Slot, list: seq<OperatorId>, t: Millis)
    requires MarginsFitOneSlot(c) && Ordered(evs) && AllBy(evs, t) && !Late(c, id.role, slot, t)
    ensures RemembersSince(c, evs, i, id, o, slot, list) <==> Unreplaced(c, evs, i, id, o, slot, list)
  {
    if i < |evs| && DecidesAt(c, evs, i, id, o, slot, list) {
      forall k | i < k < |evs|
        ensures ForgetsAt(c, evs, k, id, o, slot) <==> ReplacesAt(c, evs, k, id, o, slot)
      {
        if Late(c, id.role, slot, evs[k].Time()) {
          LateMono(c, id.role, slot, slot, evs[k].Time(), t);
        }
        LiveForgetsAt(c, evs, i, k, id, o, slot, list);
      }
    }
  }

  // The rule as it works: a decided message that the other rules admit is refused exactly when one
  // of its signers had this very listing accepted for the slot and has not since moved the slot to
  // a higher round.
  lemma DecidedRepeatExactly(c: Chain, evs: seq<Event>, ev: Event)
    requires MarginsFitOneSlot(c) && Ordered(evs) && AllBy(evs, ev.Time())
    requires IsDecided(ev) && OtherRulesAdmit(c, Run(c, evs), ev)
    ensures Step(c, Run(c, evs), ev).1.Refuse?
            <==> exists o, i | o in ev.signed.signers && 0 <= i < |evs| ::
                   Unreplaced(c, evs, i, ev.id, o, ev.payload.qbft.height, ev.signed.signers)
  {
    var slot, list := ev.payload.qbft.height, ev.signed.signers;
    DecidedAcceptedExactly(c, evs, ev);
    forall o, i: nat
      ensures RemembersSince(c, evs, i, ev.id, o, slot, list) <==> Unreplaced(c, evs, i, ev.id, o, slot, list)
    {
      LiveRemembers(c, evs, i, ev.id, o, slot, list, ev.Time());
    }
  }

  // ---------- the rule's comment fails on concrete runs ----------

  predicate Mainnet(c: Chain) {
    c.genesis == 0 && c.slotMs == 12000 && c.slotsPerEpoch == 32 && c.epochsPerSyncCommitteePeriod == 256
  }

  // A message for slot 0 by some of the operators 1 to 4, received one second into the slot.
  function SlotZero(signers: seq<OperatorId>, kind: QbftKind, round: nat): Event {
    Received(MessageId(Committee, 0), Context([1, 2, 3, 4], [8, 9], 1000, true, {}, 0),
             Signed(signers, None, true), Consensus(QbftMessage(kind, 0, round, 77, true, true)))
  }

  function DecidedBy(signers: seq<OperatorId>): Event {
    SlotZero(signers, Commit, 1)
  }

  // Operator `o` alone moves slot 0 to round 2.
  function RoundChangeBy(o: OperatorId): Event {
    SlotZero([o], RoundChange, 2)
  }

  function OpAt(c: Chain, st: State, o: OperatorId): OperatorView {
    Op(c, st, MessageId(Committee, 0), o)
  }

  // The ring holds slot 0 at this round, remembering these digests.
  predicate HeldAt(c: Chain, op: OperatorView, round: nat, seen: set<seq<nat>>) {
    && |op.ring| == StoredSlotCount(c, Committee)
    && op.Get(0).Some? && op.Get(0).value.round == round && op.Get(0).value.seenSigners == seen
  }

  lemma SlotZeroTiming(c: Chain)
    requires Mainnet(c)
    ensures ValidateSlotTime(c, Committee, 0, 1000).Accept?
    ensures RoundInAllowedSpread(c, 0, 2, 1000)
  {
    StartMono(c, 0, Ttl(c, Committee));
    SpreadFollowsSchedule(c, 0, 2, 1000);
  }

  // With an entry or an empty ring, slot 0 is within the duty limit of a committee of two validators.
  lemma SlotZeroCount(c: Chain, ctx: Context, op: OperatorView)
    requires Mainnet(c) && ctx.validatorIndices == [8, 9]
    requires op.Get(0).Some? || op.Held(0, 32) == {}
    ensures ValidateDutyCount(c, Committee, 0, ctx, op).Accept?
  {
    assert EpochOf(c, 0) == 0 && EpochStart(c, 0) == 0;
  }

  lemma DecidedAccepted(c: Chain, st: State, signers: seq<OperatorId>)
    requires Mainnet(c) && |signers| == 3 && Distinct(signers) && forall o | o in signers :: o in [1, 2, 3, 4]
    requires forall o | o in signers :: OpAt(c, st, o).Get(0).Some? || OpAt(c, st, o).Held(0, 32) == {}
    requires forall o | o in signers :: SignersDigest(signers) !in SeenSigners(OpAt(c, st, o), 0)
    ensures Step(c, st, DecidedBy(signers)).1.Accept?
  {
    var ev := DecidedBy(signers);
    SlotZeroTiming(c);
    forall o | o in signers
      ensures ValidateDutyCount(c, Committee, 0, ev.ctx, DutyOf(c, st, ev.id).Lookup(o)).Accept?
    {
      SlotZeroCount(c, ev.ctx, OpAt(c, st, o));
    }
    DecidedAcceptance(c, st, ev);
  }

  lemma FirstDecided(c: Chain, signers: seq<OperatorId>) returns (st: State)
    requires Mainnet(c) && |signers| == 3 && Distinct(signers) && forall o | o in signers :: o in [1, 2, 3, 4]
    ensures Step(c, map[], DecidedBy(signers)) == (st, Accept) && Sized(c, st)
    ensures forall o | o in signers :: HeldAt(c, OpAt(c, st, o), 1, {SignersDigest(signers)})
  {
    var ev := DecidedBy(signers);
    st := Step(c, map[], ev).0;
    forall o
      ensures OpAt(c, map[], o).Held(0, 32) == {} && OpAt(c, map[], o).Get(0).None?
    {
    }
    DecidedAccepted(c, map[], signers);
    forall o | o in signers
      ensures HeldAt(c, OpAt(c, st, o), 1, {SignersDigest(signers)})
    {
      StepEffect(c, map[], ev, ev.id, o);
    }
    StepEffect(c, map[], ev, ev.id, 0);
  }

  lemma RoundChanged(c: Chain, st: State, o: OperatorId, seen: set<seq<nat>>) returns (st': State)
    requires Mainnet(c) && Sized(c, st) && o in [1, 2, 3, 4] && HeldAt(c, OpAt(c, st, o), 1, seen)
    ensures Step(c, st, RoundChangeBy(o)) == (st', Accept) && Sized(c, st')
    ensures HeldAt(c, OpAt(c, st', o), 2, {})
    ensures forall p | p != o :: OpAt(c, st', p) == OpAt(c, st, p)
  {
    var ev, op := RoundChangeBy(o), OpAt(c, st, o);
    st' := Step(c, st, ev).0;
    SlotZeroTiming(c);
    SlotZeroCount(c, ev.ctx, op);
    ConsensusAcceptance(c, Committee, ev.ctx, ev.signed, ev.payload.qbft, DutyOf(c, st, ev.id));
    assert Step(c, st, ev).1.Accept?;
    StepEffect(c, st, ev, ev.id, o);
    GetAfterWrite(op, 0, ConsensusEntry(op, ev.signed, ev.payload.qbft), OpAfter(c, st, ev, ev.id, o).maxSlot, 0);
    forall p | p != o
      ensures OpAt(c, st', p) == OpAt(c, st, p)
    {
      StepEffect(c, st, ev, ev.id, p);
    }
  }

  // On mainnet timing, operators 1, 2 and 3 are accepted as deciding slot 0, and then again, listed
  // in another order.
  lemma SameSignersTwice(c: Chain) returns (a: seq<OperatorId>, b: seq<OperatorId>)
    requires Mainnet(c)
    ensures a == [1, 2, 3] && b == [3, 2, 1] && multiset(a) == multiset(b)
    ensures Step(c, map[], DecidedBy(a)).1.Accept? && Step(c, Step(c, map[], DecidedBy(a)).0, DecidedBy(b)).1.Accept?
  {
    a, b := [1, 2, 3], [3, 2, 1];
    assert SignersDigest(a)[0] == 1 && SignersDigest(b)[0] == 3;
    hide HeldAt, Step;
    var st := FirstDecided(c, a);
    HeldSigners(c, st, b, 1, {SignersDigest(a)});
    DecidedAccepted(c, st, b);
  }

  // The same decided message, in the same order, is accepted twice when each of its signers sends a
  // round change for round 2 in between.
  lemma SameListingTwice(c: Chain) returns (first: Event, between: seq<Event>)
    requires Mainnet(c)
    ensures first == DecidedBy([1, 2, 3]) && between == [RoundChangeBy(1), RoundChangeBy(2), RoundChangeBy(3)]
    ensures Step(c, map[], first).1.Accept? && Step(c, Run(c, [first] + between), first).1.Accept?
  {
    hide HeldAt, Step;
    var a := [1, 2, 3];
    first, between := DecidedBy(a), [RoundChangeBy(1), RoundChangeBy(2), RoundChangeBy(3)];
    var digest := SignersDigest(a);
    var s1 := FirstDecided(c, a);
    var s2 := RoundChanged(c, s1, 1, {digest});
    var s3 := RoundChanged(c, s2, 2, {digest});
    var s4 := RoundChanged(c, s3, 3, {digest});
    RunOfFour(c, first, between[0], between[1], between[2]);
    assert [first] + between == [first, between[0], between[1], between[2]];
    HeldSigners(c, s4, a, 2, {});
    DecidedAccepted(c, s4, a);
  }

  lemma HeldSigners(c: Chain, st: State, signers: seq<OperatorId>, round: nat, seen: set<seq<nat>>)
    requires forall o | o in signers :: HeldAt(c, OpAt(c, st, o), round, seen)
    ensures forall o | o in signers :: OpAt(c, st, o).Get(0).Some? && SeenSigners(OpAt(c, st, o), 0) == seen
  {
  }

  lemma RunOfFour(c: Chain, e1: Event, e2: Event, e3: Event, e4: Event)
    ensures Run(c, [e1, e2, e3, e4])
            == Step(c, Step(c, Step(c, Step(c, map[], e1).0, e2).0, e3).0, e4).0
  {
    hide Step;
    assert [e1, e2, e3, e4][..3] == [e1, e2, e3];
    assert [e1, e2, e3][..2] == [e1, e2];
    assert [e1, e2][..1] == [e1];
    assert [e1][..0] == [];
    assert Run(c, [e1]) == Step(c, map[], e1).0;
    assert Run(c, [e1, e2]) == Step(c, Run(c, [e1]), e2).0;
    assert Run(c, [e1, e2, e3]) == Step(c, Run(c, [e1, e2]), e3).0;
  }
}
