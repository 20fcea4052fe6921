/**
 The validator against a reference that forgets nothing. Rings alias slots, entries are replaced by higher
 rounds and states are dropped by the cleaner; still, after any ordered run, the verdict on a message that
 is on time is the one told from the whole history of what was accepted before, rule by rule and reason
 by reason (message_validator/src/lib.rs, consensus_message.rs, partial_signature.rs).
 */
module History {
  import opened Wrappers
  import opened OperatorIds
  import opened SsvTypes
  import opened SlotTiming
  import opened Leader
  import opened RoundEstimate
  import opened DutySpec
  import opened MessageRules
  import opened ValidatorRun
  import opened DutyCounts
  import opened RoundMemory
  import opened PacketMemory
  import opened DecidedRepeats
  import opened RootBudgets

  // ---------- rules without memory ----------

  function SignersVerdict(signed: Signed, committee: seq<OperatorId>): (v: Verdict)
    ensures v.Accept? ==> signed.signers != [] && signed.signers[0] in committee
  {
    if |signed.signers| == 0 then Refuse(NoSigners)
    else if exists i :: 0 <= i < |signed.signers| && signed.signers[i] == 0 then Refuse(ZeroSigner)
    else if exists i, j :: 0 <= i < j < |signed.signers| && signed.signers[i] == signed.signers[j]
    then Refuse(DuplicatedSigner)
    else if exists i :: 0 <= i < |signed.signers| && signed.signers[i] !in committee then Refuse(SignerNotInCommittee)
    else Accept
  }

  // The forks at which roles come and go.
  predicate RoleOpen(c: Chain, role: Role, slot: Slot) {
    var epoch := slot / c.slotsPerEpoch;
    var boole := c.booleEpoch.Some? && c.booleEpoch.value <= epoch;
    var gloas := c.gloasEpoch.Some? && c.gloasEpoch.value <= epoch;
    match role
    case Committee | Proposer | VoluntaryExit => true
    case Aggregator | SyncCommittee => !boole
    case AggregatorCommittee => boole
    case ValidatorRegistration => !gloas
    case PTCAttester | ProposerPreferences => gloas
  }

  // What a consensus message must look like for a committee of `n`, in the order it is checked.
  function FormVerdict(role: Role, signed: Signed, m: QbftMessage, n: nat): Verdict {
    var k := |signed.signers|;
    var rounds := match role
                  case Committee | Aggregator | AggregatorCommittee => 12
                  case Proposer => 2
                  case SyncCommittee => 6
                  case ValidatorRegistration | VoluntaryExit | PTCAttester | ProposerPreferences => 0;
    if k > 1 && m.kind != Commit then Refuse(NonDecidedWithMultipleSigners)
    else if k > 1 && k <= 2 * ((n - 1) / 3) then Refuse(DecidedNotEnoughSigners)
    else if signed.fullDataHash.Some? && (m.kind == Prepare || (m.kind == Commit && k <= 1))
    then Refuse(PrepareOrCommitWithFullData)
    else if signed.fullDataHash.Some? && signed.fullDataHash != Some(m.root) then Refuse(InvalidHash)
    else if m.round < 1 then Refuse(ZeroRound)
    else if rounds == 0 then Refuse(UnexpectedConsensusMessage)
    else if m.round > rounds then Refuse(RoundTooHigh)
    else if !m.identifierMatches then Refuse(MismatchedIdentifier)
    else if !m.justificationsValid then Refuse(InvalidJustifications)
    else Accept
  }

  lemma FormExactly(role: Role, signed: Signed, m: QbftMessage, ctx: Context)
    requires signed.signers != []
    ensures ValidateSemantics(role, signed, m, ctx) == FormVerdict(role, signed, m, |ctx.committee|)
  {
  }

  // `o` has as many smaller committee members as the turn of this height and round says.
  predicate HasTurn(c: Chain, committee: seq<OperatorId>, m: QbftMessage, o: OperatorId)
    requires committee != []
  {
    var epoch := m.height / c.slotsPerEpoch;
    var shift := if c.booleEpoch.Some? && c.booleEpoch.value <= epoch then epoch else 0;
    |set x | x in committee && x < o| == (m.height + m.round - 1 + shift) % |committee|
  }

  // Rounds beyond the fourth are let in from two seconds times the rounds beyond it after slot start.
  predicate RoundDue(c: Chain, m: QbftMessage, t: Millis) {
    m.round <= 4 || 2000 * (m.round - 4) <= t - (c.genesis + m.height * c.slotMs)
  }

  lemma RoundDueExactly(c: Chain, m: QbftMessage, t: Millis)
    requires 1 <= m.round <= 12
    ensures RoundInAllowedSpread(c, m.height, m.round, t) <==> RoundDue(c, m, t)
  {
    SpreadFollowsSchedule(c, m.height, m.round, t);
    if m.round > 4 {
      RoundStartClosedForm(m.round - 3);
    }
  }

  lemma LeaderVerdict(c: Chain, ctx: Context, signed: Signed, m: QbftMessage)
    requires m.round >= FIRST_ROUND && Distinct(ctx.committee) && signed.signers != []
    requires signed.signers[0] in ctx.committee
    ensures ValidateLeader(c, ctx, signed, m)
            == if m.kind == Proposal && !HasTurn(c, ctx.committee, m, signed.signers[0]) then Refuse(SignerNotLeader)
               else Accept
  {
    LeaderExactly(c, m.height, m.round, ctx.committee, signed.signers[0]);
  }

  // ---------- rules with memory ----------

  // What the signers have had accepted for the slot before.
  ghost function SignersHistory(c: Chain, evs: seq<Event>, id: MessageId, signed: Signed, m: QbftMessage): Verdict
    requires signed.signers != []
  {
    var o := signed.signers[0];
    if |signed.signers| == 1 then
      if HigherRound(c, evs, id, o, m.height, m.round) then Refuse(RoundAlreadyAdvanced)
      else if signed.fullDataHash.Some? && OtherProposal(c, evs, id, o, m.height, m.round, m.root)
      then Refuse(DifferentProposalData)
      else if SameRoundAndKind(c, evs, id, o, m.height, m.round, m.kind) then Refuse(DuplicatedMessage)
      else Accept
    else if exists p, i: nat ::
        p in signed.signers && Unreplaced(c, evs, i, id, p, m.height, signed.signers)
    then Refuse(DecidedWithSameSigners)
    else Accept
  }

  ghost predicate OverLimit(
    c: Chain, evs: seq<Event>, id: MessageId, signers: seq<OperatorId>, slot: Slot, ctx: Context)
    requires !NoPeriod(c, id.role, ctx)
  {
    exists o | o in signers :: !WithinDuties(c, evs, id, o, slot, ctx)
  }

  // The reference's verdict on a consensus message that is on time.
  ghost function ConsensusVerdict(
    c: Chain, evs: seq<Event>, id: MessageId, ctx: Context, signed: Signed, m: QbftMessage): Verdict
  {
    var signers := SignersVerdict(signed, ctx.committee);
    if signers.Refuse? then signers
    else if !RoleOpen(c, id.role, m.height) then Refuse(RoleNotActive)
    else
      var form := FormVerdict(id.role, signed, m, |ctx.committee|);
      if form.Refuse? then form
      else if m.kind == Proposal && !HasTurn(c, ctx.committee, m, signed.signers[0]) then Refuse(SignerNotLeader)
      else
        var before := SignersHistory(c, evs, id, signed, m);
        if before.Refuse? then before
        else if |signed.signers| == 1 && !RoundDue(c, m, ctx.receivedAt) then Refuse(EstimatedRoundNotInAllowedSpread)
        else if id.role != Committee && id.role != AggregatorCommittee
                && exists o | o in signed.signers :: MovedPast(c, evs, id, o, m.height)
        then Refuse(SlotAlreadyAdvanced)
        else if !ctx.hasBeaconDuty then Refuse(NoDuty)
        else if NoPeriod(c, id.role, ctx) then Refuse(SyncCommitteePeriodCalculationFailure)
        else if OverLimit(c, evs, id, signed.signers, m.height, ctx) then Refuse(ExcessiveDutyCount)
        else if !signed.signaturesValid then Refuse(SignatureVerificationFailed)
        else Accept
  }

  lemma SignersExactly(c: Chain, st: State, id: MessageId, ctx: Context, signed: Signed, payload: Payload)
    ensures var v := SignersVerdict(signed, ctx.committee);
            Step(c, st, Received(id, ctx, signed, payload)).1
            == if v.Refuse? then v
               else match payload
                    case Undecodable => Refuse(UndecodableMessageData)
                    case Consensus(m) => ValidateConsensus(c, id.role, ctx, signed, m, DutyOf(c, st, id)).1
                    case Partial(p) => ValidatePartial(c, id.role, ctx, signed, p, DutyOf(c, st, id)).1
  {
    hide ValidateConsensus, ValidatePartial;
  }

  ghost predicate OnTime(c: Chain, evs: seq<Event>, role: Role, slot: Slot, t: Millis) {
    && MarginsFitOneSlot(c) && Ordered(evs) && AllBy(evs, t)
    && ValidateSlotTime(c, role, slot, t).Accept?
  }

  lemma SignersHistoryExactly(
    c: Chain, evs: seq<Event>, id: MessageId, signed: Signed, m: QbftMessage, t: Millis)
    requires OnTime(c, evs, id.role, m.height, t) && signed.signers != [] && m.round >= FIRST_ROUND
    ensures CheckEach(DutyOf(c, Run(c, evs), id), signed.signers, EntryRule(signed, m)).1
            == SignersHistory(c, evs, id, signed, m)
  {
    hide Run, HigherRound, OtherProposal, SameRoundAndKind, Unreplaced, OperatorView.Get;
    var d, rule, o := DutyOf(c, Run(c, evs), id), EntryRule(signed, m), signed.signers[0];
    if |signed.signers| == 1 {
      OwnEntryExactly(c, evs, id, o, signed, m, t);
      assert signed.signers == [o] && signed.signers[1..] == [];
      assert rule.Judge(d.Lookup(o)) == CheckSigner(signed, m, Op(c, Run(c, evs), id, o));
    } else {
      forall p
        ensures rule.Judge(d.Lookup(p)) == if exists i: nat :: Unreplaced(c, evs, i, id, p, m.height, signed.signers)
                                           then Refuse(DecidedWithSameSigners) else Accept
      {
        DecidedEntryExactly(c, evs, id, p, signed, m, t);
      }
      CheckEachReason(d, signed.signers, rule, DecidedWithSameSigners);
    }
  }

  lemma DecidedEntryExactly(
    c: Chain, evs: seq<Event>, id: MessageId, o: OperatorId, signed: Signed, m: QbftMessage, t: Millis)
    requires OnTime(c, evs, id.role, m.height, t) && |signed.signers| > 1
    ensures CheckSigner(signed, m, Op(c, Run(c, evs), id, o))
            == if exists i: nat :: Unreplaced(c, evs, i, id, o, m.height, signed.signers)
               then Refuse(DecidedWithSameSigners) else Accept
  {
    hide Run, Unreplaced, RemembersSince, Seen;
    var slot, list := m.height, signed.signers;
    SeenExactly(c, evs, id, o, slot);
    forall i: nat
      ensures RemembersSince(c, evs, i, id, o, slot, list) <==> Unreplaced(c, evs, i, id, o, slot, list)
    {
      LiveRemembers(c, evs, i, id, o, slot, list, t);
    }
    if SignersDigest(list) in Seen(c, evs, id, o, slot) {
      var i := SeenHasSource(c, evs, id, o, slot, list);
    } else if i: nat :| Unreplaced(c, evs, i, id, o, slot, list) {
      SourceIsSeen(c, evs, i, id, o, slot, list);
    }
  }

  lemma RoleOpenExactly(c: Chain, role: Role, slot: Slot)
    ensures RoleActive(c, role, slot) <==> RoleOpen(c, role, slot)
  {
  }

  lemma DutyHistoryExactly(
    c: Chain, evs: seq<Event>, id: MessageId, ctx: Context, signed: Signed, m: QbftMessage, d: DutyView)
    requires OnTime(c, evs, id.role, m.height, ctx.receivedAt) && SameRings(d, DutyOf(c, Run(c, evs), id))
    requires signed.signers != []
    ensures ValidateDutyLogic(c, id.role, ctx, signed, m, d).1
            == if id.role != Committee && id.role != AggregatorCommittee
                  && exists o | o in signed.signers :: MovedPast(c, evs, id, o, m.height)
               then Refuse(SlotAlreadyAdvanced)
               else if !ctx.hasBeaconDuty then Refuse(NoDuty)
               else if NoPeriod(c, id.role, ctx) then Refuse(SyncCommitteePeriodCalculationFailure)
               else if OverLimit(c, evs, id, signed.signers, m.height, ctx) then Refuse(ExcessiveDutyCount)
               else Accept
  {
    hide Run, MovedPast, WithinDuties, ValidateDutyCount, ValidateSlotTime, NoPeriod;
    var t, advance, count := ctx.receivedAt, AdvanceRule(m), CountRule(c, id.role, m.height, ctx);
    NotLate(c, id.role, m.height, t);
    forall o
      ensures advance.Judge(d.Lookup(o)).Accept? <==> !MovedPast(c, evs, id, o, m.height)
    {
      MovedPastExactly(c, evs, id, o, m.height, t);
      assert d.Lookup(o) == Op(c, Run(c, evs), id, o);
    }
    CheckEachReason(d, signed.signers, advance, SlotAlreadyAdvanced);
    CheckEachMeaning(d, signed.signers, advance);
    var d1 := CheckAllNotAdvanced(id.role, signed, m, d).0;
    forall o
      ensures count.Judge(d1.Lookup(o))
              == if NoPeriod(c, id.role, ctx) then Refuse(SyncCommitteePeriodCalculationFailure)
                 else if WithinDuties(c, evs, id, o, m.height, ctx) then Accept else Refuse(ExcessiveDutyCount)
    {
      DutyVerdictExactly(c, evs, id, o, m.height, ctx, t);
      assert d1.Lookup(o) == d.Lookup(o) == Op(c, Run(c, evs), id, o);
    }
    var why := if NoPeriod(c, id.role, ctx) then SyncCommitteePeriodCalculationFailure else ExcessiveDutyCount;
    CheckEachReason(d1, signed.signers, count, why);
    assert signed.signers[0] in signed.signers;
  }

  lemma QbftHistoryExactly(c: Chain, evs: seq<Event>, id: MessageId, ctx: Context, signed: Signed, m: QbftMessage)
    requires OnTime(c, evs, id.role, m.height, ctx.receivedAt) && Distinct(ctx.committee)
    requires signed.signers != [] && signed.signers[0] in ctx.committee && 1 <= m.round <= 12
    ensures var (d', v) := ValidateQbftLogic(c, ctx, signed, m, DutyOf(c, Run(c, evs), id));
            && SameRings(d', DutyOf(c, Run(c, evs), id))
            && v == if m.kind == Proposal && !HasTurn(c, ctx.committee, m, signed.signers[0])
               then Refuse(SignerNotLeader)
                    else
                      var before := SignersHistory(c, evs, id, signed, m);
                      if before.Refuse? then before
                      else if |signed.signers| == 1 && !RoundDue(c, m, ctx.receivedAt)
                      then Refuse(EstimatedRoundNotInAllowedSpread)
                      else Accept
  {
    hide Run, HasTurn, SignersHistory, RoundDue, RoundInAllowedSpread, CheckEach, ValidateLeader, SameRings;
    QbftLogicOutcome(c, ctx, signed, m, DutyOf(c, Run(c, evs), id));
    LeaderVerdict(c, ctx, signed, m);
    SignersHistoryExactly(c, evs, id, signed, m, ctx.receivedAt);
    RoundDueExactly(c, m, ctx.receivedAt);
  }

  // After any ordered run, the verdict on a consensus message that is on time is the reference's.
  lemma ConsensusVerdictExactly(c: Chain, evs: seq<Event>, id: MessageId, ctx: Context, signed: Signed, m: QbftMessage)
    requires OnTime(c, evs, id.role, m.height, ctx.receivedAt) && Distinct(ctx.committee)
    ensures Step(c, Run(c, evs), Received(id, ctx, signed, Consensus(m))).1
            == ConsensusVerdict(c, evs, id, ctx, signed, m)
  {
    hide Run, Step, HasTurn, SignersHistory, RoundDue, MovedPast, OverLimit, NoPeriod, RoleOpen, RoleActive, OnTime;
    hide ValidateQbftLogic, ValidateDutyLogic, SameRings, Distinct;
    var d := DutyOf(c, Run(c, evs), id);
    SignersExactly(c, Run(c, evs), id, ctx, signed, Consensus(m));
    RoleOpenExactly(c, id.role, m.height);
    if signed.signers != [] {
      FormExactly(id.role, signed, m, ctx);
    }
    if SignersVerdict(signed, ctx.committee).Accept? && FormVerdict(id.role, signed, m, |ctx.committee|).Accept? {
      QbftHistoryExactly(c, evs, id, ctx, signed, m);
      DutyHistoryExactly(c, evs, id, ctx, signed, m, ValidateQbftLogic(c, ctx, signed, m, d).0);
    }
  }

  // ---------- partial signatures ----------

  // The kinds of packets a role sends.
  predicate SendsKind(role: Role, kind: PartialKind) {
    match kind
    case PostConsensus => role in {Committee, Aggregator, Proposer, SyncCommittee, AggregatorCommittee}
    case RandaoPartialSig => role == Proposer
    case SelectionProofPartialSig => role == Aggregator
    case ContributionProofs => role == SyncCommittee
    case ValidatorRegistrationSig => role == ValidatorRegistration
    case VoluntaryExitSig => role == VoluntaryExit
    case AggregatorCommitteePartialSig => role == AggregatorCommittee
    case PTCAttesterSig => role == PTCAttester
    case PreferencesSig => role == ProposerPreferences
    case RequestAuth => role == ProposerPreferences
  }

  lemma SendsKindExactly(role: Role, kind: PartialKind)
    ensures KindMatchesRole(kind, role) <==> SendsKind(role, kind)
  {
  }

  // How many distinct signing roots the packets of one slot may bring.
  function RootsAllowed(kind: PartialKind): Option<nat> {
    match kind case PreferencesSig => Some(4) case RequestAuth => Some(8) case _ => None
  }

  ghost function RootsVerdict(c: Chain, evs: seq<Event>, id: MessageId, o: OperatorId, p: Packet): Verdict {
    var allowed, before, roots := RootsAllowed(p.kind), AcceptedRoots(c, evs, id, o, p.slot, p.kind).0,
      set r | r in p.roots;
    if allowed.None? then Accept
    else if roots == {} then Refuse(NoPartialSignatureMessages)
    else if roots <= before then Refuse(RelayedDuplicateMessage)
    else if |before + roots| > allowed.value then Refuse(TooManyDistinctSigningRoots)
    else Accept
  }

  // The reference's verdict on a packet that is on time.
  ghost function PacketVerdict(
    c: Chain, evs: seq<Event>, id: MessageId, ctx: Context, signed: Signed, p: Packet): Verdict
  {
    var signers := SignersVerdict(signed, ctx.committee);
    if signers.Refuse? then signers
    else if !RoleOpen(c, id.role, p.slot) then Refuse(RoleNotActive)
    else if |signed.signers| > 1 then Refuse(PartialSigOneSigner)
    else if signed.fullDataHash.Some? then Refuse(FullDataNotInConsensusMessage)
    else if !SendsKind(id.role, p.kind) then Refuse(PartialSignatureTypeRoleMismatch)
    else if !p.wellFormed then Refuse(MalformedPacket)
    else
      var o := signed.signers[0];
      if id.role !in {Committee, AggregatorCommittee, ProposerPreferences} && MovedPast(c, evs, id, o, p.slot)
      then Refuse(SlotAlreadyAdvanced)
      else if !ctx.hasBeaconDuty then Refuse(NoDuty)
      else if exists i: nat :: UnreplacedPacket(c, evs, i, id, o, p.slot, p.kind)
      then Refuse(InvalidPartialSignatureTypeCount)
      else if NoPeriod(c, id.role, ctx) then Refuse(SyncCommitteePeriodCalculationFailure)
      else if !WithinDuties(c, evs, id, o, p.slot, ctx) then Refuse(ExcessiveDutyCount)
      else if !p.withinSizeLimits then Refuse(TooManyPartialSignatureMessages)
      else if !signed.signaturesValid then Refuse(SignatureVerificationFailed)
      else RootsVerdict(c, evs, id, o, p)
  }

  lemma RootsExactly(c: Chain, evs: seq<Event>, id: MessageId, o: OperatorId, p: Packet, t: Millis)
    requires OnTime(c, evs, id.role, p.slot, t) && SendsKind(id.role, p.kind)
    ensures Op(c, Run(c, evs), id, o).RecordPartial(p).1 == RootsVerdict(c, evs, id, o, p)
  {
    hide Run, AcceptedRoots;
    var op := Op(c, Run(c, evs), id, o);
    var cur := op.Get(p.slot);
    var s := if cur.Some? then cur.value else NewSignerState(p.slot, FIRST_ROUND);
    if RootsAllowed(p.kind).Some? {
      BudgetsHold(c, evs, id, o, p.slot, p.kind, t);
      RootsOfEntry(s, p);
    }
  }

  lemma RootsOfEntry(s: SignerState, p: Packet)
    requires RootsAllowed(p.kind).Some?
    ensures var before, roots := s.Roots(p.kind), set r | r in p.roots;
            s.UpdateForPartial(p).1
            == if roots == {} then Refuse(NoPartialSignatureMessages)
               else if roots <= before then Refuse(RelayedDuplicateMessage)
               else if |before + roots| > RootsAllowed(p.kind).value then Refuse(TooManyDistinctSigningRoots)
               else Accept
  {
    var before, roots := s.Roots(p.kind), set r | r in p.roots;
    assert before + roots == before + (roots - before);
    assert |before + (roots - before)| == |before| + |roots - before|;
    if p.roots != [] {
      assert p.roots[0] in roots;
    }
  }

  lemma PacketRingExactly(c: Chain, evs: seq<Event>, id: MessageId, ctx: Context, o: OperatorId, p: Packet)
    requires OnTime(c, evs, id.role, p.slot, ctx.receivedAt)
    ensures CheckPartial(c, id.role, ctx, p, Op(c, Run(c, evs), id, o))
            == if id.role !in {Committee, AggregatorCommittee, ProposerPreferences} && MovedPast(c, evs, id, o, p.slot)
               then Refuse(SlotAlreadyAdvanced)
               else if !ctx.hasBeaconDuty then Refuse(NoDuty)
               else if exists i: nat :: UnreplacedPacket(c, evs, i, id, o, p.slot, p.kind)
               then Refuse(InvalidPartialSignatureTypeCount)
               else if NoPeriod(c, id.role, ctx) then Refuse(SyncCommitteePeriodCalculationFailure)
               else if !WithinDuties(c, evs, id, o, p.slot, ctx) then Refuse(ExcessiveDutyCount)
               else if !p.withinSizeLimits then Refuse(TooManyPartialSignatureMessages)
               else Accept
  {
    hide Run, MovedPast, WithinDuties, NoPeriod, ValidateDutyCount, ValidateSlotTime, UnreplacedPacket, Counted;
    var t := ctx.receivedAt;
    NotLate(c, id.role, p.slot, t);
    MovedPastExactly(c, evs, id, o, p.slot, t);
    FullExactly(c, evs, id, o, p.slot, p.kind);
    LiveFullExactly(c, evs, id, o, p.slot, p.kind, t);
    DutyVerdictExactly(c, evs, id, o, p.slot, ctx, t);
  }

  lemma NotLate(c: Chain, role: Role, slot: Slot, t: Millis)
    requires ValidateSlotTime(c, role, slot, t).Accept?
    ensures !Late(c, role, slot, t)
  {
  }

  // After any ordered run, the verdict on a packet that is on time is the reference's.
  lemma PacketVerdictExactly(c: Chain, evs: seq<Event>, id: MessageId, ctx: Context, signed: Signed, p: Packet)
    requires OnTime(c, evs, id.role, p.slot, ctx.receivedAt)
    ensures Step(c, Run(c, evs), Received(id, ctx, signed, Partial(p))).1 == PacketVerdict(c, evs, id, ctx, signed, p)
  {
    hide Run, Step, MovedPast, WithinDuties, NoPeriod, RoleOpen, RoleActive, OnTime, RootsVerdict, UnreplacedPacket;
    hide CheckPartial, OperatorView.RecordPartial;
    var d := DutyOf(c, Run(c, evs), id);
    SignersExactly(c, Run(c, evs), id, ctx, signed, Partial(p));
    RoleOpenExactly(c, id.role, p.slot);
    SendsKindExactly(id.role, p.kind);
    if signed.signers != [] {
      var o := signed.signers[0];
      PacketRingExactly(c, evs, id, ctx, o, p);
      if SendsKind(id.role, p.kind) {
        RootsExactly(c, evs, id, o, p, ctx.receivedAt);
      }
      assert d.Touch(o).Lookup(o) == d.Lookup(o);
    }
  }

  // ---------- off time ----------

  function SlotOf(payload: Payload): Option<Slot> {
    match payload case Consensus(m) => Some(m.height) case Partial(p) => Some(p.slot) case Undecodable => None
  }

  // Nothing early or late is accepted, and neither is anything that cannot be decoded.
  lemma OffTimeRefused(c: Chain, st: State, id: MessageId, ctx: Context, signed: Signed, payload: Payload)
    requires SlotOf(payload).None? || ValidateSlotTime(c, id.role, SlotOf(payload).value, ctx.receivedAt).Refuse?
    ensures Step(c, st, Received(id, ctx, signed, payload)).1.Refuse?
  {
    SignersExactly(c, st, id, ctx, signed, payload);
    match payload
    case Undecodable =>
    case Consensus(m) => ConsensusAcceptance(c, id.role, ctx, signed, m, DutyOf(c, st, id));
    case Partial(p) => PartialOutcome(c, id.role, ctx, signed, p, DutyOf(c, st, id));
  }

  // ---------- what has been recorded ----------

  // A packet that fails on its roots alone still leaves an entry for its slot.
  predicate Taken(v: Verdict) {
    || v == Accept || v == Refuse(NoPartialSignatureMessages) || v == Refuse(RelayedDuplicateMessage)
    || v == Refuse(TooManyDistinctSigningRoots)
  }

  // A consensus message for the slot, accepted, with `o` among its signers, or a packet for it, signed by
  // `o` and taken.
  predicate RecordsSlot(c: Chain, st: State, ev: Event, id: MessageId, o: OperatorId, slot: Slot) {
    && ev.Received? && ev.id == id && o in ev.signed.signers && SlotOf(ev.payload) == Some(slot)
    && var v := Step(c, st, ev).1; if ev.payload.Consensus? then v == Accept else Taken(v)
  }

  predicate RecordedAt(c: Chain, evs: seq<Event>, i: nat, id: MessageId, o: OperatorId, slot: Slot) {
    i < |evs| && RecordsSlot(c, Run(c, evs[..i]), evs[i], id, o, slot)
  }

  lemma TakenExactly(c: Chain, st: State, ev: Event, id: MessageId, o: OperatorId)
    requires ev.Received? && ev.payload.Partial?
    ensures RecordsPartial(c, st, ev, id, o)
            <==> ev.id == id && o in ev.signed.signers && Taken(Step(c, st, ev).1)
  {
    hide OperatorView.RecordPartial, CheckPartial, DutyOf;
    var p, d := ev.payload.packet, DutyOf(c, st, ev.id);
    SignersExactly(c, st, ev.id, ev.ctx, ev.signed, ev.payload);
    if ev.signed.signers != [] {
      var signer := ev.signed.signers[0];
      RingTakes(d.Lookup(signer), p);
      RulesAreNotTaken(c, ev.id.role, ev.ctx, p, d.Lookup(signer));
      assert d.Touch(signer).Lookup(signer) == d.Lookup(signer);
    }
  }

  lemma RingTakes(op: OperatorView, p: Packet)
    ensures Taken(op.RecordPartial(p).1)
  {
  }

  lemma RulesAreNotTaken(c: Chain, role: Role, ctx: Context, p: Packet, op: OperatorView)
    ensures Taken(CheckPartial(c, role, ctx, p, op)) ==> CheckPartial(c, role, ctx, p, op).Accept?
  {
    hide DutyLimit, DutyCount, Early, Late, NoPeriod, AllowedDuties, OperatorView.Get;
    LimitByRole(c, role, p.slot, ctx);
  }

  lemma RecordsSlotExactly(c: Chain, st: State, ev: Event, id: MessageId, o: OperatorId, slot: Slot)
    ensures Writes(c, st, ev, id, o) == Some(slot) <==> RecordsSlot(c, st, ev, id, o, slot)
  {
    hide Step, Taken, PartialReachesRing, ValidateStructure;
    if ev.Received? && ev.payload.Partial? {
      TakenExactly(c, st, ev, id, o);
    }
  }

  // The slots that count as recorded, told from the verdicts.
  lemma {:induction false} RecordedMeaning(c: Chain, evs: seq<Event>, id: MessageId, o: OperatorId, slot: Slot)
    ensures slot in Recorded(c, evs, id, o) <==> exists i: nat :: RecordedAt(c, evs, i, id, o, slot)
    decreases |evs|
  {
    hide Run, RecordsSlot, Writes;
    if evs != [] {
      var before, n, ev := evs[..|evs|-1], |evs| - 1, evs[|evs|-1];
      RecordedMeaning(c, before, id, o, slot);
      forall i: nat
        ensures RecordedAt(c, evs, i, id, o, slot)
                <==> RecordedAt(c, before, i, id, o, slot) || (i == n && RecordedAt(c, evs, n, id, o, slot))
      {
        assert i < n ==> before[..i] == evs[..i];
      }
      if slot in Recorded(c, before, id, o) {
        var i: nat :| RecordedAt(c, before, i, id, o, slot);
        assert RecordedAt(c, evs, i, id, o, slot);
      }
      RecordsSlotExactly(c, Run(c, before), ev, id, o, slot);
      assert RecordedAt(c, evs, n, id, o, slot) <==> RecordsSlot(c, Run(c, before), ev, id, o, slot);
    }
  }
}
