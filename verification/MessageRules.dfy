/**
 The rules that decide whether a signed message is accepted (message_validator/src/lib.rs,
 consensus_message.rs and partial_signature.rs), in the order the code applies them.
 Each rule set is a function from the duty state of the message id to a verdict and, because a
 lookup creates missing operators, to the duty state it leaves behind.
 */
module MessageRules {
  import opened Wrappers
  import opened OperatorIds
  import opened SsvTypes
  import opened SlotTiming
  import opened DutySpec
  import opened Leader
  import opened RoundEstimate

  // What a message is judged against besides the duty state. The duty provider's answers enter as
  // values: `hasBeaconDuty` is the outcome of the beacon-duty lookup for this message.
  datatype Context = Context(
    committee: seq<OperatorId>, validatorIndices: seq<ValidatorIndex>, receivedAt: Millis,
    hasBeaconDuty: bool, syncMembers: set<(nat, ValidatorIndex)>, exitDutyCount: nat)

  function ValidateStructure(signed: Signed): Verdict {
    if signed.signers == [] then Refuse(NoSigners)
    else if 0 in signed.signers then Refuse(ZeroSigner)
    else if !Distinct(signed.signers) then Refuse(DuplicatedSigner)
    else Accept
  }

  predicate GloasActive(c: Chain, e: Epoch) {
    c.gloasEpoch.Some? && c.gloasEpoch.value <= e
  }

  predicate RoleActive(c: Chain, role: Role, slot: Slot) {
    var e := EpochOf(c, slot);
    && (role.AggregatorCommittee? ==> BooleActive(c, e))
    && (role.Aggregator? || role.SyncCommittee? ==> !BooleActive(c, e))
    && (role.ValidatorRegistration? ==> !GloasActive(c, e))
    && (role.PTCAttester? || role.ProposerPreferences? ==> GloasActive(c, e))
  }

  // ---------- consensus messages ----------

  function ValidateSemantics(role: Role, signed: Signed, m: QbftMessage, ctx: Context): Verdict {
    var signers := |signed.signers|;
    if signers > 1 && !m.kind.Commit? then Refuse(NonDecidedWithMultipleSigners)
    else if signers > 1 && signers < QuorumSize(|ctx.committee|) then Refuse(DecidedNotEnoughSigners)
    else if signed.fullDataHash.Some? && (m.kind.Prepare? || (m.kind.Commit? && signers == 1))
    then Refuse(PrepareOrCommitWithFullData)
    else if signed.fullDataHash.Some? && signed.fullDataHash.value != m.root then Refuse(InvalidHash)
    else if m.round == 0 then Refuse(ZeroRound)
    else if role.MaxRound().None? then Refuse(UnexpectedConsensusMessage)
    else if m.round > role.MaxRound().value then Refuse(RoundTooHigh)
    else if !m.identifierMatches then Refuse(MismatchedIdentifier)
    else if !m.justificationsValid then Refuse(InvalidJustifications)
    else Accept
  }

  // The rules one signer's ring entry for the message's slot imposes.
  function CheckSigner(signed: Signed, m: QbftMessage, op: OperatorView): Verdict {
    CheckEntry(signed, m, op.Get(m.height))
  }

  function CheckEntry(signed: Signed, m: QbftMessage, entry: Option<SignerState>): Verdict {
    match entry
    case None => Accept
    case Some(s) =>
      if |signed.signers| == 1 then
        if m.round < s.round then Refuse(RoundAlreadyAdvanced)
        else if m.round == s.round then
          if signed.fullDataHash.Some? && s.proposalHash.Some? && s.proposalHash.value != m.root
          then Refuse(DifferentProposalData)
          else if s.counts.ExceedsConsensusLimit(m.kind, |signed.signers|) then Refuse(DuplicatedMessage)
          else Accept
        else Accept
      else if |signed.signers| > 1 && SignersDigest(signed.signers) in s.seenSigners then Refuse(DecidedWithSameSigners)
      else Accept
  }

  function ValidateLeader(c: Chain, ctx: Context, signed: Signed, m: QbftMessage): Verdict
    requires m.round >= FIRST_ROUND
  {
    if !m.kind.Proposal? then Accept
    else if signed.signers == [] then Refuse(NoSigners)
    else
      match RoundRobinProposer(c, m.height, m.round, ctx.committee)
      case Err(e) => Refuse(e)
      case Ok(leader) => if signed.signers[0] != leader then Refuse(SignerNotLeader) else Accept
  }

  function ValidateQbftLogic(c: Chain, ctx: Context, signed: Signed, m: QbftMessage, d: DutyView): (DutyView, Verdict)
    requires m.round >= FIRST_ROUND
  {
    var leader := ValidateLeader(c, ctx, signed, m);
    if leader.Refuse? then (d, leader)
    else
      var (d1, v) := CheckEach(d, signed.signers, EntryRule(signed, m));
      if v.Refuse? then (d1, v)
      else if |signed.signers| == 1 && !RoundInAllowedSpread(c, m.height, m.round, ctx.receivedAt)
      then (d1, Refuse(EstimatedRoundNotInAllowedSpread))
      else (d1, Accept)
  }

  // ---------- duty limits ----------

  function DutyLimit(c: Chain, role: Role, slot: Slot, ctx: Context): Result<Option<nat>, ValidationFailure> {
    match role
    case VoluntaryExit => Ok(Some(ctx.exitDutyCount))
    case Aggregator | ValidatorRegistration | PTCAttester => Ok(Some(2))
    case Committee | AggregatorCommittee =>
      var validators := |ctx.validatorIndices|;
      // The membership search is skipped when it could not lower the limit.
      if validators < c.slotsPerEpoch / 2 && c.epochsPerSyncCommitteePeriod == 0
      then Err(SyncCommitteePeriodCalculationFailure)
      else if validators < c.slotsPerEpoch / 2
              && exists i | i in ctx.validatorIndices ::
                   (EpochOf(c, slot) / c.epochsPerSyncCommitteePeriod, i) in ctx.syncMembers
      then Ok(Some(c.slotsPerEpoch))
      else Ok(Some(if 2 * validators < c.slotsPerEpoch then 2 * validators else c.slotsPerEpoch))
    case Proposer | SyncCommittee => Ok(None)
    case ProposerPreferences => Ok(Some(c.slotsPerEpoch))
  }

  // How many slots of the epoch the ring holds.
  function DutyCount(c: Chain, op: OperatorView, e: Epoch): nat {
    |op.Held(EpochStart(c, e), c.slotsPerEpoch)|
  }

  function ValidateDutyCount(c: Chain, role: Role, slot: Slot, ctx: Context, op: OperatorView): Verdict {
    match DutyLimit(c, role, slot, ctx)
    case Err(e) => Refuse(e)
    case Ok(None) => Accept
    case Ok(Some(limit)) =>
      if op.Get(slot).Some? then Accept
      else if DutyCount(c, op, EpochOf(c, slot)) >= limit then Refuse(ExcessiveDutyCount)
      else Accept
  }

  // ---------- the duty rules and the whole consensus path ----------

  function CheckNotAdvanced(m: QbftMessage, op: OperatorView): Verdict {
    if op.maxSlot > m.height then Refuse(SlotAlreadyAdvanced) else Accept
  }

  // ---------- one rule for every signer's ring ----------

  datatype RingRule =
    | EntryRule(signed: Signed, m: QbftMessage)
    | AdvanceRule(m: QbftMessage)
    | CountRule(c: Chain, role: Role, slot: Slot, ctx: Context)
  {
    function Judge(op: OperatorView): Verdict {
      match this
      case EntryRule(signed, m) => CheckSigner(signed, m, op)
      case AdvanceRule(m) => CheckNotAdvanced(m, op)
      case CountRule(c, role, slot, ctx) => ValidateDutyCount(c, role, slot, ctx, op)
    }
  }

  // Applies the rule to each operator in turn, creating missing operators, until one is refused.
  function CheckEach(d: DutyView, todo: seq<OperatorId>, rule: RingRule): (DutyView, Verdict)
    decreases |todo|
  {
    if todo == [] then (d, Accept)
    else
      var v := rule.Judge(d.Lookup(todo[0]));
      if v.Refuse? then (d.Touch(todo[0]), v) else CheckEach(d.Touch(todo[0]), todo[1..], rule)
  }

  // `d'` holds the same rings as `d`.
  ghost predicate SameRings(d': DutyView, d: DutyView) {
    d'.storedSlotCount == d.storedSlotCount
    && forall o {:trigger d'.Lookup(o)} {:trigger d.Lookup(o)} :: d'.Lookup(o) == d.Lookup(o)
  }

  lemma {:induction false} CheckEachMeaning(d: DutyView, todo: seq<OperatorId>, rule: RingRule)
    ensures SameRings(CheckEach(d, todo, rule).0, d)
    ensures CheckEach(d, todo, rule).1.Accept? <==> forall o | o in todo :: rule.Judge(d.Lookup(o)).Accept?
    decreases |todo|
  {
    if todo != [] {
      assert SameRings(d.Touch(todo[0]), d);
      CheckEachMeaning(d.Touch(todo[0]), todo[1..], rule);
      assert todo == [todo[0]] + todo[1..];
    }
  }

  // When every refusal would give the same reason, that is the reason given.
  lemma {:induction false} CheckEachReason(d: DutyView, todo: seq<OperatorId>, rule: RingRule, why: ValidationFailure)
    requires forall o | o in todo :: rule.Judge(d.Lookup(o)).Accept? || rule.Judge(d.Lookup(o)) == Refuse(why)
    ensures CheckEach(d, todo, rule).1
            == if forall o | o in todo :: rule.Judge(d.Lookup(o)).Accept? then Accept else Refuse(why)
    decreases |todo|
  {
    if todo != [] {
      assert SameRings(d.Touch(todo[0]), d);
      CheckEachReason(d.Touch(todo[0]), todo[1..], rule, why);
      assert todo == [todo[0]] + todo[1..];
    }
  }

  // Skipped for committee roles, whose state is keyed by slot across many validators.
  function CheckAllNotAdvanced(role: Role, signed: Signed, m: QbftMessage, d: DutyView): (DutyView, Verdict) {
    if role.IsCommitteeRole() then (d, Accept) else CheckEach(d, signed.signers, AdvanceRule(m))
  }

  function CheckTimingAndCounts(
    c: Chain, role: Role, ctx: Context, signed: Signed, m: QbftMessage, d: DutyView): (DutyView, Verdict)
  {
    if !ctx.hasBeaconDuty then (d, Refuse(NoDuty))
    else
      var timing := ValidateSlotTime(c, role, m.height, ctx.receivedAt);
      if timing.Refuse? then (d, timing) else CheckEach(d, signed.signers, CountRule(c, role, m.height, ctx))
  }

  function ValidateDutyLogic(
    c: Chain, role: Role, ctx: Context, signed: Signed, m: QbftMessage, d: DutyView): (DutyView, Verdict)
  {
    var (d1, v1) := CheckAllNotAdvanced(role, signed, m, d);
    if v1.Refuse? then (d1, v1) else CheckTimingAndCounts(c, role, ctx, signed, m, d1)
  }

  function ValidateConsensus(
    c: Chain, role: Role, ctx: Context, signed: Signed, m: QbftMessage, d: DutyView): (DutyView, Verdict)
  {
    if !RoleActive(c, role, m.height) then (d, Refuse(RoleNotActive))
    else
      var semantics := ValidateSemantics(role, signed, m, ctx);
      if semantics.Refuse? then (d, semantics)
      else
        var (d1, v1) := ValidateQbftLogic(c, ctx, signed, m, d);
        if v1.Refuse? then (d1, v1)
        else
          var (d2, v2) := ValidateDutyLogic(c, role, ctx, signed, m, d1);
          if v2.Refuse? then (d2, v2)
          else if !signed.signaturesValid then (d2, Refuse(SignatureVerificationFailed))
          else (d2.RecordConsensus(signed.signers, signed, m), Accept)
  }

  // ---------- partial signatures ----------

  predicate KindMatchesRole(kind: PartialKind, role: Role) {
    match role
    case Committee => kind.PostConsensus?
    case PTCAttester => kind.PTCAttesterSig?
    case ProposerPreferences => kind.PreferencesSig? || kind.RequestAuth?
    case Aggregator => kind.PostConsensus? || kind.SelectionProofPartialSig?
    case Proposer => kind.PostConsensus? || kind.RandaoPartialSig?
    case SyncCommittee => kind.PostConsensus? || kind.ContributionProofs?
    case ValidatorRegistration => kind.ValidatorRegistrationSig?
    case VoluntaryExit => kind.VoluntaryExitSig?
    case AggregatorCommittee => kind.PostConsensus? || kind.AggregatorCommitteePartialSig?
  }

  function ValidatePartialSemantics(role: Role, signed: Signed, p: Packet): Verdict {
    if |signed.signers| != 1 then Refuse(PartialSigOneSigner)
    else if signed.fullDataHash.Some? then Refuse(FullDataNotInConsensusMessage)
    else if !KindMatchesRole(p.kind, role) then Refuse(PartialSignatureTypeRoleMismatch)
    else if !p.wellFormed then Refuse(MalformedPacket)
    else Accept
  }

  function CheckPartial(c: Chain, role: Role, ctx: Context, p: Packet, op: OperatorView): Verdict {
    if role.MonotonicSlotRole() && op.maxSlot != 0 && op.maxSlot > p.slot then Refuse(SlotAlreadyAdvanced)
    else if !ctx.hasBeaconDuty then Refuse(NoDuty)
    else
      var entry := op.Get(p.slot);
      if entry.Some? && entry.value.counts.ExceedsPartialLimit(p.kind) then Refuse(InvalidPartialSignatureTypeCount)
      else
        var timing := ValidateSlotTime(c, role, p.slot, ctx.receivedAt);
        if timing.Refuse? then timing
        else
          var count := ValidateDutyCount(c, role, p.slot, ctx, op);
          if count.Refuse? then count
          else if !p.withinSizeLimits then Refuse(TooManyPartialSignatureMessages)
          else Accept
  }

  function RecordPartialOf(d: DutyView, o: OperatorId, p: Packet): (DutyView, Verdict) {
    var (op, v) := d.Lookup(o).RecordPartial(p);
    (d.Put(o, op), v)
  }

  function JudgeAndRecordPartial(
    c: Chain, role: Role, ctx: Context, signed: Signed, p: Packet, signer: OperatorId, d: DutyView): (DutyView, Verdict)
  {
    var d1 := d.Touch(signer);
    var v := CheckPartial(c, role, ctx, p, d.Lookup(signer));
    if v.Refuse? then (d1, v)
    else if !signed.signaturesValid then (d1, Refuse(SignatureVerificationFailed))
    else RecordPartialOf(d1, signer, p)
  }

  function ValidatePartial(
    c: Chain, role: Role, ctx: Context, signed: Signed, p: Packet, d: DutyView): (DutyView, Verdict)
  {
    if !RoleActive(c, role, p.slot) then (d, Refuse(RoleNotActive))
    else
      var semantics := ValidatePartialSemantics(role, signed, p);
      if semantics.Refuse? then (d, semantics)
      else JudgeAndRecordPartial(c, role, ctx, signed, p, signed.signers[0], d)
  }

  // ---------- any message ----------

  function ValidateMessage(
    c: Chain, role: Role, ctx: Context, signed: Signed, payload: Payload, d: DutyView): (DutyView, Verdict)
  {
    if exists o | o in signed.signers :: o !in ctx.committee then (d, Refuse(SignerNotInCommittee))
    else
      match payload
      case Undecodable => (d, Refuse(UndecodableMessageData))
      case Consensus(m) => ValidateConsensus(c, role, ctx, signed, m, d)
      case Partial(p) => ValidatePartial(c, role, ctx, signed, p, d)
  }

  // ---------- what acceptance amounts to ----------

  predicate EntriesAdmit(signed: Signed, m: QbftMessage, d: DutyView) {
    forall o | o in signed.signers :: CheckSigner(signed, m, d.Lookup(o)).Accept?
  }

  predicate DutiesAdmit(c: Chain, role: Role, ctx: Context, signed: Signed, m: QbftMessage, d: DutyView) {
    forall o | o in signed.signers ::
      && (role.IsCommitteeRole() || d.Lookup(o).maxSlot <= m.height)
      && ValidateDutyCount(c, role, m.height, ctx, d.Lookup(o)).Accept?
  }

  // Everything a consensus message's acceptance says about the rings of its signers.
  predicate RingsAdmit(c: Chain, role: Role, ctx: Context, signed: Signed, m: QbftMessage, d: DutyView) {
    EntriesAdmit(signed, m, d) && DutiesAdmit(c, role, ctx, signed, m, d)
  }

  // The rules a consensus message meets or fails whatever the duty state holds.
  predicate StatelessRulesAdmit(c: Chain, role: Role, ctx: Context, signed: Signed, m: QbftMessage) {
    && RoleActive(c, role, m.height)
    && ValidateSemantics(role, signed, m, ctx).Accept?
    && ValidateLeader(c, ctx, signed, m).Accept?
    && (|signed.signers| == 1 ==> RoundInAllowedSpread(c, m.height, m.round, ctx.receivedAt))
    && ctx.hasBeaconDuty
    && ValidateSlotTime(c, role, m.height, ctx.receivedAt).Accept?
    && signed.signaturesValid
  }

  lemma QbftLogicOutcome(c: Chain, ctx: Context, signed: Signed, m: QbftMessage, d: DutyView)
    requires m.round >= FIRST_ROUND
    ensures var (d', v) := ValidateQbftLogic(c, ctx, signed, m, d);
            && SameRings(d', d)
            && (v.Accept? <==>
                && ValidateLeader(c, ctx, signed, m).Accept?
                && (|signed.signers| == 1 ==> RoundInAllowedSpread(c, m.height, m.round, ctx.receivedAt))
                && EntriesAdmit(signed, m, d))
  {
    CheckEachMeaning(d, signed.signers, EntryRule(signed, m));
    assert forall o :: EntryRule(signed, m).Judge(d.Lookup(o)) == CheckSigner(signed, m, d.Lookup(o));
  }

  lemma DutyLogicOutcome(c: Chain, role: Role, ctx: Context, signed: Signed, m: QbftMessage, d: DutyView)
    ensures var (d', v) := ValidateDutyLogic(c, role, ctx, signed, m, d);
            && SameRings(d', d)
            && (v.Accept? <==>
                && ctx.hasBeaconDuty
                && ValidateSlotTime(c, role, m.height, ctx.receivedAt).Accept?
                && DutiesAdmit(c, role, ctx, signed, m, d))
  {
    var advance, count := AdvanceRule(m), CountRule(c, role, m.height, ctx);
    CheckEachMeaning(d, signed.signers, advance);
    CheckEachMeaning(CheckAllNotAdvanced(role, signed, m, d).0, signed.signers, count);
    assert forall o :: advance.Judge(d.Lookup(o)).Accept? <==> d.Lookup(o).maxSlot <= m.height;
    assert forall o :: count.Judge(d.Lookup(o)) == ValidateDutyCount(c, role, m.height, ctx, d.Lookup(o));
  }

  lemma SameRingsSameDuties(
    c: Chain, role: Role, ctx: Context, signed: Signed, m: QbftMessage, d': DutyView, d: DutyView)
    requires SameRings(d', d)
    ensures DutiesAdmit(c, role, ctx, signed, m, d') == DutiesAdmit(c, role, ctx, signed, m, d)
  {
  }

  // Acceptance is the conjunction of all rules.
  lemma ConsensusAcceptance(c: Chain, role: Role, ctx: Context, signed: Signed, m: QbftMessage, d: DutyView)
    ensures ValidateConsensus(c, role, ctx, signed, m, d).1.Accept?
            <==> StatelessRulesAdmit(c, role, ctx, signed, m) && RingsAdmit(c, role, ctx, signed, m, d)
  {
    hide RoleActive, ValidateQbftLogic, ValidateDutyLogic, ValidateLeader, RoundInAllowedSpread, ValidateSlotTime;
    if RoleActive(c, role, m.height) && ValidateSemantics(role, signed, m, ctx).Accept? {
      var d1 := ValidateQbftLogic(c, ctx, signed, m, d).0;
      var spread := |signed.signers| == 1 ==> RoundInAllowedSpread(c, m.height, m.round, ctx.receivedAt);
      var entries, duties := EntriesAdmit(signed, m, d), DutiesAdmit(c, role, ctx, signed, m, d);
      assert ValidateQbftLogic(c, ctx, signed, m, d).1.Accept?
             <==> ValidateLeader(c, ctx, signed, m).Accept? && spread && entries by {
        QbftLogicOutcome(c, ctx, signed, m, d);
      }
      assert ValidateDutyLogic(c, role, ctx, signed, m, d1).1.Accept?
        <==> ctx.hasBeaconDuty && ValidateSlotTime(c, role, m.height, ctx.receivedAt).Accept? && duties by {
        QbftLogicOutcome(c, ctx, signed, m, d);
        DutyLogicOutcome(c, role, ctx, signed, m, d1);
        SameRingsSameDuties(c, role, ctx, signed, m, d1, d);
      }
    }
  }

  // The state left behind is the old one with every signer's ring updated once, or with every ring
  // as it was.
  lemma ConsensusEffect(c: Chain, role: Role, ctx: Context, signed: Signed, m: QbftMessage, d: DutyView, o: OperatorId)
    requires Distinct(signed.signers)
    ensures var (d', v) := ValidateConsensus(c, role, ctx, signed, m, d);
            && d'.storedSlotCount == d.storedSlotCount
            && d'.Lookup(o) == if v.Accept? && o in signed.signers
                               then d.Lookup(o).RecordConsensus(signed, m) else d.Lookup(o)
  {
    if RoleActive(c, role, m.height) && ValidateSemantics(role, signed, m, ctx).Accept? {
      QbftLogicOutcome(c, ctx, signed, m, d);
      var (d1, v1) := ValidateQbftLogic(c, ctx, signed, m, d);
      if v1.Accept? {
        DutyLogicOutcome(c, role, ctx, signed, m, d1);
        var (d2, v2) := ValidateDutyLogic(c, role, ctx, signed, m, d1);
        RecordConsensusLookup(d2, signed.signers, signed, m, o);
      }
    }
  }

  // A partial signature reaches the ring exactly when all rules but the root budget admit it.
  predicate PartialReachesRing(c: Chain, role: Role, ctx: Context, signed: Signed, p: Packet, d: DutyView) {
    && RoleActive(c, role, p.slot)
    && ValidatePartialSemantics(role, signed, p).Accept?
    && CheckPartial(c, role, ctx, p, d.Lookup(signed.signers[0])).Accept?
    && signed.signaturesValid
  }

  lemma PartialOutcome(c: Chain, role: Role, ctx: Context, signed: Signed, p: Packet, d: DutyView)
    ensures var (d', v) := ValidatePartial(c, role, ctx, signed, p, d);
            var reached := PartialReachesRing(c, role, ctx, signed, p, d);
            && (v.Accept? <==> reached && d.Lookup(signed.signers[0]).RecordPartial(p).1.Accept?)
            && d'.storedSlotCount == d.storedSlotCount
            && forall o :: d'.Lookup(o) == if reached && o == signed.signers[0]
                                           then d.Lookup(o).RecordPartial(p).0 else d.Lookup(o)
  {
  }
}
