/**
 The validator as it works (message_validator/src/lib.rs, consensus_message.rs): message paths that
 loop over signers and update duty states in place, the map of duty states, and the cleaner's pass.
 Receiving and cleaning are proved to be the steps of ValidatorRun.
 */
module MessageValidator {
  import opened OperatorIds
  import opened SsvTypes
  import opened SlotTiming
  import opened DutySpec
  import opened RoundEstimate
  import opened MessageRules
  import opened DutyStates
  import ValidatorRun

  method ValidateCount(c: Chain, role: Role, slot: Slot, ctx: Context, op: OperatorState) returns (v: Verdict)
    requires op.Valid()
    ensures v == ValidateDutyCount(c, role, slot, ctx, op.View())
  {
    var limit := DutyLimit(c, role, slot, ctx);
    if limit.Err? {
      return Refuse(limit.error);
    }
    if limit.value.None? {
      return Accept;
    }
    var entry := op.GetSignerState(slot);
    if entry.Some? {
      return Accept;
    }
    var count := op.GetDutyCount(c, EpochOf(c, slot));
    v := if count >= limit.value.value then Refuse(ExcessiveDutyCount) else Accept;
  }

  // Applies one rule to one operator, creating it if it is new.
  method JudgeOne(rule: RingRule, o: OperatorId, d: DutyState) returns (v: Verdict)
    requires d.Valid()
    modifies d
    ensures d.Valid() && fresh(d.Repr - old(d.Repr))
    ensures d.View() == old(d.View()).Touch(o) && v == rule.Judge(old(d.View()).Lookup(o))
  {
    var op := d.GetOrCreateOperator(o);
    match rule
    case EntryRule(signed, m) =>
      var entry := op.GetSignerState(m.height);
      v := CheckEntry(signed, m, entry);
    case AdvanceRule(m) =>
      v := if op.maxSlot > m.height then Refuse(SlotAlreadyAdvanced) else Accept;
    case CountRule(c, role, slot, ctx) =>
      v := ValidateCount(c, role, slot, ctx, op);
  }

  // One rule for every signer, in the order they are listed, up to the first refusal.
  method JudgeSigners(rule: RingRule, signers: seq<OperatorId>, d: DutyState) returns (v: Verdict)
    requires d.Valid()
    modifies d
    ensures d.Valid() && fresh(d.Repr - old(d.Repr))
    ensures (d.View(), v) == CheckEach(old(d.View()), signers, rule)
  {
    ghost var start := CheckEach(d.View(), signers, rule);
    assert signers[0..] == signers;
    for i := 0 to |signers|
      invariant d.Valid() && fresh(d.Repr - old(d.Repr))
      invariant CheckEach(d.View(), signers[i..], rule) == start
    {
      CheckEachStep(d.View(), signers, i, rule);
      v := JudgeOne(rule, signers[i], d);
      if v.Refuse? {
        return;
      }
    }
    v := Accept;
  }

  lemma CheckEachStep(d: DutyView, todo: seq<OperatorId>, i: nat, rule: RingRule)
    requires i < |todo|
    ensures CheckEach(d, todo[i..], rule)
            == var v := rule.Judge(d.Lookup(todo[i]));
               if v.Refuse? then (d.Touch(todo[i]), v) else CheckEach(d.Touch(todo[i]), todo[i+1..], rule)
  {
    assert todo[i..][1..] == todo[i+1..];
  }

  method QbftLogic(c: Chain, ctx: Context, signed: Signed, m: QbftMessage, d: DutyState) returns (v: Verdict)
    requires d.Valid() && m.round >= FIRST_ROUND
    modifies d
    ensures d.Valid() && fresh(d.Repr - old(d.Repr))
    ensures (d.View(), v) == ValidateQbftLogic(c, ctx, signed, m, old(d.View()))
  {
    v := ValidateLeader(c, ctx, signed, m);
    if v.Accept? {
      v := JudgeSigners(EntryRule(signed, m), signed.signers, d);
      if v.Accept? && |signed.signers| == 1 && !RoundInAllowedSpread(c, m.height, m.round, ctx.receivedAt) {
        v := Refuse(EstimatedRoundNotInAllowedSpread);
      }
    }
  }

  method DutyLogic(
    c: Chain, role: Role, ctx: Context, signed: Signed, m: QbftMessage, d: DutyState) returns (v: Verdict)
    requires d.Valid()
    modifies d
    ensures d.Valid() && fresh(d.Repr - old(d.Repr))
    ensures (d.View(), v) == ValidateDutyLogic(c, role, ctx, signed, m, old(d.View()))
  {
    v := NotAdvanced(role, signed, m, d);
    if v.Accept? {
      v := TimingAndCounts(c, role, ctx, signed, m, d);
    }
  }

  method NotAdvanced(role: Role, signed: Signed, m: QbftMessage, d: DutyState) returns (v: Verdict)
    requires d.Valid()
    modifies d
    ensures d.Valid() && fresh(d.Repr - old(d.Repr))
    ensures (d.View(), v) == CheckAllNotAdvanced(role, signed, m, old(d.View()))
  {
    v := Accept;
    if !role.IsCommitteeRole() {
      v := JudgeSigners(AdvanceRule(m), signed.signers, d);
    }
  }

  method TimingAndCounts(
    c: Chain, role: Role, ctx: Context, signed: Signed, m: QbftMessage, d: DutyState) returns (v: Verdict)
    requires d.Valid()
    modifies d
    ensures d.Valid() && fresh(d.Repr - old(d.Repr))
    ensures (d.View(), v) == CheckTimingAndCounts(c, role, ctx, signed, m, old(d.View()))
  {
    v := if ctx.hasBeaconDuty then ValidateSlotTime(c, role, m.height, ctx.receivedAt) else Refuse(NoDuty);
    if v.Accept? {
      v := JudgeSigners(CountRule(c, role, m.height, ctx), signed.signers, d);
    }
  }

  method ConsensusMessage(
    c: Chain, role: Role, ctx: Context, signed: Signed, m: QbftMessage, d: DutyState) returns (v: Verdict)
    requires d.Valid()
    modifies d.Repr
    ensures d.Valid() && fresh(d.Repr - old(d.Repr))
    ensures (d.View(), v) == ValidateConsensus(c, role, ctx, signed, m, old(d.View()))
  {
    if !RoleActive(c, role, m.height) {
      return Refuse(RoleNotActive);
    }
    v := ValidateSemantics(role, signed, m, ctx);
    if v.Refuse? { return; }
    v := QbftLogic(c, ctx, signed, m, d);
    if v.Refuse? { return; }
    v := DutyLogic(c, role, ctx, signed, m, d);
    if v.Refuse? { return; }
    if !signed.signaturesValid {
      return Refuse(SignatureVerificationFailed);
    }
    d.UpdateForConsensusMessage(signed, m);
  }

  method PartialRules(c: Chain, role: Role, ctx: Context, p: Packet, op: OperatorState) returns (v: Verdict)
    requires op.Valid()
    ensures v == CheckPartial(c, role, ctx, p, op.View())
  {
    if role.MonotonicSlotRole() && op.maxSlot != 0 && op.maxSlot > p.slot {
      return Refuse(SlotAlreadyAdvanced);
    }
    if !ctx.hasBeaconDuty {
      return Refuse(NoDuty);
    }
    var entry := op.GetSignerState(p.slot);
    if entry.Some? && entry.value.counts.ExceedsPartialLimit(p.kind) {
      return Refuse(InvalidPartialSignatureTypeCount);
    }
    v := ValidateSlotTime(c, role, p.slot, ctx.receivedAt);
    if v.Refuse? { return; }
    v := ValidateCount(c, role, p.slot, ctx, op);
    if v.Accept? && !p.withinSizeLimits {
      v := Refuse(TooManyPartialSignatureMessages);
    }
  }

  method PartialVerdict(c: Chain, role: Role, ctx: Context, p: Packet, o: OperatorId, d: DutyState) returns (v: Verdict)
    requires d.Valid()
    modifies d
    ensures d.Valid() && fresh(d.Repr - old(d.Repr))
    ensures d.View() == old(d.View()).Touch(o) && v == CheckPartial(c, role, ctx, p, old(d.View()).Lookup(o))
  {
    var op := d.GetOrCreateOperator(o);
    v := PartialRules(c, role, ctx, p, op);
  }

  method PartialOf(
    c: Chain, role: Role, ctx: Context, signed: Signed, p: Packet, signer: OperatorId, d: DutyState)
    returns (v: Verdict)
    requires d.Valid()
    modifies d.Repr
    ensures d.Valid() && fresh(d.Repr - old(d.Repr))
    ensures (d.View(), v) == JudgeAndRecordPartial(c, role, ctx, signed, p, signer, old(d.View()))
  {
    v := PartialVerdict(c, role, ctx, p, signer, d);
    if v.Refuse? { return; }
    if !signed.signaturesValid {
      return Refuse(SignatureVerificationFailed);
    }
    v := d.UpdateForPartialSignature(p, signer);
  }

  method PartialSignature(
    c: Chain, role: Role, ctx: Context, signed: Signed, p: Packet, d: DutyState) returns (v: Verdict)
    requires d.Valid()
    modifies d.Repr
    ensures d.Valid() && fresh(d.Repr - old(d.Repr))
    ensures (d.View(), v) == ValidatePartial(c, role, ctx, signed, p, old(d.View()))
  {
    if !RoleActive(c, role, p.slot) {
      return Refuse(RoleNotActive);
    }
    v := ValidatePartialSemantics(role, signed, p);
    if v.Refuse? { return; }
    v := PartialOf(c, role, ctx, signed, p, signed.signers[0], d);
  }

  method AnyMessage(
    c: Chain, role: Role, ctx: Context, signed: Signed, payload: Payload, d: DutyState) returns (v: Verdict)
    requires d.Valid()
    modifies d.Repr
    ensures d.Valid() && fresh(d.Repr - old(d.Repr))
    ensures (d.View(), v) == ValidateMessage(c, role, ctx, signed, payload, old(d.View()))
  {
    if exists o | o in signed.signers :: o !in ctx.committee {
      return Refuse(SignerNotInCommittee);
    }
    match payload
    case Undecodable => v := Refuse(UndecodableMessageData);
    case Consensus(m) => v := ConsensusMessage(c, role, ctx, signed, m, d);
    case Partial(p) => v := PartialSignature(c, role, ctx, signed, p, d);
  }

  // No two entries share memory.
  ghost predicate Apart(regions: map<MessageId, set<object>>) {
    forall i, j | i in regions && j in regions && i != j :: regions[i] !! regions[j]
  }

  lemma StillApart(regions: map<MessageId, set<object>>, id: MessageId, region: set<object>)
    requires Apart(regions)
    requires forall i | i in regions && i != id :: region !! regions[i]
    ensures Apart(regions[id := region])
  {
  }

  lemma ApartWithout(regions: map<MessageId, set<object>>, id: MessageId)
    requires Apart(regions)
    ensures Apart(regions - {id})
  {
  }

  // A cleaner pass that has still to look at `todo`.
  ghost predicate Retained(before: ValidatorRun.State, now: Slot, todo: set<MessageId>, st: ValidatorRun.State) {
    && todo <= st.Keys <= before.Keys
    && (forall id | id in st :: st[id] == before[id])
    && forall id | id in before && id !in todo :: id in st <==> !before[id].Outdated(now)
  }

  lemma StartRetained(before: ValidatorRun.State, now: Slot)
    ensures Retained(before, now, before.Keys, before)
  {
  }

  lemma RetainedStep(before: ValidatorRun.State, now: Slot, todo: set<MessageId>, st: ValidatorRun.State, id: MessageId)
    requires Retained(before, now, todo, st) && id in todo
    ensures Retained(before, now, todo - {id}, if st[id].Outdated(now) then st - {id} else st)
  {
    hide DutyView.Outdated;
  }

  lemma AllRetained(before: ValidatorRun.State, now: Slot, st: ValidatorRun.State)
    requires Retained(before, now, {}, st)
    ensures st == before - set id | id in before && before[id].Outdated(now)
  {
    hide DutyView.Outdated;
  }

  /** The validator: one duty state per message id it has heard of, each updated in place. */
  class Validator {
    const chain: Chain
    var dutyStates: map<MessageId, DutyState>
    // What the entries hold, and the memory each of them owns.
    ghost var contents: ValidatorRun.State
    ghost var regions: map<MessageId, set<object>>
    ghost var Repr: set<object>

    ghost predicate Holds(id: MessageId)
      requires id in dutyStates
      reads this, Repr
    {
      var d := dutyStates[id];
      && id in contents && id in regions
      && d in Repr && d.Repr <= Repr && this !in d.Repr && d.Repr == regions[id]
      && d.Valid() && d.View() == contents[id]
    }

    ghost predicate Valid()
      reads this, Repr
    {
      && this in Repr && contents.Keys == dutyStates.Keys && regions.Keys == dutyStates.Keys && Apart(regions)
      && forall id | id in dutyStates :: Holds(id)
    }

    constructor (chain: Chain)
      ensures Valid() && fresh(Repr) && contents == map[] && this.chain == chain
    {
      this.chain := chain;
      dutyStates := map[];
      contents, regions, Repr := map[], map[], {this};
    }

    // A new entry in memory of its own keeps the rest.
    twostate lemma EntryAdded(id: MessageId, new d: DutyState)
      requires old(Valid()) && id !in old(dutyStates)
      requires d.Valid() && d in d.Repr && fresh(d.Repr)
      requires forall x | x in old(Repr) && x != this :: unchanged(x)
      requires dutyStates == old(dutyStates)[id := d] && contents == old(contents)[id := d.View()]
      requires regions == old(regions)[id := d.Repr] && Repr == old(Repr) + d.Repr
      ensures Valid()
    {
      hide DutyState.Valid, Apart;
      forall i | i in dutyStates && i != id
        ensures Holds(i) && d.Repr !! old(regions[i])
      {
        assert old(Holds(i));
      }
      StillApart(old(regions), id, d.Repr);
    }

    method CreateEntry(id: MessageId)
      requires Valid() && id !in dutyStates
      modifies this
      ensures Valid() && id in dutyStates && fresh(Repr - old(Repr))
      ensures contents == old(contents)[id := DutyView(map[], StoredSlotCount(chain, id.role))]
    {
      hide Apart, Holds;
      var d := new DutyState(StoredSlotCount(chain, id.role));
      dutyStates := dutyStates[id := d];
      contents, regions, Repr := contents[id := d.View()], regions[id := d.Repr], Repr + d.Repr;
      EntryAdded(id, d);
    }

    // Changing one entry's memory, and the contents to match, keeps the rest.
    twostate lemma OneEntryChanged(id: MessageId)
      requires old(Valid()) && id in old(dutyStates)
      requires dutyStates == old(dutyStates)
      requires forall x | x in old(Repr) && x !in old(regions[id]) && x != this :: unchanged(x)
      requires var d := dutyStates[id]; d.Valid() && fresh(d.Repr - old(regions[id]))
      requires contents == old(contents)[id := dutyStates[id].View()]
      requires regions == old(regions)[id := dutyStates[id].Repr] && Repr == old(Repr) + dutyStates[id].Repr
      ensures Valid()
    {
      var d := dutyStates[id];
      assert old(Holds(id));
      forall i | i in dutyStates && i != id
        ensures Holds(i) && d.Repr !! old(regions[i])
      {
        assert old(Holds(i));
        assert old(regions[i]) !! old(regions[id]);
      }
      StillApart(old(regions), id, d.Repr);
    }

    // The entry of `id` judges the message and records it.
    method Judge(id: MessageId, ctx: Context, signed: Signed, payload: Payload) returns (v: Verdict)
      requires Valid() && id in dutyStates
      modifies Repr
      ensures Valid() && fresh(Repr - old(Repr))
      ensures var (d, verdict) := ValidateMessage(chain, id.role, ctx, signed, payload, old(contents)[id]);
              contents == old(contents)[id := d] && v == verdict
    {
      hide ValidateMessage, DutyState.Valid, Apart;
      var d := dutyStates[id];
      assert Holds(id);
      v := AnyMessage(chain, id.role, ctx, signed, payload, d);
      contents, regions, Repr := contents[id := d.View()], regions[id := d.Repr], Repr + d.Repr;
      OneEntryChanged(id);
    }

    // Judges one message; a refused message may still leave an entry behind.
    method Receive(id: MessageId, ctx: Context, signed: Signed, payload: Payload) returns (v: Verdict)
      requires Valid()
      modifies Repr
      ensures Valid() && fresh(Repr - old(Repr))
      ensures (contents, v) == ValidatorRun.Step(chain, old(contents), ValidatorRun.Received(id, ctx, signed, payload))
    {
      hide ValidateMessage, ValidateStructure, Holds, Apart;
      v := ValidateStructure(signed);
      if v.Refuse? { return; }
      if id !in dutyStates {
        CreateEntry(id);
      }
      ghost var entry := contents[id];
      v := Judge(id, ctx, signed, payload);
      assert contents == old(contents)[id := ValidateMessage(chain, id.role, ctx, signed, payload, entry).0];
    }

    method Forget(id: MessageId)
      requires Valid() && id in dutyStates
      modifies this
      ensures Valid() && Repr == old(Repr)
      ensures contents == old(contents) - {id}
    {
      hide DutyState.Valid, Apart;
      ApartWithout(regions, id);
      dutyStates, contents, regions := dutyStates - {id}, contents - {id}, regions - {id};
      forall i | i in dutyStates
        ensures Holds(i)
      {
        assert old(Holds(i));
      }
    }

    method ForgetIfOutdated(id: MessageId, now: Slot)
      requires Valid() && id in dutyStates
      modifies this
      ensures Valid() && Repr == old(Repr)
      ensures contents == if old(contents)[id].Outdated(now) then old(contents) - {id} else old(contents)
    {
      hide DutyState.Valid, Apart, DutyView.Outdated;
      assert Holds(id);
      var outdated := dutyStates[id].Outdated(now);
      if outdated {
        Forget(id);
      }
    }

    // One pass of the cleaner at time `t`: retain what is not outdated.
    method Clean(t: Millis)
      requires Valid()
      modifies this
      ensures Valid() && Repr == old(Repr)
      ensures contents == ValidatorRun.Step(chain, old(contents), ValidatorRun.Cleaned(t)).0
    {
      hide Apart, Holds, DutyView.Outdated, Retained;
      var now := CurrentSlot(chain, t);
      if now.None? { return; }
      var todo := dutyStates.Keys;
      StartRetained(contents, now.value);
      while todo != {}
        invariant Valid() && Repr == old(Repr) && todo <= dutyStates.Keys
        invariant Retained(old(contents), now.value, todo, contents)
      {
        var id :| id in todo;
        RetainedStep(old(contents), now.value, todo, contents, id);
        todo := todo - {id};
        ForgetIfOutdated(id, now.value);
      }
      AllRetained(old(contents), now.value, contents);
    }
  }
}
