/**
 No operator gets two single-signer messages of one kind accepted for one slot and round, and no
 message id gets two proposals accepted for one height and round, over any run.
 */
module OncePerRound {
  import opened Wrappers
  import opened OperatorIds
  import opened SsvTypes
  import opened SlotTiming
  import opened DutySpec
  import opened Leader
  import opened RoundEstimate
  import opened MessageRules
  import opened ValidatorRun

  type Key = (Slot, nat, QbftKind)

  function KeyOf(m: QbftMessage): Key {
    (m.height, m.round, m.kind)
  }

  predicate AcceptsAlone(c: Chain, st: State, ev: Event, id: MessageId, o: OperatorId) {
    RecordsConsensus(c, st, ev, id, o) && |ev.signed.signers| == 1
  }

  // The keys under which `o` had a message of its own accepted.
  function AcceptedKeys(c: Chain, evs: seq<Event>, id: MessageId, o: OperatorId): set<Key> {
    if evs == [] then {}
    else
      var before, ev := evs[..|evs|-1], evs[|evs|-1];
      AcceptedKeys(c, before, id, o)
      + (if AcceptsAlone(c, Run(c, before), ev, id, o) then {KeyOf(ev.payload.qbft)} else {})
  }

  // The entry of a key's slot bars the key from being accepted again.
  ghost predicate Bars(e: SignerState, k: Key) {
    k.1 < e.round || (k.1 == e.round && e.counts.Of(k.2) >= 1)
  }

  ghost predicate Remembers(c: Chain, role: Role, op: OperatorView, rec: set<Slot>, keys: set<Key>, t: Millis) {
    forall k :: k in keys ==>
      k.0 in rec && (Late(c, role, k.0, t) || (op.Get(k.0).Some? && Bars(op.Get(k.0).value, k)))
  }

  lemma RemembersLater(c: Chain, role: Role, op: OperatorView, rec: set<Slot>, keys: set<Key>, t: Millis, u: Millis)
    requires Remembers(c, role, op, rec, keys, t) && t <= u
    ensures Remembers(c, role, op, rec, keys, u)
  {
    forall k | k in keys && Late(c, role, k.0, t)
      ensures Late(c, role, k.0, u)
    {
      LateMono(c, role, k.0, k.0, t, u);
    }
  }

  // Rounds only grow and counters within a round only grow.
  lemma ConsensusEntryBars(op: OperatorView, signed: Signed, m: QbftMessage, k: Key)
    requires k.0 == m.height && op.Get(k.0).Some? && Bars(op.Get(k.0).value, k)
    ensures Bars(ConsensusEntry(op, signed, m), k)
  {
  }

  lemma PartialEntryBars(op: OperatorView, p: Packet, k: Key)
    requires k.0 == p.slot && op.Get(k.0).Some? && Bars(op.Get(k.0).value, k)
    ensures Bars(PartialEntry(op, p), k)
  {
  }

  lemma OwnEntryBars(op: OperatorView, signed: Signed, m: QbftMessage)
    requires |signed.signers| == 1 && CheckSigner(signed, m, op).Accept?
    ensures Bars(ConsensusEntry(op, signed, m), KeyOf(m))
  {
  }

  // A slot that is not late keeps its entry unless it is the one written.
  lemma UntouchedSlot(
    c: Chain, role: Role, op: OperatorView, op2: OperatorView, e: SignerState, rec2: set<Slot>, s: Slot, t: Millis)
    requires Faithful(c, role, op2, rec2, t) && Wrote(op, op2, e)
    requires s in rec2 && !Late(c, role, s, t) && s != e.slot
    ensures op2.Get(s).Some? && op2.Get(s) == op.Get(s)
  {
    EpochBounds(c, s);
    if Late(c, role, EpochLast(c, s), t) {
      LateMono(c, role, s, EpochLast(c, s), t, t);
    }
    GetAfterWrite(op, e.slot, e, op2.maxSlot, s);
  }

  // ... and one that was never recorded stays empty.
  lemma OtherSlotKept(
    c: Chain, role: Role, op: OperatorView, op2: OperatorView, e: SignerState, rec: set<Slot>, s: Slot, t: Millis)
    requires Faithful(c, role, op, rec, t) && Faithful(c, role, op2, rec + {e.slot}, t) && Wrote(op, op2, e)
    requires !Late(c, role, s, t) && s != e.slot
    ensures op2.Get(s) == op.Get(s)
  {
    if s in rec {
      UntouchedSlot(c, role, op, op2, e, rec + {e.slot}, s, t);
    } else {
      assert op2.Get(s).None? && op.Get(s).None?;
    }
  }

  lemma RemembersWrite(
    c: Chain, role: Role, op: OperatorView, op2: OperatorView, e: SignerState, rec: set<Slot>, keys: set<Key>,
    t: Millis)
    requires Remembers(c, role, op, rec, keys, t) && Wrote(op, op2, e)
    requires Faithful(c, role, op2, rec + {e.slot}, t)
    requires forall k :: k in keys && k.0 == e.slot && op.Get(k.0).Some? && Bars(op.Get(k.0).value, k) ==> Bars(e, k)
    ensures Remembers(c, role, op2, rec + {e.slot}, keys, t)
  {
    forall k | k in keys && !Late(c, role, k.0, t)
      ensures op2.Get(k.0).Some? && Bars(op2.Get(k.0).value, k)
    {
      if k.0 == e.slot {
        GetAfterWrite(op, e.slot, e, op2.maxSlot, e.slot);
      } else {
        UntouchedSlot(c, role, op, op2, e, rec + {e.slot}, k.0, t);
      }
    }
  }

  lemma RemembersConsensus(c: Chain, st: State, ev: Event, id: MessageId, o: OperatorId, rec: set<Slot>, keys: set<Key>)
    requires MarginsFitOneSlot(c) && Sized(c, st) && RecordsConsensus(c, st, ev, id, o)
    requires Faithful(c, id.role, Op(c, st, id, o), rec, ev.Time())
    requires Remembers(c, id.role, Op(c, st, id, o), rec, keys, ev.Time())
    ensures var own := if AcceptsAlone(c, st, ev, id, o) then {KeyOf(ev.payload.qbft)} else {};
            Remembers(c, id.role, OpAfter(c, st, ev, id, o), rec + {ev.payload.qbft.height}, keys + own, ev.Time())
  {
    var op, op2, m := Op(c, st, id, o), OpAfter(c, st, ev, id, o), ev.payload.qbft;
    var e := ConsensusEntry(op, ev.signed, m);
    ConsensusWrote(c, st, ev, id, o, rec);
    FaithfulStep(c, st, ev, id, o, rec);
    forall k | k in keys && k.0 == e.slot && op.Get(k.0).Some? && Bars(op.Get(k.0).value, k)
      ensures Bars(e, k)
    {
      ConsensusEntryBars(op, ev.signed, m, k);
    }
    RemembersWrite(c, id.role, op, op2, e, rec, keys, ev.Time());
    if AcceptsAlone(c, st, ev, id, o) {
      ConsensusAcceptance(c, id.role, ev.ctx, ev.signed, m, DutyOf(c, st, id));
      OwnEntryBars(op, ev.signed, m);
      GetAfterWrite(op, e.slot, e, op2.maxSlot, e.slot);
    }
  }

  lemma RemembersPartial(c: Chain, st: State, ev: Event, id: MessageId, o: OperatorId, rec: set<Slot>, keys: set<Key>)
    requires MarginsFitOneSlot(c) && Sized(c, st) && RecordsPartial(c, st, ev, id, o)
    requires Faithful(c, id.role, Op(c, st, id, o), rec, ev.Time())
    requires Remembers(c, id.role, Op(c, st, id, o), rec, keys, ev.Time())
    ensures Remembers(c, id.role, OpAfter(c, st, ev, id, o), rec + {ev.payload.packet.slot}, keys, ev.Time())
  {
    var op, op2, p := Op(c, st, id, o), OpAfter(c, st, ev, id, o), ev.payload.packet;
    var e := PartialEntry(op, p);
    PartialWrote(c, st, ev, id, o, rec);
    FaithfulStep(c, st, ev, id, o, rec);
    forall k | k in keys && k.0 == e.slot && op.Get(k.0).Some? && Bars(op.Get(k.0).value, k)
      ensures Bars(e, k)
    {
      PartialEntryBars(op, p, k);
    }
    RemembersWrite(c, id.role, op, op2, e, rec, keys, ev.Time());
  }

  lemma RemembersDrop(c: Chain, st: State, ev: Event, id: MessageId, o: OperatorId, rec: set<Slot>, keys: set<Key>)
    requires MarginsFitOneSlot(c) && Sized(c, st) && Drops(c, st, ev, id)
    requires Faithful(c, id.role, Op(c, st, id, o), rec, ev.Time())
    requires Remembers(c, id.role, Op(c, st, id, o), rec, keys, ev.Time())
    ensures Remembers(c, id.role, FreshOperator(StoredSlotCount(c, id.role)), rec, keys, ev.Time())
  {
    FaithfulDrop(c, st, ev, id, o, rec);
    forall k | k in keys
      ensures Late(c, id.role, k.0, ev.Time())
    {
      EpochBounds(c, k.0);
      LateMono(c, id.role, k.0, EpochLast(c, k.0), ev.Time(), ev.Time());
    }
  }

  lemma {:induction false} RunRemembers(c: Chain, evs: seq<Event>, id: MessageId, o: OperatorId, t: Millis)
    requires MarginsFitOneSlot(c) && Ordered(evs) && AllBy(evs, t)
    ensures Remembers(c, id.role, Op(c, Run(c, evs), id, o), Recorded(c, evs, id, o), AcceptedKeys(c, evs, id, o), t)
    decreases |evs|
  {
    if evs != [] {
      var before, ev := evs[..|evs|-1], evs[|evs|-1];
      var st, rec, keys := Run(c, before), Recorded(c, before, id, o), AcceptedKeys(c, before, id, o);
      RunFaithful(c, before, id, o, ev.Time());
      RunRemembers(c, before, id, o, ev.Time());
      StepEffect(c, st, ev, id, o);
      if RecordsConsensus(c, st, ev, id, o) {
        RemembersConsensus(c, st, ev, id, o, rec, keys);
      } else if RecordsPartial(c, st, ev, id, o) {
        RemembersPartial(c, st, ev, id, o, rec, keys);
      } else if Drops(c, st, ev, id) {
        RemembersDrop(c, st, ev, id, o, rec, keys);
      }
      RemembersLater(c, id.role, Op(c, Run(c, evs), id, o), Recorded(c, evs, id, o), AcceptedKeys(c, evs, id, o),
        ev.Time(), t);
    }
  }

  // ---------- the theorems ----------

  // An accepted key is not late, and its slot's entry did not bar it.
  lemma AcceptedIsNotBarred(c: Chain, st: State, ev: Event, id: MessageId, o: OperatorId)
    requires AcceptsAlone(c, st, ev, id, o)
    ensures var k := KeyOf(ev.payload.qbft);
            !Late(c, id.role, k.0, ev.Time())
            && !(Op(c, st, id, o).Get(k.0).Some? && Bars(Op(c, st, id, o).Get(k.0).value, k))
  {
    ConsensusAcceptance(c, id.role, ev.ctx, ev.signed, ev.payload.qbft, DutyOf(c, st, id));
  }

  // A key once accepted is never accepted again.
  lemma NeverAcceptedTwice(c: Chain, evs: seq<Event>, j: nat, id: MessageId, o: OperatorId)
    requires MarginsFitOneSlot(c) && Ordered(evs) && j < |evs|
    requires AcceptsAlone(c, Run(c, evs[..j]), evs[j], id, o)
    ensures KeyOf(evs[j].payload.qbft) !in AcceptedKeys(c, evs[..j], id, o)
  {
    var before, ev := evs[..j], evs[j];
    OrderedPrefix(evs, j);
    RunRemembers(c, before, id, o, ev.Time());
    AcceptedIsNotBarred(c, Run(c, before), ev, id, o);
  }

  lemma {:induction false} AcceptedStays(c: Chain, evs: seq<Event>, i: nat, id: MessageId, o: OperatorId)
    requires i < |evs| && AcceptsAlone(c, Run(c, evs[..i]), evs[i], id, o)
    ensures KeyOf(evs[i].payload.qbft) in AcceptedKeys(c, evs, id, o)
    decreases |evs|
  {
    hide Run;
    var before := evs[..|evs|-1];
    if i < |before| {
      assert before[..i] == evs[..i];
      AcceptedStays(c, before, i, id, o);
    }
  }

  // Event `i` is an accepted message of kind `kind` for this slot and round, signed by `o` alone.
  predicate AcceptedAt(
    c: Chain, evs: seq<Event>, i: nat, id: MessageId, o: OperatorId, slot: Slot, round: nat, kind: QbftKind)
    requires i < |evs|
  {
    AcceptsAlone(c, Run(c, evs[..i]), evs[i], id, o) && KeyOf(evs[i].payload.qbft) == (slot, round, kind)
  }

  // At most one single-signer message of each QBFT kind per operator, slot and round, ever.
  lemma AtMostOnePerOperator(
    c: Chain, evs: seq<Event>, i: nat, j: nat, id: MessageId, o: OperatorId, slot: Slot, round: nat, kind: QbftKind)
    requires MarginsFitOneSlot(c) && Ordered(evs) && i < |evs| && j < |evs|
    requires AcceptedAt(c, evs, i, id, o, slot, round, kind) && AcceptedAt(c, evs, j, id, o, slot, round, kind)
    ensures i == j
  {
    if i < j {
      assert evs[..j][..i] == evs[..i];
      AcceptedStays(c, evs[..j], i, id, o);
      NeverAcceptedTwice(c, evs, j, id, o);
    } else if j < i {
      assert evs[..i][..j] == evs[..j];
      AcceptedStays(c, evs[..i], j, id, o);
      NeverAcceptedTwice(c, evs, i, id, o);
    }
  }

  predicate AcceptedProposal(c: Chain, evs: seq<Event>, i: nat, id: MessageId, height: Slot, round: nat)
    requires i < |evs|
  {
    && evs[i].Received? && evs[i].id == id && evs[i].payload.Consensus?
    && KeyOf(evs[i].payload.qbft) == (height, round, Proposal)
    && Step(c, Run(c, evs[..i]), evs[i]).1.Accept?
  }

  // An accepted proposal is signed by the leader of its height and round alone.
  lemma ProposalIsLeaders(
    c: Chain, evs: seq<Event>, i: nat, id: MessageId, height: Slot, round: nat) returns (o: OperatorId)
    requires i < |evs| && AcceptedProposal(c, evs, i, id, height, round)
    ensures round >= FIRST_ROUND && RoundRobinProposer(c, height, round, evs[i].ctx.committee) == Ok(o)
    ensures AcceptedAt(c, evs, i, id, o, height, round, Proposal)
  {
    var ev := evs[i];
    ConsensusAcceptance(c, id.role, ev.ctx, ev.signed, ev.payload.qbft, DutyOf(c, Run(c, evs[..i]), id));
    o := ev.signed.signers[0];
  }

  // At most one proposal per message id, height and round across all operators, ever, as long as
  // both were judged against the same committee.
  lemma AtMostOneProposal(c: Chain, evs: seq<Event>, i: nat, j: nat, id: MessageId, height: Slot, round: nat)
    requires MarginsFitOneSlot(c) && Ordered(evs) && i < |evs| && j < |evs|
    requires AcceptedProposal(c, evs, i, id, height, round) && AcceptedProposal(c, evs, j, id, height, round)
    requires multiset(evs[i].ctx.committee) == multiset(evs[j].ctx.committee)
    ensures i == j
  {
    var o := ProposalIsLeaders(c, evs, i, id, height, round);
    var p := ProposalIsLeaders(c, evs, j, id, height, round);
    LeaderOrderIndependent(c, height, round, evs[i].ctx.committee, evs[j].ctx.committee);
    AtMostOnePerOperator(c, evs, i, j, id, o, height, round, Proposal);
  }

  // An accepted single-signer message of a round beyond the fourth arrives no earlier than the
  // scheduled start of the round three before its own.
  lemma AcceptedRoundIsDue(
    c: Chain, evs: seq<Event>, i: nat, id: MessageId, o: OperatorId, slot: Slot, round: nat, kind: QbftKind)
    requires i < |evs| && AcceptedAt(c, evs, i, id, o, slot, round, kind)
    ensures 1 <= round <= 12
    ensures round > 4 ==> RoundStartMs(round - 3) <= evs[i].Time() - StartOf(c, slot)
  {
    var ev := evs[i];
    ConsensusAcceptance(c, id.role, ev.ctx, ev.signed, ev.payload.qbft, DutyOf(c, Run(c, evs[..i]), id));
    SpreadFollowsSchedule(c, slot, round, ev.Time());
  }
}
