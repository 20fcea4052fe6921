/**
 What the entry of a slot remembers of an operator's partial signatures: at most one packet before and one
 after consensus, until a higher round replaces the entry (message_validator/src/message_counts.rs,
 duty_state.rs; partial_signature.rs).
 */
module PacketMemory {
  import opened Wrappers
  import opened OperatorIds
  import opened SsvTypes
  import opened SlotTiming
  import opened DutySpec
  import opened MessageRules
  import opened ValidatorRun
  import opened DecidedRepeats

  // Packets are limited per class: after consensus, or before it; the two kinds of proposer preferences
  // are limited by their roots instead.
  predicate SameClass(a: PartialKind, b: PartialKind) {
    && a != PreferencesSig && a != RequestAuth && b != PreferencesSig && b != RequestAuth
    && (a == PostConsensus <==> b == PostConsensus)
  }

  // A packet of the class of `kind` that gets as far as the entry of the slot.
  predicate Counts(c: Chain, st: State, ev: Event, id: MessageId, o: OperatorId, slot: Slot, kind: PartialKind) {
    RecordsPartial(c, st, ev, id, o) && ev.payload.packet.slot == slot && SameClass(ev.payload.packet.kind, kind)
  }

  predicate Counted(c: Chain, evs: seq<Event>, id: MessageId, o: OperatorId, slot: Slot, kind: PartialKind) {
    evs != [] &&
    var before, ev := evs[..|evs|-1], evs[|evs|-1];
    var st := Run(c, before);
    || Counts(c, st, ev, id, o, slot, kind)
    || (Counted(c, before, id, o, slot, kind) && !Forgets(c, st, ev, id, o, slot))
  }

  // The entry of the slot refuses one more packet of this kind.
  predicate Full(op: OperatorView, slot: Slot, kind: PartialKind) {
    op.Get(slot).Some? && op.Get(slot).value.counts.ExceedsPartialLimit(kind)
  }

  lemma FullAfterConsensus(op: OperatorView, signed: Signed, m: QbftMessage, slot: Slot, kind: PartialKind)
    ensures var outrun := m.height == slot && op.Get(slot).Some? && m.round > op.Get(slot).value.round;
            Full(op.RecordConsensus(signed, m), slot, kind)
            <==> Full(op, slot, kind) && !outrun && !SharesIndex(op, m.height, slot)
  {
    GetAfterWrite(op, m.height, ConsensusEntry(op, signed, m), op.RecordConsensus(signed, m).maxSlot, slot);
  }

  lemma FullAfterPacket(op: OperatorView, p: Packet, slot: Slot, kind: PartialKind)
    ensures Full(op.RecordPartial(p).0, slot, kind)
            <==> || (p.slot == slot && SameClass(p.kind, kind))
                 || (Full(op, slot, kind) && !SharesIndex(op, p.slot, slot))
  {
    hide SignerState.UpdateForPartial;
    var cur := op.Get(p.slot);
    PacketKeeps(if cur.Some? then cur.value else NewSignerState(p.slot, FIRST_ROUND), p);
    GetAfterWrite(op, p.slot, PartialEntry(op, p), op.RecordPartial(p).0.maxSlot, slot);
  }

  lemma FullStep(c: Chain, st: State, ev: Event, id: MessageId, o: OperatorId, slot: Slot, kind: PartialKind)
    requires |Op(c, st, id, o).ring| == StoredSlotCount(c, id.role)
    ensures Full(OpAfter(c, st, ev, id, o), slot, kind)
            <==> || Counts(c, st, ev, id, o, slot, kind)
                 || (Full(Op(c, st, id, o), slot, kind) && !Forgets(c, st, ev, id, o, slot))
  {
    hide OperatorView.RecordConsensus, OperatorView.RecordPartial, Full, Step, PartialReachesRing, StoredSlotCount;
    var op := Op(c, st, id, o);
    if RecordsConsensus(c, st, ev, id, o) {
      FullAfterConsensus(op, ev.signed, ev.payload.qbft, slot, kind);
    } else if RecordsPartial(c, st, ev, id, o) {
      FullAfterPacket(op, ev.payload.packet, slot, kind);
    } else if Drops(c, st, ev, id) {
      NothingFull(StoredSlotCount(c, id.role), slot, kind);
    }
  }

  lemma NothingFull(size: Positive, slot: Slot, kind: PartialKind)
    ensures !Full(FreshOperator(size), slot, kind)
  {
  }

  // In every run, ordered or not, an entry is full for a kind exactly when a packet of its class has
  // reached it since it was last forgotten.
  lemma {:induction false} FullExactly(
    c: Chain, evs: seq<Event>, id: MessageId, o: OperatorId, slot: Slot, kind: PartialKind)
    ensures Full(Op(c, Run(c, evs), id, o), slot, kind) <==> Counted(c, evs, id, o, slot, kind)
    decreases |evs|
  {
    hide Full, Forgets, Counts, OpAfter;
    if evs == [] {
      NothingFull(StoredSlotCount(c, id.role), slot, kind);
    } else {
      var before, ev := evs[..|evs|-1], evs[|evs|-1];
      FullExactly(c, before, id, o, slot, kind);
      SeenExactly(c, before, id, o, slot);
      StepEffect(c, Run(c, before), ev, id, o);
      FullStep(c, Run(c, before), ev, id, o, slot, kind);
    }
  }

  predicate CountsAt(c: Chain, evs: seq<Event>, i: nat, id: MessageId, o: OperatorId, slot: Slot, kind: PartialKind)
    requires i < |evs|
  {
    Counts(c, Run(c, evs[..i]), evs[i], id, o, slot, kind)
  }

  // Event `i` was a packet of the class and no message of a higher round has replaced the entry since.
  ghost predicate UnreplacedPacket(
    c: Chain, evs: seq<Event>, i: nat, id: MessageId, o: OperatorId, slot: Slot, kind: PartialKind)
  {
    && i < |evs| && CountsAt(c, evs, i, id, o, slot, kind)
    && forall k | i < k < |evs| :: !ReplacesAt(c, evs, k, id, o, slot)
  }

  lemma {:induction false} CountedIsRecorded(
    c: Chain, evs: seq<Event>, i: nat, id: MessageId, o: OperatorId, slot: Slot, kind: PartialKind)
    requires i < |evs| && CountsAt(c, evs, i, id, o, slot, kind)
    ensures slot in Recorded(c, evs, id, o)
    decreases |evs|
  {
    hide RecordsConsensus, RecordsPartial;
    var before := evs[..|evs|-1];
    if i < |before| {
      assert before[..i] == evs[..i];
      CountedIsRecorded(c, before, i, id, o, slot, kind);
    } else {
      NotBoth(c, Run(c, before), evs[i], id, o);
    }
  }

  lemma NotBoth(c: Chain, st: State, ev: Event, id: MessageId, o: OperatorId)
    ensures !(RecordsConsensus(c, st, ev, id, o) && RecordsPartial(c, st, ev, id, o))
  {
  }

  lemma UnreplacedStep(
    c: Chain, evs: seq<Event>, i: nat, id: MessageId, o: OperatorId, slot: Slot, kind: PartialKind)
    requires evs != []
    ensures var n := |evs| - 1;
            UnreplacedPacket(c, evs, i, id, o, slot, kind)
            <==> if i == n then CountsAt(c, evs, n, id, o, slot, kind)
                 else UnreplacedPacket(c, evs[..n], i, id, o, slot, kind) && !ReplacesAt(c, evs, n, id, o, slot)
  {
    hide Counts, Replaces, Run;
    var before, n := evs[..|evs|-1], |evs| - 1;
    if i < n {
      assert before[..i] == evs[..i];
      forall k | i < k < n
        ensures ReplacesAt(c, before, k, id, o, slot) <==> ReplacesAt(c, evs, k, id, o, slot)
      {
        assert before[..k] == evs[..k];
      }
    }
  }

  lemma UnreplacedIsRecorded(
    c: Chain, evs: seq<Event>, i: nat, id: MessageId, o: OperatorId, slot: Slot, kind: PartialKind)
    requires UnreplacedPacket(c, evs, i, id, o, slot, kind)
    ensures i < |evs| && slot in Recorded(c, evs, id, o)
  {
    CountedIsRecorded(c, evs, i, id, o, slot, kind);
  }

  // For a slot that is not late, a packet is one too many exactly when an earlier one of its class has
  // reached the entry and no message of a higher round has replaced the entry since.
  lemma {:induction false} LiveFullExactly(
    c: Chain, evs: seq<Event>, id: MessageId, o: OperatorId, slot: Slot, kind: PartialKind, t: Millis)
    requires MarginsFitOneSlot(c) && Ordered(evs) && AllBy(evs, t) && !Late(c, id.role, slot, t)
    ensures Counted(c, evs, id, o, slot, kind) <==> exists i: nat :: UnreplacedPacket(c, evs, i, id, o, slot, kind)
    decreases |evs|
  {
    hide Counts, Forgets, Run, Recorded, Late, UnreplacedPacket, ReplacesAt, MarginsFitOneSlot;
    if evs == [] {
      NoneUnreplaced(c, id, o, slot, kind);
    } else {
      var before, n := evs[..|evs|-1], |evs| - 1;
      NotLateBefore(c, id.role, slot, evs[n].Time(), t);
      OrderedPrefix(evs, n);
      LiveFullExactly(c, before, id, o, slot, kind, evs[n].Time());
      UnreplacedStep(c, evs, n, id, o, slot, kind);
      if i: nat :| UnreplacedPacket(c, before, i, id, o, slot, kind) {
        UnreplacedIsRecorded(c, before, i, id, o, slot, kind);
        LiveForgetsRecorded(c, evs, n, id, o, slot);
        UnreplacedStep(c, evs, i, id, o, slot, kind);
      }
      forall i: nat | UnreplacedPacket(c, evs, i, id, o, slot, kind)
        ensures i == n || (UnreplacedPacket(c, before, i, id, o, slot, kind) && !ReplacesAt(c, evs, n, id, o, slot))
      {
        UnreplacedStep(c, evs, i, id, o, slot, kind);
      }
    }
  }

  lemma NoneUnreplaced(c: Chain, id: MessageId, o: OperatorId, slot: Slot, kind: PartialKind)
    ensures !exists i: nat :: UnreplacedPacket(c, [], i, id, o, slot, kind)
  {
  }
}
