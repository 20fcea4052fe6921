/**
 Whole runs of the gossip validator (message_validator/src/lib.rs): any sequence of received messages
 and cleaner passes, over any number of message ids, with a receive clock that never goes back.
 */
module ValidatorRun {
  import opened Wrappers
  import opened OperatorIds
  import opened SsvTypes
  import opened SlotTiming
  import opened DutySpec
  import opened MessageRules

  type State = map<MessageId, DutyView>

  datatype Event =
    | Received(id: MessageId, ctx: Context, signed: Signed, payload: Payload)
    | Cleaned(at: Millis)
  {
    function Time(): Millis {
      match this
      case Received(_, ctx, _, _) => ctx.receivedAt
      case Cleaned(at) => at
    }
  }

  function DutyOf(c: Chain, st: State, id: MessageId): DutyView {
    if id in st then st[id] else DutyView(map[], StoredSlotCount(c, id.role))
  }

  function Receive(
    c: Chain, st: State, id: MessageId, ctx: Context, signed: Signed, payload: Payload): (State, Verdict)
  {
    var structure := ValidateStructure(signed);
    if structure.Refuse? then (st, structure)
    else
      var (d, v) := ValidateMessage(c, id.role, ctx, signed, payload, DutyOf(c, st, id));
      (st[id := d], v)
  }

  function Clean(c: Chain, st: State, t: Millis): State {
    match CurrentSlot(c, t)
    case None => st
    case Some(now) => st - set id | id in st && st[id].Outdated(now)
  }

  function Step(c: Chain, st: State, ev: Event): (State, Verdict) {
    match ev
    case Received(id, ctx, signed, payload) => Receive(c, st, id, ctx, signed, payload)
    case Cleaned(t) => (Clean(c, st, t), Accept)
  }

  function Run(c: Chain, evs: seq<Event>): State {
    if evs == [] then map[] else Step(c, Run(c, evs[..|evs|-1]), evs[|evs|-1]).0
  }

  ghost predicate Ordered(evs: seq<Event>) {
    forall i, j :: 0 <= i <= j < |evs| ==> evs[i].Time() <= evs[j].Time()
  }

  ghost predicate AllBy(evs: seq<Event>, t: Millis) {
    forall i :: 0 <= i < |evs| ==> evs[i].Time() <= t
  }

  lemma OrderedPrefix(evs: seq<Event>, i: nat)
    requires Ordered(evs) && i < |evs|
    ensures Ordered(evs[..i]) && AllBy(evs[..i], evs[i].Time())
  {
  }

  // ---------- what one event does to one operator's ring ----------

  function Op(c: Chain, st: State, id: MessageId, o: OperatorId): OperatorView {
    DutyOf(c, st, id).Lookup(o)
  }

  // An accepted consensus message of `id` signed by `o`.
  predicate RecordsConsensus(c: Chain, st: State, ev: Event, id: MessageId, o: OperatorId) {
    && ev.Received? && ev.id == id && ev.payload.Consensus? && o in ev.signed.signers
    && Step(c, st, ev).1.Accept?
  }

  // A partial signature of `id` signed by `o` that gets as far as the ring, accepted or not.
  predicate RecordsPartial(c: Chain, st: State, ev: Event, id: MessageId, o: OperatorId) {
    && ev.Received? && ev.id == id && ev.payload.Partial?
    && ValidateStructure(ev.signed).Accept? && (forall s | s in ev.signed.signers :: s in ev.ctx.committee)
    && o == ev.signed.signers[0]
    && PartialReachesRing(c, id.role, ev.ctx, ev.signed, ev.payload.packet, DutyOf(c, st, id))
  }

  predicate Drops(c: Chain, st: State, ev: Event, id: MessageId) {
    && ev.Cleaned? && id in st && CurrentSlot(c, ev.at).Some? && st[id].Outdated(CurrentSlot(c, ev.at).value)
  }

  function OpAfter(c: Chain, st: State, ev: Event, id: MessageId, o: OperatorId): OperatorView {
    if RecordsConsensus(c, st, ev, id, o) then Op(c, st, id, o).RecordConsensus(ev.signed, ev.payload.qbft)
    else if RecordsPartial(c, st, ev, id, o) then Op(c, st, id, o).RecordPartial(ev.payload.packet).0
    else if Drops(c, st, ev, id) then FreshOperator(StoredSlotCount(c, id.role))
    else Op(c, st, id, o)
  }

  predicate Sized(c: Chain, st: State) {
    forall id | id in st :: st[id].storedSlotCount == StoredSlotCount(c, id.role)
  }

  lemma StepEffect(c: Chain, st: State, ev: Event, id: MessageId, o: OperatorId)
    requires Sized(c, st)
    ensures Sized(c, Step(c, st, ev).0)
    ensures Op(c, Step(c, st, ev).0, id, o) == OpAfter(c, st, ev, id, o)
  {
    match ev
    case Cleaned(t) =>
    case Received(eid, ctx, signed, payload) =>
      if ValidateStructure(signed).Accept? && (forall s | s in signed.signers :: s in ctx.committee) {
        var d := DutyOf(c, st, eid);
        match payload
        case Undecodable =>
        case Consensus(m) => ConsensusEffect(c, eid.role, ctx, signed, m, d, o);
        case Partial(p) => PartialOutcome(c, eid.role, ctx, signed, p, d);
      }
  }

  // A cleaner pass keeps a state exactly when some operator's last slot is at most a ring behind the
  // current one: two epochs and three slots, or for preferences three epochs and the lookahead.
  lemma CleanedExactly(c: Chain, st: State, t: Millis, id: MessageId)
    requires Sized(c, st)
    ensures var st' := Step(c, st, Cleaned(t)).0;
            var ring := if id.role.ProposerPreferences? then (3 + c.minSeedLookahead) * c.slotsPerEpoch
                        else 2 * c.slotsPerEpoch + 3;
            && (id in st' ==> id in st && st'[id] == st[id])
            && (id in st ==>
                  (id in st' <==>
                   || t < c.genesis
                   || exists o | o in st[id].operators ::
                        st[id].operators[o].maxSlot + ring >= (t - c.genesis) / c.slotMs))
  {
    assert (3 + c.minSeedLookahead) * c.slotsPerEpoch
           == (1 + c.minSeedLookahead) * c.slotsPerEpoch + 2 * c.slotsPerEpoch;
  }

  // The slot an event writes into the ring of `o`, if any.
  function Writes(c: Chain, st: State, ev: Event, id: MessageId, o: OperatorId): Option<Slot> {
    if RecordsConsensus(c, st, ev, id, o) then Some(ev.payload.qbft.height)
    else if RecordsPartial(c, st, ev, id, o) then Some(ev.payload.packet.slot)
    else None
  }

  // Every write has passed the slot-time and duty-count checks.
  lemma WriteWasAdmitted(c: Chain, st: State, ev: Event, id: MessageId, o: OperatorId)
    requires Writes(c, st, ev, id, o).Some?
    ensures var s := Writes(c, st, ev, id, o).value;
            && ValidateSlotTime(c, id.role, s, ev.Time()).Accept?
            && ValidateDutyCount(c, id.role, s, ev.ctx, Op(c, st, id, o)).Accept?
  {
    if RecordsConsensus(c, st, ev, id, o) {
      ConsensusAcceptance(c, id.role, ev.ctx, ev.signed, ev.payload.qbft, DutyOf(c, st, id));
    }
  }

  // ---------- the slots ever recorded for an operator ----------

  function Recorded(c: Chain, evs: seq<Event>, id: MessageId, o: OperatorId): set<Slot> {
    if evs == [] then {}
    else
      var before := evs[..|evs|-1];
      var w := Writes(c, Run(c, before), evs[|evs|-1], id, o);
      Recorded(c, before, id, o) + if w.Some? then {w.value} else {}
  }

  // `op` holds an entry exactly for recorded slots, and for all of them whose epoch can still be
  // asked about; counters never pass one, so their eight bits never overflow.
  ghost predicate Faithful(c: Chain, role: Role, op: OperatorView, rec: set<Slot>, t: Millis) {
    && |op.ring| == StoredSlotCount(c, role)
    && (forall s: Slot :: op.Get(s).Some? ==>
          s in rec && s <= op.maxSlot && op.Get(s).value.counts.AtMostOne())
    && (forall s: Slot :: s in rec ==>
          !Early(c, role, s, t) && (Late(c, role, EpochLast(c, s), t) || op.Get(s).Some?))
  }

  // `op2` is `op` with one entry written.
  ghost predicate Wrote(op: OperatorView, op2: OperatorView, e: SignerState) {
    && |op2.ring| == |op.ring|
    && op2.ring == op.ring[e.slot % |op.ring| := Some(e)]
    && op2.maxSlot == if e.slot > op.maxSlot then e.slot else op.maxSlot
  }

  lemma FaithfulLater(c: Chain, role: Role, op: OperatorView, rec: set<Slot>, t: Millis, u: Millis)
    requires Faithful(c, role, op, rec, t) && t <= u
    ensures Faithful(c, role, op, rec, u)
  {
    forall s: Slot | s in rec
      ensures !Early(c, role, s, u) && (Late(c, role, EpochLast(c, s), u) || op.Get(s).Some?)
    {
      EarlyMono(c, role, s, t, u);
      if Late(c, role, EpochLast(c, s), t) {
        LateMono(c, role, EpochLast(c, s), EpochLast(c, s), t, u);
      }
    }
  }

  // Two recorded slots never compete for one ring index while both can matter.
  lemma NoLiveCollision(c: Chain, role: Role, held: Slot, written: Slot, t: Millis)
    requires MarginsFitOneSlot(c)
    requires held != written && held % StoredSlotCount(c, role) == written % StoredSlotCount(c, role)
    requires !Early(c, role, held, t) && !Early(c, role, written, t) && !Late(c, role, written, t)
    ensures Late(c, role, EpochLast(c, held), t)
  {
    var n := StoredSlotCount(c, role);
    if held < written {
      SameIndexFarApart(held, written, n);
      RingCoversWindow(c, role, held, written, t);
    } else {
      SameIndexFarApart(written, held, n);
      RingCoversWindow(c, role, written, held, t);
      EpochBounds(c, written);
      LateMono(c, role, written, EpochLast(c, written), t, t);
    }
  }

  lemma FaithfulWrite(
    c: Chain, role: Role, op: OperatorView, op2: OperatorView, e: SignerState, rec: set<Slot>, t: Millis)
    requires MarginsFitOneSlot(c)
    requires Faithful(c, role, op, rec, t) && Wrote(op, op2, e) && e.counts.AtMostOne()
    requires ValidateSlotTime(c, role, e.slot, t).Accept?
    ensures Faithful(c, role, op2, rec + {e.slot}, t)
  {
    forall s: Slot
      ensures op2.Get(s) == if s == e.slot then Some(e)
                            else if s % |op.ring| == e.slot % |op.ring| then None
                            else op.Get(s)
    {
      GetAfterWrite(op, e.slot, e, op2.maxSlot, s);
    }
    forall s: Slot | s in rec
      ensures Late(c, role, EpochLast(c, s), t) || op2.Get(s).Some?
    {
      if s != e.slot && s % |op.ring| == e.slot % |op.ring| {
        NoLiveCollision(c, role, s, e.slot, t);
      }
    }
  }

  lemma FaithfulDrop(c: Chain, st: State, ev: Event, id: MessageId, o: OperatorId, rec: set<Slot>)
    requires MarginsFitOneSlot(c) && Sized(c, st)
    requires Faithful(c, id.role, Op(c, st, id, o), rec, ev.Time()) && Drops(c, st, ev, id)
    ensures Faithful(c, id.role, FreshOperator(StoredSlotCount(c, id.role)), rec, ev.Time())
  {
    var role, op, t, now := id.role, Op(c, st, id, o), ev.at, CurrentSlot(c, ev.at).value;
    forall s: Slot | s in rec
      ensures Late(c, role, EpochLast(c, s), t)
    {
      if op.Get(s).Some? {
        BehindTheRingIsLate(c, role, s, now, t);
      }
    }
  }

  // The entry a consensus message leaves behind.
  function ConsensusEntry(op: OperatorView, signed: Signed, m: QbftMessage): SignerState {
    var cur := op.Get(m.height);
    var kept := if cur.Some? && m.round <= cur.value.round then cur.value else NewSignerState(m.height, m.round);
    kept.UpdateForConsensus(signed, m)
  }

  lemma ConsensusEntryCounts(signed: Signed, m: QbftMessage, op: OperatorView)
    requires CheckSigner(signed, m, op).Accept? && signed.signers != [] && (|signed.signers| > 1 ==> m.kind.Commit?)
    requires op.Get(m.height).Some? ==> op.Get(m.height).value.counts.AtMostOne()
    ensures ConsensusEntry(op, signed, m).slot == m.height && ConsensusEntry(op, signed, m).counts.AtMostOne()
  {
  }

  lemma ConsensusWrote(c: Chain, st: State, ev: Event, id: MessageId, o: OperatorId, rec: set<Slot>)
    requires RecordsConsensus(c, st, ev, id, o)
    requires Faithful(c, id.role, Op(c, st, id, o), rec, ev.Time())
    ensures var op, e := Op(c, st, id, o), ConsensusEntry(Op(c, st, id, o), ev.signed, ev.payload.qbft);
            Wrote(op, op.RecordConsensus(ev.signed, ev.payload.qbft), e) && e.slot == ev.payload.qbft.height
            && e.counts.AtMostOne()
  {
    ConsensusAcceptance(c, id.role, ev.ctx, ev.signed, ev.payload.qbft, DutyOf(c, st, id));
    ConsensusEntryCounts(ev.signed, ev.payload.qbft, Op(c, st, id, o));
  }

  // The entry a partial signature leaves behind.
  function PartialEntry(op: OperatorView, p: Packet): SignerState {
    var cur := op.Get(p.slot);
    (if cur.Some? then cur.value else NewSignerState(p.slot, FIRST_ROUND)).UpdateForPartial(p).0
  }

  lemma PartialKeepsCounts(s: SignerState, p: Packet)
    requires s.counts.AtMostOne() && !s.counts.ExceedsPartialLimit(p.kind)
    ensures s.UpdateForPartial(p).0.counts.AtMostOne() && s.UpdateForPartial(p).0.slot == s.slot
  {
  }

  lemma PartialWrote(c: Chain, st: State, ev: Event, id: MessageId, o: OperatorId, rec: set<Slot>)
    requires RecordsPartial(c, st, ev, id, o)
    requires Faithful(c, id.role, Op(c, st, id, o), rec, ev.Time())
    ensures var op, e := Op(c, st, id, o), PartialEntry(Op(c, st, id, o), ev.payload.packet);
            Wrote(op, op.RecordPartial(ev.payload.packet).0, e) && e.slot == ev.payload.packet.slot
            && e.counts.AtMostOne()
  {
    var op, p := Op(c, st, id, o), ev.payload.packet;
    var cur := op.Get(p.slot);
    PartialKeepsCounts(if cur.Some? then cur.value else NewSignerState(p.slot, FIRST_ROUND), p);
  }

  lemma FaithfulStep(c: Chain, st: State, ev: Event, id: MessageId, o: OperatorId, rec: set<Slot>)
    requires MarginsFitOneSlot(c) && Sized(c, st)
    requires Faithful(c, id.role, Op(c, st, id, o), rec, ev.Time())
    ensures var w := Writes(c, st, ev, id, o);
            Faithful(c, id.role, OpAfter(c, st, ev, id, o), rec + (if w.Some? then {w.value} else {}), ev.Time())
  {
    var op, op2 := Op(c, st, id, o), OpAfter(c, st, ev, id, o);
    if Writes(c, st, ev, id, o).Some? {
      WriteWasAdmitted(c, st, ev, id, o);
      if RecordsConsensus(c, st, ev, id, o) {
        ConsensusWrote(c, st, ev, id, o, rec);
        FaithfulWrite(c, id.role, op, op2, ConsensusEntry(op, ev.signed, ev.payload.qbft), rec, ev.Time());
      } else {
        PartialWrote(c, st, ev, id, o, rec);
        FaithfulWrite(c, id.role, op, op2, PartialEntry(op, ev.payload.packet), rec, ev.Time());
      }
    } else if Drops(c, st, ev, id) {
      FaithfulDrop(c, st, ev, id, o, rec);
      assert rec + {} == rec;
    } else {
      assert rec + {} == rec;
    }
  }

  // In every run every ring stays faithful to everything ever recorded, through aliasing, round
  // replacement and cleaning.
  lemma {:induction false} RunFaithful(c: Chain, evs: seq<Event>, id: MessageId, o: OperatorId, t: Millis)
    requires MarginsFitOneSlot(c) && Ordered(evs) && AllBy(evs, t)
    ensures Sized(c, Run(c, evs))
    ensures Faithful(c, id.role, Op(c, Run(c, evs), id, o), Recorded(c, evs, id, o), t)
    decreases |evs|
  {
    if evs != [] {
      var before, ev := evs[..|evs|-1], evs[|evs|-1];
      RunFaithful(c, before, id, o, ev.Time());
      var st, rec := Run(c, before), Recorded(c, before, id, o);
      StepEffect(c, st, ev, id, o);
      FaithfulStep(c, st, ev, id, o, rec);
      FaithfulLater(c, id.role, Op(c, Run(c, evs), id, o), Recorded(c, evs, id, o), ev.Time(), t);
    }
  }
}
