/**
 Dropping outdated duty states never changes which messages are accepted
 (message_validator/src/lib.rs, cleaner; duty_state.rs, outdated).
 */
module CleanerInvisible {
  import opened Wrappers
  import opened OperatorIds
  import opened SsvTypes
  import opened SlotTiming
  import opened DutySpec
  import opened MessageRules
  import opened ValidatorRun

  // Two rings that answer alike for every slot a message could still be accepted for.
  ghost predicate Alike(c: Chain, role: Role, a: OperatorView, b: OperatorView, t: Millis) {
    && |a.ring| == |b.ring| == StoredSlotCount(c, role)
    && (forall s: Slot :: Late(c, role, EpochLast(c, s), t) || a.Get(s) == b.Get(s))
    && (a.maxSlot == b.maxSlot || (Late(c, role, a.maxSlot, t) && Late(c, role, b.maxSlot, t)))
  }

  lemma AlikeLater(c: Chain, role: Role, a: OperatorView, b: OperatorView, t: Millis, u: Millis)
    requires Alike(c, role, a, b, t) && t <= u
    ensures Alike(c, role, a, b, u)
  {
    forall s: Slot | a.Get(s) != b.Get(s)
      ensures Late(c, role, EpochLast(c, s), u)
    {
      LateMono(c, role, EpochLast(c, s), EpochLast(c, s), t, u);
    }
    if a.maxSlot != b.maxSlot {
      LateMono(c, role, a.maxSlot, a.maxSlot, t, u);
      LateMono(c, role, b.maxSlot, b.maxSlot, t, u);
    }
  }

  lemma NotLateEpoch(c: Chain, role: Role, s: Slot, t: Millis)
    requires !Late(c, role, s, t)
    ensures !Late(c, role, EpochLast(c, s), t)
  {
    EpochBounds(c, s);
    if Late(c, role, EpochLast(c, s), t) {
      LateMono(c, role, s, EpochLast(c, s), t, t);
    }
  }

  lemma AlikeMaxSlot(c: Chain, role: Role, a: OperatorView, b: OperatorView, s: Slot, t: Millis)
    requires Alike(c, role, a, b, t) && !Late(c, role, s, t)
    ensures a.maxSlot == b.maxSlot || (a.maxSlot < s && b.maxSlot < s)
  {
    if a.maxSlot != b.maxSlot {
      if s <= a.maxSlot { LateMono(c, role, s, a.maxSlot, t, t); }
      if s <= b.maxSlot { LateMono(c, role, s, b.maxSlot, t, t); }
    }
  }

  lemma AlikeDutyCount(c: Chain, role: Role, a: OperatorView, b: OperatorView, s: Slot, ctx: Context, t: Millis)
    requires Alike(c, role, a, b, t) && !Late(c, role, s, t)
    ensures ValidateDutyCount(c, role, s, ctx, a) == ValidateDutyCount(c, role, s, ctx, b)
  {
    NotLateEpoch(c, role, s, t);
    var e := EpochOf(c, s);
    forall q: Slot | EpochStart(c, e) <= q < EpochStart(c, e) + c.slotsPerEpoch
      ensures a.Get(q) == b.Get(q)
    {
      EpochMembership(c, q, e);
    }
    assert a.Held(EpochStart(c, e), c.slotsPerEpoch) == b.Held(EpochStart(c, e), c.slotsPerEpoch);
  }

  ghost predicate AlikeStates(c: Chain, a: State, b: State, t: Millis) {
    forall id: MessageId, o: OperatorId :: Alike(c, id.role, Op(c, a, id, o), Op(c, b, id, o), t)
  }

  lemma AlikeRingAdmits(
    c: Chain, role: Role, a: OperatorView, b: OperatorView, ctx: Context, signed: Signed, m: QbftMessage)
    requires Alike(c, role, a, b, ctx.receivedAt) && !Late(c, role, m.height, ctx.receivedAt)
    ensures CheckSigner(signed, m, a) == CheckSigner(signed, m, b)
    ensures a.maxSlot <= m.height <==> b.maxSlot <= m.height
    ensures ValidateDutyCount(c, role, m.height, ctx, a) == ValidateDutyCount(c, role, m.height, ctx, b)
  {
    NotLateEpoch(c, role, m.height, ctx.receivedAt);
    AlikeMaxSlot(c, role, a, b, m.height, ctx.receivedAt);
    AlikeDutyCount(c, role, a, b, m.height, ctx, ctx.receivedAt);
    assert a.Get(m.height) == b.Get(m.height);
  }

  lemma AlikeRingsAdmit(c: Chain, role: Role, ctx: Context, signed: Signed, m: QbftMessage, a: DutyView, b: DutyView)
    requires forall o :: Alike(c, role, a.Lookup(o), b.Lookup(o), ctx.receivedAt)
    requires !Late(c, role, m.height, ctx.receivedAt)
    ensures RingsAdmit(c, role, ctx, signed, m, a) <==> RingsAdmit(c, role, ctx, signed, m, b)
  {
    forall o {:trigger a.Lookup(o)} {:trigger b.Lookup(o)} | o in signed.signers
      ensures CheckSigner(signed, m, a.Lookup(o)) == CheckSigner(signed, m, b.Lookup(o))
      ensures a.Lookup(o).maxSlot <= m.height <==> b.Lookup(o).maxSlot <= m.height
      ensures ValidateDutyCount(c, role, m.height, ctx, a.Lookup(o))
              == ValidateDutyCount(c, role, m.height, ctx, b.Lookup(o))
    {
      AlikeRingAdmits(c, role, a.Lookup(o), b.Lookup(o), ctx, signed, m);
    }
  }

  lemma AlikeConsensus(c: Chain, a: State, b: State, id: MessageId, ctx: Context, signed: Signed, m: QbftMessage)
    requires AlikeStates(c, a, b, ctx.receivedAt)
    ensures ValidateConsensus(c, id.role, ctx, signed, m, DutyOf(c, a, id)).1.Accept?
            <==> ValidateConsensus(c, id.role, ctx, signed, m, DutyOf(c, b, id)).1.Accept?
  {
    var da, db := DutyOf(c, a, id), DutyOf(c, b, id);
    ConsensusAcceptance(c, id.role, ctx, signed, m, da);
    ConsensusAcceptance(c, id.role, ctx, signed, m, db);
    if !Late(c, id.role, m.height, ctx.receivedAt) {
      forall o
        ensures Alike(c, id.role, da.Lookup(o), db.Lookup(o), ctx.receivedAt)
      {
        assert Alike(c, id.role, Op(c, a, id, o), Op(c, b, id, o), ctx.receivedAt);
      }
      AlikeRingsAdmit(c, id.role, ctx, signed, m, da, db);
    }
  }

  lemma AlikePartial(c: Chain, a: State, b: State, id: MessageId, ctx: Context, signed: Signed, p: Packet)
    requires AlikeStates(c, a, b, ctx.receivedAt)
    ensures PartialReachesRing(c, id.role, ctx, signed, p, DutyOf(c, a, id))
            <==> PartialReachesRing(c, id.role, ctx, signed, p, DutyOf(c, b, id))
    ensures ValidatePartial(c, id.role, ctx, signed, p, DutyOf(c, a, id)).1.Accept?
            <==> ValidatePartial(c, id.role, ctx, signed, p, DutyOf(c, b, id)).1.Accept?
  {
    var t := ctx.receivedAt;
    PartialOutcome(c, id.role, ctx, signed, p, DutyOf(c, a, id));
    PartialOutcome(c, id.role, ctx, signed, p, DutyOf(c, b, id));
    if |signed.signers| == 1 && !Late(c, id.role, p.slot, t) {
      var opA, opB := Op(c, a, id, signed.signers[0]), Op(c, b, id, signed.signers[0]);
      assert Alike(c, id.role, opA, opB, t);
      NotLateEpoch(c, id.role, p.slot, t);
      AlikeMaxSlot(c, id.role, opA, opB, p.slot, t);
      AlikeDutyCount(c, id.role, opA, opB, p.slot, ctx, t);
    }
  }

  // Alike states give every message the same verdict.
  lemma AlikeVerdict(c: Chain, a: State, b: State, ev: Event)
    requires ev.Received? && AlikeStates(c, a, b, ev.Time())
    ensures Step(c, a, ev).1.Accept? <==> Step(c, b, ev).1.Accept?
    ensures forall id, o :: RecordsConsensus(c, a, ev, id, o) <==> RecordsConsensus(c, b, ev, id, o)
    ensures forall id, o :: RecordsPartial(c, a, ev, id, o) <==> RecordsPartial(c, b, ev, id, o)
  {
    match ev.payload
    case Undecodable =>
    case Consensus(m) => AlikeConsensus(c, a, b, ev.id, ev.ctx, ev.signed, m);
    case Partial(p) => AlikePartial(c, a, b, ev.id, ev.ctx, ev.signed, p);
  }

  // Writing the same entry into alike rings keeps them alike.
  lemma AlikeWrite(
    c: Chain, role: Role, a: OperatorView, b: OperatorView, a2: OperatorView, b2: OperatorView, e: SignerState,
    t: Millis)
    requires Alike(c, role, a, b, t) && !Late(c, role, e.slot, t)
    requires |a2.ring| == |a.ring| && a2.ring == a.ring[e.slot % |a.ring| := Some(e)]
    requires |b2.ring| == |b.ring| && b2.ring == b.ring[e.slot % |b.ring| := Some(e)]
    requires (a2.maxSlot == a.maxSlot && b2.maxSlot == b.maxSlot)
          || (&& a2.maxSlot == (if e.slot > a.maxSlot then e.slot else a.maxSlot)
              && b2.maxSlot == (if e.slot > b.maxSlot then e.slot else b.maxSlot))
    ensures Alike(c, role, a2, b2, t)
  {
    forall s: Slot
      ensures Late(c, role, EpochLast(c, s), t) || a2.Get(s) == b2.Get(s)
    {
      GetAfterWrite(a, e.slot, e, a2.maxSlot, s);
      GetAfterWrite(b, e.slot, e, b2.maxSlot, s);
    }
    AlikeMaxSlot(c, role, a, b, e.slot, t);
  }

  lemma AlikeReceive(c: Chain, a: State, b: State, ev: Event, id: MessageId, o: OperatorId)
    requires ev.Received? && AlikeStates(c, a, b, ev.Time()) && Sized(c, a) && Sized(c, b)
    ensures Alike(c, id.role, OpAfter(c, a, ev, id, o), OpAfter(c, b, ev, id, o), ev.Time())
  {
    var opA, opB, t := Op(c, a, id, o), Op(c, b, id, o), ev.Time();
    AlikeVerdict(c, a, b, ev);
    assert Alike(c, id.role, opA, opB, t);
    if Writes(c, a, ev, id, o).Some? {
      WriteWasAdmitted(c, a, ev, id, o);
      var s := Writes(c, a, ev, id, o).value;
      NotLateEpoch(c, id.role, s, t);
      assert opA.Get(s) == opB.Get(s);
      if RecordsConsensus(c, a, ev, id, o) {
        AlikeWrite(c, id.role, opA, opB, OpAfter(c, a, ev, id, o), OpAfter(c, b, ev, id, o),
          ConsensusEntry(opA, ev.signed, ev.payload.qbft), t);
      } else {
        PartialSlot(opA, ev.payload.packet);
        AlikeWrite(c, id.role, opA, opB, OpAfter(c, a, ev, id, o), OpAfter(c, b, ev, id, o),
          PartialEntry(opA, ev.payload.packet), t);
      }
    }
  }

  lemma PartialSlot(op: OperatorView, p: Packet)
    ensures PartialEntry(op, p).slot == p.slot
  {
  }

  // Cleaning one of two alike states keeps them alike: everything it forgets is out of reach.
  lemma AlikeClean(c: Chain, a: State, b: State, ev: Event, id: MessageId, o: OperatorId, rec: set<Slot>)
    requires MarginsFitOneSlot(c) && ev.Cleaned? && Sized(c, b)
    requires Alike(c, id.role, Op(c, a, id, o), Op(c, b, id, o), ev.at)
    requires Faithful(c, id.role, Op(c, b, id, o), rec, ev.at)
    ensures Alike(c, id.role, Op(c, a, id, o), OpAfter(c, b, ev, id, o), ev.at)
  {
    if Drops(c, b, ev, id) && o in b[id].operators {
      var role, opA, opB, now, t := id.role, Op(c, a, id, o), Op(c, b, id, o), CurrentSlot(c, ev.at).value, ev.at;
      forall s: Slot | s <= opB.maxSlot
        ensures Late(c, role, EpochLast(c, s), t) && Late(c, role, s, t)
      {
        BehindTheRingIsLate(c, role, s, now, t);
        EpochBounds(c, s);
        LateMono(c, role, s, EpochLast(c, s), t, t);
      }
      assert Late(c, role, opB.maxSlot, t) && Late(c, role, 0, t);
    }
  }

  // ---------- whole runs ----------

  function Uncleaned(evs: seq<Event>): seq<Event> {
    if evs == [] then []
    else Uncleaned(evs[..|evs|-1]) + if evs[|evs|-1].Received? then [evs[|evs|-1]] else []
  }

  // The verdict on every received message, in order.
  function Verdicts(c: Chain, evs: seq<Event>): seq<bool> {
    if evs == [] then []
    else
      var before, ev := evs[..|evs|-1], evs[|evs|-1];
      Verdicts(c, before) + if ev.Received? then [Step(c, Run(c, before), ev).1.Accept?] else []
  }

  lemma UncleanedStep(c: Chain, evs: seq<Event>)
    requires evs != []
    ensures var before, ev := evs[..|evs|-1], evs[|evs|-1];
            var plain := Uncleaned(before);
            && Run(c, Uncleaned(evs)) == (if ev.Received? then Step(c, Run(c, plain), ev).0 else Run(c, plain))
            && Verdicts(c, Uncleaned(evs))
               == Verdicts(c, plain) + (if ev.Received? then [Step(c, Run(c, plain), ev).1.Accept?] else [])
  {
    var before, ev := evs[..|evs|-1], evs[|evs|-1];
    var plain := Uncleaned(before);
    if ev.Received? {
      assert (plain + [ev])[..|plain + [ev]|-1] == plain;
    } else {
      assert plain + [] == plain;
      assert Verdicts(c, plain) + [] == Verdicts(c, plain);
    }
  }

  lemma {:induction false} RunsAlike(c: Chain, evs: seq<Event>, t: Millis)
    requires MarginsFitOneSlot(c) && Ordered(evs) && AllBy(evs, t)
    ensures Sized(c, Run(c, evs)) && Sized(c, Run(c, Uncleaned(evs)))
    ensures AlikeStates(c, Run(c, Uncleaned(evs)), Run(c, evs), t)
    decreases |evs|
  {
    if evs != [] {
      var before, ev := evs[..|evs|-1], evs[|evs|-1];
      RunsAlike(c, before, ev.Time());
      UncleanedStep(c, evs);
      var a, b := Run(c, Uncleaned(before)), Run(c, before);
      StepEffect(c, a, ev, MessageId(Committee, 0), 0);
      forall id: MessageId, o: OperatorId
        ensures Sized(c, Run(c, evs))
        ensures Alike(c, id.role, Op(c, Run(c, Uncleaned(evs)), id, o), Op(c, Run(c, evs), id, o), t)
      {
        assert Alike(c, id.role, Op(c, a, id, o), Op(c, b, id, o), ev.Time());
        StepEffect(c, b, ev, id, o);
        if ev.Received? {
          StepEffect(c, a, ev, id, o);
          AlikeReceive(c, a, b, ev, id, o);
        } else {
          RunFaithful(c, before, id, o, ev.Time());
          AlikeClean(c, a, b, ev, id, o, Recorded(c, before, id, o));
        }
        AlikeLater(c, id.role, Op(c, Run(c, Uncleaned(evs)), id, o), Op(c, Run(c, evs), id, o), ev.Time(), t);
      }
    }
  }

  // A run with the cleaner and the same run without it accept exactly the same messages.
  lemma {:induction false} CleaningInvisible(c: Chain, evs: seq<Event>)
    requires MarginsFitOneSlot(c) && Ordered(evs)
    ensures Verdicts(c, evs) == Verdicts(c, Uncleaned(evs))
    decreases |evs|
  {
    if evs != [] {
      var before, ev := evs[..|evs|-1], evs[|evs|-1];
      CleaningInvisible(c, before);
      UncleanedStep(c, evs);
      if ev.Received? {
        RunsAlike(c, before, ev.Time());
        AlikeVerdict(c, Run(c, Uncleaned(before)), Run(c, before), ev);
      }
    }
  }
}
