/**
 The distinct-signing-root budgets of proposer preferences (section 7 of SIP-94) over whole runs.
 */
module RootBudgets {
  import opened Wrappers
  import opened OperatorIds
  import opened SsvTypes
  import opened SlotTiming
  import opened DutySpec
  import opened MessageRules
  import opened ValidatorRun
  import opened OncePerRound

  function RootsOf(p: Packet): set<Hash256> {
    set r | r in p.roots
  }

  // Event `ev` is an accepted packet of `kind` for `slot`, signed by `o`.
  predicate AcceptsPacket(c: Chain, st: State, ev: Event, id: MessageId, o: OperatorId, slot: Slot, kind: PartialKind) {
    && RecordsPartial(c, st, ev, id, o) && Step(c, st, ev).1.Accept?
    && ev.payload.packet.slot == slot && ev.payload.packet.kind == kind
  }

  // The union of the roots of all accepted packets, and how many packets there were.
  function AcceptedRoots(
    c: Chain, evs: seq<Event>, id: MessageId, o: OperatorId, slot: Slot, kind: PartialKind): (set<Hash256>, nat)
  {
    if evs == [] then ({}, 0)
    else
      var before, ev := evs[..|evs|-1], evs[|evs|-1];
      var (roots, packets) := AcceptedRoots(c, before, id, o, slot, kind);
      if AcceptsPacket(c, Run(c, before), ev, id, o, slot, kind) then (roots + RootsOf(ev.payload.packet), packets + 1)
      else (roots, packets)
  }

  // While the slot can still be used, its entry's root set is the union of the accepted packets'.
  ghost predicate Tallies(
    c: Chain, role: Role, op: OperatorView, rec: set<Slot>, slot: Slot, kind: PartialKind, roots: set<Hash256>,
    packets: nat, t: Millis)
  {
    && packets <= |roots| <= RootCap(kind)
    && (roots != {} ==> slot in rec)
    && (Late(c, role, slot, t) || roots == (if op.Get(slot).Some? then op.Get(slot).value.Roots(kind) else {}))
  }

  // A budgeted packet is accepted exactly when it brings something new within the cap, and then
  // exactly its own kind's set grows, by its roots.
  lemma BudgetRule(s: SignerState, p: Packet, kind: PartialKind)
    requires RootBudgeted(p.kind) && RootBudgeted(kind)
    ensures var (s', v) := s.UpdateForPartial(p);
            && (v.Accept? <==> !(RootsOf(p) <= s.Roots(p.kind)) && |s.Roots(p.kind) + RootsOf(p)| <= RootCap(p.kind))
            && s'.Roots(kind) == (if v.Accept? && kind == p.kind then s.Roots(kind) + RootsOf(p) else s.Roots(kind))
            && (v.Accept? ==> |s'.Roots(p.kind)| > |s.Roots(p.kind)|)
  {
    var added := RootsOf(p) - s.Roots(p.kind);
    assert s.Roots(p.kind) + RootsOf(p) == s.Roots(p.kind) + added;
    assert |s.Roots(p.kind) + added| == |s.Roots(p.kind)| + |added|;
    if p.roots != [] {
      assert p.roots[0] in RootsOf(p);
    }
  }

  lemma TalliesLater(
    c: Chain, role: Role, op: OperatorView, rec: set<Slot>, slot: Slot, kind: PartialKind, roots: set<Hash256>,
    packets: nat, t: Millis, u: Millis)
    requires Tallies(c, role, op, rec, slot, kind, roots, packets, t) && t <= u
    ensures Tallies(c, role, op, rec, slot, kind, roots, packets, u)
  {
    if Late(c, role, slot, t) {
      LateMono(c, role, slot, slot, t, u);
    }
  }

  // Writing some other slot leaves the tally of this one alone.
  lemma TalliesOtherSlot(
    c: Chain, role: Role, op: OperatorView, op2: OperatorView, e: SignerState, rec: set<Slot>, slot: Slot,
    kind: PartialKind, roots: set<Hash256>, packets: nat, t: Millis)
    requires Tallies(c, role, op, rec, slot, kind, roots, packets, t) && Wrote(op, op2, e) && e.slot != slot
    requires Faithful(c, role, op, rec, t) && Faithful(c, role, op2, rec + {e.slot}, t)
    ensures Tallies(c, role, op2, rec + {e.slot}, slot, kind, roots, packets, t)
  {
    if !Late(c, role, slot, t) {
      if slot in rec {
        UntouchedSlot(c, role, op, op2, e, rec + {e.slot}, slot, t);
      } else {
        assert op2.Get(slot).None? && op.Get(slot).None?;
      }
    }
  }

  // A packet for this very slot moves the tally exactly as the budget rule says.
  lemma TalliesSameSlot(
    c: Chain, role: Role, op: OperatorView, p: Packet, rec: set<Slot>, kind: PartialKind, roots: set<Hash256>,
    packets: nat, t: Millis)
    requires RootBudgeted(p.kind) && RootBudgeted(kind) && !Late(c, role, p.slot, t)
    requires Tallies(c, role, op, rec, p.slot, kind, roots, packets, t)
    ensures var (op2, v) := op.RecordPartial(p);
            var hit := v.Accept? && p.kind == kind;
            Tallies(c, role, op2, rec + {p.slot}, p.slot, kind, if hit then roots + RootsOf(p) else roots,
              if hit then packets + 1 else packets, t)
  {
    var (op2, v) := op.RecordPartial(p);
    var cur, e := op.Get(p.slot), PartialEntry(op, p);
    BudgetRule(if cur.Some? then cur.value else NewSignerState(p.slot, FIRST_ROUND), p, kind);
    GetAfterWrite(op, p.slot, e, op2.maxSlot, p.slot);
    assert op2.Get(p.slot) == Some(e);
  }

  lemma TalliesPacket(
    c: Chain, st: State, ev: Event, id: MessageId, o: OperatorId, rec: set<Slot>, slot: Slot, kind: PartialKind,
    roots: set<Hash256>, packets: nat)
    requires MarginsFitOneSlot(c) && Sized(c, st) && RecordsPartial(c, st, ev, id, o)
    requires id.role.ProposerPreferences? && RootBudgeted(kind)
    requires Faithful(c, id.role, Op(c, st, id, o), rec, ev.Time())
    requires Tallies(c, id.role, Op(c, st, id, o), rec, slot, kind, roots, packets, ev.Time())
    ensures var hit := AcceptsPacket(c, st, ev, id, o, slot, kind);
            Tallies(c, id.role, OpAfter(c, st, ev, id, o), rec + {ev.payload.packet.slot}, slot, kind,
                    if hit then roots + RootsOf(ev.payload.packet) else roots,
                    if hit then packets + 1 else packets, ev.Time())
  {
    var op, op2, p := Op(c, st, id, o), OpAfter(c, st, ev, id, o), ev.payload.packet;
    PartialOutcome(c, id.role, ev.ctx, ev.signed, p, DutyOf(c, st, id));
    NoConsensusForPreferences(c, st, ev, id, o);
    if p.slot == slot {
      WriteWasAdmitted(c, st, ev, id, o);
      TalliesSameSlot(c, id.role, op, p, rec, kind, roots, packets, ev.Time());
    } else {
      PartialWrote(c, st, ev, id, o, rec);
      FaithfulStep(c, st, ev, id, o, rec);
      TalliesOtherSlot(c, id.role, op, op2, PartialEntry(op, p), rec, slot, kind, roots, packets, ev.Time());
    }
  }

  lemma TalliesDrop(
    c: Chain, st: State, ev: Event, id: MessageId, o: OperatorId, rec: set<Slot>, slot: Slot, kind: PartialKind,
    roots: set<Hash256>, packets: nat)
    requires MarginsFitOneSlot(c) && Sized(c, st) && Drops(c, st, ev, id)
    requires Faithful(c, id.role, Op(c, st, id, o), rec, ev.Time())
    requires Tallies(c, id.role, Op(c, st, id, o), rec, slot, kind, roots, packets, ev.Time())
    ensures Tallies(c, id.role, FreshOperator(StoredSlotCount(c, id.role)), rec, slot, kind, roots, packets, ev.Time())
  {
    FaithfulDrop(c, st, ev, id, o, rec);
    if roots != {} {
      EpochBounds(c, slot);
      LateMono(c, id.role, slot, EpochLast(c, slot), ev.Time(), ev.Time());
    }
  }

  // Over the whole run, per operator, proposal slot and kind: the accepted packets together carry at
  // most the kind's cap of distinct roots, there are at most cap-many of them, and as long as the
  // slot can be used the ring entry holds exactly their union. Packets of the other kind appear
  // nowhere in this tally.
  lemma {:induction false} BudgetsHold(
    c: Chain, evs: seq<Event>, id: MessageId, o: OperatorId, slot: Slot, kind: PartialKind, t: Millis)
    requires MarginsFitOneSlot(c) && Ordered(evs) && AllBy(evs, t)
    requires id.role.ProposerPreferences? && RootBudgeted(kind)
    ensures var (roots, packets) := AcceptedRoots(c, evs, id, o, slot, kind);
            Tallies(c, id.role, Op(c, Run(c, evs), id, o), Recorded(c, evs, id, o), slot, kind, roots, packets, t)
    decreases |evs|
  {
    if evs != [] {
      var before, ev := evs[..|evs|-1], evs[|evs|-1];
      var st, rec := Run(c, before), Recorded(c, before, id, o);
      var (roots, packets) := AcceptedRoots(c, before, id, o, slot, kind);
      RunFaithful(c, before, id, o, ev.Time());
      BudgetsHold(c, before, id, o, slot, kind, ev.Time());
      StepEffect(c, st, ev, id, o);
      NoConsensusForPreferences(c, st, ev, id, o);
      if RecordsPartial(c, st, ev, id, o) {
        TalliesPacket(c, st, ev, id, o, rec, slot, kind, roots, packets);
      } else if Drops(c, st, ev, id) {
        TalliesDrop(c, st, ev, id, o, rec, slot, kind, roots, packets);
      }
      var (roots', packets') := AcceptedRoots(c, evs, id, o, slot, kind);
      TalliesLater(c, id.role, Op(c, Run(c, evs), id, o), Recorded(c, evs, id, o), slot, kind, roots', packets',
        ev.Time(), t);
    }
  }

  lemma NoConsensusForPreferences(c: Chain, st: State, ev: Event, id: MessageId, o: OperatorId)
    requires id.role.ProposerPreferences?
    ensures !RecordsConsensus(c, st, ev, id, o)
  {
    if RecordsConsensus(c, st, ev, id, o) {
      ConsensusAcceptance(c, id.role, ev.ctx, ev.signed, ev.payload.qbft, DutyOf(c, st, id));
    }
  }

  // ---------- independence of the two kinds ----------

  function Replay(s: SignerState, ps: seq<Packet>): SignerState {
    if ps == [] then s else Replay(s, ps[..|ps|-1]).UpdateForPartial(ps[|ps|-1]).0
  }

  function OnlyKind(ps: seq<Packet>, kind: PartialKind): seq<Packet> {
    if ps == [] then []
    else OnlyKind(ps[..|ps|-1], kind) + if ps[|ps|-1].kind == kind then [ps[|ps|-1]] else []
  }

  lemma OnlyKindStep(ps: seq<Packet>, kind: PartialKind)
    requires ps != []
    ensures var before, p := ps[..|ps|-1], ps[|ps|-1];
            forall s :: Replay(s, OnlyKind(ps, kind))
                        == if p.kind == kind then Replay(s, OnlyKind(before, kind)).UpdateForPartial(p).0
                           else Replay(s, OnlyKind(before, kind))
  {
    var before, p := ps[..|ps|-1], ps[|ps|-1];
    var only := OnlyKind(before, kind);
    assert only + [] == only;
    assert (only + [p])[..|only + [p]|-1] == only;
  }

  // Neither kind's root set depends on the packets of the other kind.
  lemma {:induction false} KindsIndependent(s: SignerState, ps: seq<Packet>, kind: PartialKind)
    requires RootBudgeted(kind) && forall i :: 0 <= i < |ps| ==> RootBudgeted(ps[i].kind)
    ensures Replay(s, ps).Roots(kind) == Replay(s, OnlyKind(ps, kind)).Roots(kind)
    decreases |ps|
  {
    if ps != [] {
      var before, p := ps[..|ps|-1], ps[|ps|-1];
      KindsIndependent(s, before, kind);
      OnlyKindStep(ps, kind);
      BudgetRule(Replay(s, before), p, kind);
      if p.kind == kind {
        BudgetRule(Replay(s, OnlyKind(before, kind)), p, kind);
      }
    }
  }

  // ... and so neither does the verdict on the next packet.
  lemma VerdictsIndependent(s: SignerState, ps: seq<Packet>, next: Packet)
    requires RootBudgeted(next.kind) && forall i :: 0 <= i < |ps| ==> RootBudgeted(ps[i].kind)
    ensures Replay(s, ps).UpdateForPartial(next).1 == Replay(s, OnlyKind(ps, next.kind)).UpdateForPartial(next).1
  {
    KindsIndependent(s, ps, next.kind);
  }
}
