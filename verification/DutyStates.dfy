/**
 duty_state.rs as it works: rings in fixed buffers, updated in place. Every method is proved against
 the value functions of DutySpec and MessageRules.
 */
module DutyStates {
  import opened Wrappers
  import opened OperatorIds
  import opened SsvTypes
  import opened SlotTiming
  import opened DutySpec
  import opened MessageRules

  /** The state of one operator across the slots its ring can hold. */
  class OperatorState {
    const ring: array<Option<SignerState>>
    var maxSlot: Slot
    ghost const owner: OperatorId

    ghost predicate Valid() {
      ring.Length > 0
    }

    ghost function View(): OperatorView
      requires Valid()
      reads this, ring
    {
      OperatorView(ring[..], maxSlot)
    }

    constructor (storedSlotCount: Positive, ghost owner: OperatorId)
      ensures Valid() && fresh(ring) && ring.Length == storedSlotCount && this.owner == owner
      ensures View() == FreshOperator(storedSlotCount)
    {
      this.owner := owner;
      ring := new Option<SignerState>[storedSlotCount](_ => None);
      maxSlot := 0;
      new;
      assert ring[..] == FreshOperator(storedSlotCount).ring;
    }

    method GetSignerState(slot: Slot) returns (s: Option<SignerState>)
      requires Valid()
      ensures s == View().Get(slot)
    {
      var e := ring[slot % ring.Length];
      s := if e.Some? && e.value.slot == slot then e else None;
    }

    // Probes the ring at each slot of the epoch.
    method GetDutyCount(c: Chain, epoch: Epoch) returns (n: nat)
      requires Valid()
      ensures n == DutyCount(c, View(), epoch)
    {
      n := 0;
      var start := EpochStart(c, epoch);
      for i := 0 to c.slotsPerEpoch
        invariant n == |View().Held(start, i)|
      {
        var s := GetSignerState(start + i);
        if s.Some? {
          assert View().Held(start, i + 1) == View().Held(start, i) + {start + i};
          n := n + 1;
        } else {
          assert View().Held(start, i + 1) == View().Held(start, i);
        }
      }
    }

    method SetSignerState(slot: Slot, s: SignerState)
      requires Valid()
      modifies this, ring
      ensures View() == old(View()).Set(slot, s)
    {
      ring[slot % ring.Length] := Some(s);
      if slot > maxSlot {
        maxSlot := slot;
      }
    }

    method Update(signed: Signed, m: QbftMessage)
      requires Valid()
      modifies this, ring
      ensures View() == old(View()).RecordConsensus(signed, m)
    {
      var cur := GetSignerState(m.height);
      if cur.Some? && m.round <= cur.value.round {
        ring[m.height % ring.Length] := Some(cur.value.UpdateForConsensus(signed, m));
      } else {
        SetSignerState(m.height, NewSignerState(m.height, m.round).UpdateForConsensus(signed, m));
      }
    }

    method UpdateForPartial(p: Packet) returns (v: Verdict)
      requires Valid()
      modifies this, ring
      ensures (View(), v) == old(View()).RecordPartial(p)
    {
      var cur := GetSignerState(p.slot);
      if cur.Some? {
        var (s, verdict) := cur.value.UpdateForPartial(p);
        ring[p.slot % ring.Length] := Some(s);
        v := verdict;
      } else {
        var (s, verdict) := NewSignerState(p.slot, FIRST_ROUND).UpdateForPartial(p);
        SetSignerState(p.slot, s);
        v := verdict;
      }
    }
  }

  lemma TouchPut(d: DutyView, o: OperatorId, v: OperatorView)
    ensures d.Touch(o).Put(o, v) == d.Put(o, v)
  {
    assert d.operators[o := d.Lookup(o)][o := v] == d.operators[o := v];
  }

  /** The duty state of one message id: a ring per operator. */
  class DutyState {
    var operators: map<OperatorId, OperatorState>
    const storedSlotCount: Positive
    // Which operator each buffer belongs to, so that no buffer is shared.
    ghost var ringOwner: map<array<Option<SignerState>>, OperatorId>
    // What the rings hold.
    ghost var contents: map<OperatorId, OperatorView>
    ghost var Repr: set<object>

    ghost predicate Owns(o: OperatorId)
      requires o in operators
      reads this, Repr
    {
      var op := operators[o];
      && op in Repr && op.ring in Repr && op.owner == o && op.ring.Length == storedSlotCount
      && op.ring in ringOwner && ringOwner[op.ring] == o
      && o in contents && op.View() == contents[o]
    }

    ghost predicate Valid()
      reads this, Repr
    {
      this in Repr && contents.Keys == operators.Keys && forall o | o in operators :: Owns(o)
    }

    ghost function View(): DutyView
      reads this
    {
      DutyView(contents, storedSlotCount)
    }

    constructor (storedSlotCount: Positive)
      ensures Valid() && fresh(Repr) && this.storedSlotCount == storedSlotCount
      ensures View() == DutyView(map[], storedSlotCount)
    {
      this.storedSlotCount := storedSlotCount;
      operators := map[];
      ringOwner, contents, Repr := map[], map[], {this};
    }

    method CreateOperator(o: OperatorId)
      requires Valid() && o !in operators
      modifies this
      ensures Valid() && o in operators && fresh(Repr - old(Repr))
      ensures View() == old(View()).Touch(o)
    {
      var created := new OperatorState(storedSlotCount, o);
      operators := operators[o := created];
      ringOwner, Repr := ringOwner[created.ring := o], Repr + {created, created.ring};
      contents := contents[o := created.View()];
      forall p | p in operators
        ensures Owns(p)
      {
        assert p != o ==> old(Owns(p));
      }
    }

    lemma NotShared(o: OperatorId)
      requires Valid() && o in operators
      ensures operators[o].Valid() && operators[o].View() == contents[o]
      ensures forall p | p in operators && p != o ::
        operators[p] != operators[o] && operators[p].ring != operators[o].ring
    {
      assert Owns(o);
      forall p | p in operators && p != o
        ensures operators[p] != operators[o] && operators[p].ring != operators[o].ring
      {
        assert Owns(p);
      }
    }

    // The operator, created if need be; nobody else shares its buffer.
    method GetOrCreateOperator(o: OperatorId) returns (op: OperatorState)
      requires Valid()
      modifies this
      ensures Valid() && o in operators && op == operators[o] && op.Valid() && fresh(Repr - old(Repr))
      ensures View() == old(View()).Touch(o) && op.View() == old(View()).Lookup(o)
      ensures forall p | p in operators && p != o :: operators[p] != op && operators[p].ring != op.ring
    {
      if o !in operators {
        CreateOperator(o);
      }
      op := operators[o];
      NotShared(o);
    }

    // Changing one operator's buffer, and the contents to match, keeps the rest.
    twostate lemma OneChanged(o: OperatorId)
      requires old(Valid()) && o in old(operators)
      requires operators == old(operators) && ringOwner == old(ringOwner) && Repr == old(Repr)
      requires forall p | p in operators && p != o :: unchanged(operators[p]) && unchanged(operators[p].ring)
      requires operators[o].Valid() && contents == old(contents)[o := operators[o].View()]
      ensures Valid()
    {
      assert old(Owns(o));
      forall p | p in operators
        ensures Owns(p)
      {
        assert old(Owns(p));
      }
    }

    method UpdateOne(o: OperatorId, signed: Signed, m: QbftMessage)
      requires Valid()
      modifies Repr
      ensures Valid() && fresh(Repr - old(Repr))
      ensures View() == old(View()).Put(o, old(View()).Lookup(o).RecordConsensus(signed, m))
    {
      hide OperatorView.RecordConsensus, OperatorState.Valid;
      var op := GetOrCreateOperator(o);
      label created:
      ghost var before := op.View();
      op.Update(signed, m);
      contents := contents[o := op.View()];
      OneChanged@created(o);
      TouchPut(old(View()), o, before.RecordConsensus(signed, m));
    }

    method UpdateForConsensusMessage(signed: Signed, m: QbftMessage)
      requires Valid()
      modifies Repr
      ensures Valid() && fresh(Repr - old(Repr))
      ensures View() == old(View()).RecordConsensus(signed.signers, signed, m)
    {
      for i := 0 to |signed.signers|
        invariant Valid() && fresh(Repr - old(Repr))
        invariant View().RecordConsensus(signed.signers[i..], signed, m)
                  == old(View()).RecordConsensus(signed.signers, signed, m)
      {
        UpdateOne(signed.signers[i], signed, m);
        assert signed.signers[i..][1..] == signed.signers[i+1..];
      }
    }

    method UpdateForPartialSignature(p: Packet, o: OperatorId) returns (v: Verdict)
      requires Valid()
      modifies Repr
      ensures Valid() && fresh(Repr - old(Repr))
      ensures (View(), v) == RecordPartialOf(old(View()), o, p)
    {
      hide OperatorView.RecordPartial, OperatorState.Valid;
      var op := GetOrCreateOperator(o);
      label created:
      ghost var before := op.View();
      v := op.UpdateForPartial(p);
      contents := contents[o := op.View()];
      OneChanged@created(o);
      TouchPut(old(View()), o, before.RecordPartial(p).0);
    }

    method Outdated(now: Slot) returns (b: bool)
      requires Valid()
      ensures b == View().Outdated(now)
    {
      var earliest := if now < storedSlotCount then 0 else now - storedSlotCount;
      b := forall o | o in operators :: operators[o].maxSlot < earliest;
      assert forall o | o in operators :: Owns(o) && contents[o].maxSlot == operators[o].maxSlot;
    }
  }
}
