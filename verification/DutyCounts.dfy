/**
 The per-epoch duty count read off the ring is exact, and the limit it enforces is never exceeded
 over a whole run (message_validator/src/lib.rs, validate_duty_count and duty_limit).
 */
module DutyCounts {
  import opened Wrappers
  import opened OperatorIds
  import opened SsvTypes
  import opened SlotTiming
  import opened DutySpec
  import opened MessageRules
  import opened ValidatorRun

  // The slots of epoch `e` ever recorded.
  function InEpoch(c: Chain, rec: set<Slot>, e: Epoch): set<Slot> {
    set s | s in rec && EpochOf(c, s) == e
  }

  lemma HeldIsRecorded(c: Chain, role: Role, op: OperatorView, rec: set<Slot>, s: Slot, t: Millis)
    requires Faithful(c, role, op, rec, t) && !Late(c, role, s, t)
    ensures op.Held(EpochStart(c, EpochOf(c, s)), c.slotsPerEpoch) == InEpoch(c, rec, EpochOf(c, s))
  {
    var e := EpochOf(c, s);
    forall q: Slot
      ensures q in op.Held(EpochStart(c, e), c.slotsPerEpoch) <==> q in InEpoch(c, rec, e)
    {
      EpochMembership(c, q, e);
      if q in InEpoch(c, rec, e) && Late(c, role, EpochLast(c, q), t) {
        EpochBounds(c, s);
        LateMono(c, role, s, EpochLast(c, q), t, t);
      }
    }
  }

  // Whenever a slot passes the lateness check, the count for its epoch is the number of distinct
  // slots of that epoch ever recorded for the operator.
  lemma DutyCountExact(c: Chain, evs: seq<Event>, id: MessageId, o: OperatorId, s: Slot, t: Millis)
    requires MarginsFitOneSlot(c) && Ordered(evs) && AllBy(evs, t)
    requires ValidateSlotTime(c, id.role, s, t).Accept?
    ensures DutyCount(c, Op(c, Run(c, evs), id, o), EpochOf(c, s))
            == |InEpoch(c, Recorded(c, evs, id, o), EpochOf(c, s))|
  {
    RunFaithful(c, evs, id, o, t);
    HeldIsRecorded(c, id.role, Op(c, Run(c, evs), id, o), Recorded(c, evs, id, o), s, t);
  }

  // The sync-committee period is needed and has no length to compute it with.
  predicate NoPeriod(c: Chain, role: Role, ctx: Context) {
    && (role.Committee? || role.AggregatorCommittee?)
    && |ctx.validatorIndices| < c.slotsPerEpoch / 2 && c.epochsPerSyncCommitteePeriod == 0
  }

  // How many duties of one epoch an operator may have by role; None is no limit.
  function AllowedDuties(c: Chain, role: Role, slot: Slot, ctx: Context): Option<nat>
    requires !NoPeriod(c, role, ctx)
  {
    var validators, epoch := |ctx.validatorIndices|, slot / c.slotsPerEpoch;
    match role
    case Proposer | SyncCommittee => None
    case Aggregator | ValidatorRegistration | PTCAttester => Some(2)
    case VoluntaryExit => Some(ctx.exitDutyCount)
    case ProposerPreferences => Some(c.slotsPerEpoch)
    case Committee | AggregatorCommittee =>
      if 2 * validators >= c.slotsPerEpoch then Some(c.slotsPerEpoch)
      else if validators < c.slotsPerEpoch / 2
              && exists i | i in ctx.validatorIndices :: (epoch / c.epochsPerSyncCommitteePeriod, i) in ctx.syncMembers
      then Some(c.slotsPerEpoch)
      else Some(2 * validators)
  }

  lemma LimitByRole(c: Chain, role: Role, slot: Slot, ctx: Context)
    ensures DutyLimit(c, role, slot, ctx)
            == if NoPeriod(c, role, ctx) then Err(SyncCommitteePeriodCalculationFailure)
               else Ok(AllowedDuties(c, role, slot, ctx))
  {
  }

  // The role has no limit, the slot has been recorded before, or fewer slots of its epoch have been than
  // the role allows.
  predicate WithinDuties(c: Chain, evs: seq<Event>, id: MessageId, o: OperatorId, slot: Slot, ctx: Context)
    requires !NoPeriod(c, id.role, ctx)
  {
    var allowed, rec := AllowedDuties(c, id.role, slot, ctx), Recorded(c, evs, id, o);
    || allowed.None? || slot in rec
    || |set s | s in rec && s / c.slotsPerEpoch == slot / c.slotsPerEpoch| < allowed.value
  }

  // The duty count's verdict on a slot that is on time, from what has been recorded.
  lemma DutyVerdictExactly(c: Chain, evs: seq<Event>, id: MessageId, o: OperatorId, slot: Slot, ctx: Context, t: Millis)
    requires MarginsFitOneSlot(c) && Ordered(evs) && AllBy(evs, t) && ValidateSlotTime(c, id.role, slot, t).Accept?
    ensures ValidateDutyCount(c, id.role, slot, ctx, Op(c, Run(c, evs), id, o))
            == if NoPeriod(c, id.role, ctx) then Refuse(SyncCommitteePeriodCalculationFailure)
               else if WithinDuties(c, evs, id, o, slot, ctx) then Accept
               else Refuse(ExcessiveDutyCount)
  {
    var rec, epoch := Recorded(c, evs, id, o), EpochOf(c, slot);
    LimitByRole(c, id.role, slot, ctx);
    DutyCountExact(c, evs, id, o, slot, t);
    RecordedIsHeld(c, evs, id, o, slot, t);
    assert InEpoch(c, rec, epoch) == set s | s in rec && s / c.slotsPerEpoch == slot / c.slotsPerEpoch;
  }

  lemma RecordedIsHeld(c: Chain, evs: seq<Event>, id: MessageId, o: OperatorId, slot: Slot, t: Millis)
    requires MarginsFitOneSlot(c) && Ordered(evs) && AllBy(evs, t) && !Late(c, id.role, slot, t)
    ensures Op(c, Run(c, evs), id, o).Get(slot).Some? <==> slot in Recorded(c, evs, id, o)
  {
    RunFaithful(c, evs, id, o, t);
    EpochBounds(c, slot);
    if Late(c, id.role, EpochLast(c, slot), t) {
      LateMono(c, id.role, slot, EpochLast(c, slot), t, t);
    }
  }

  // ---------- slots that have been passed ----------

  lemma MaxAfter(c: Chain, st: State, ev: Event, id: MessageId, o: OperatorId)
    ensures var max := OpAfter(c, st, ev, id, o).maxSlot;
            max == 0 || max == Op(c, st, id, o).maxSlot || Writes(c, st, ev, id, o) == Some(max)
  {
    hide Step, PartialReachesRing, SignerState.UpdateForPartial;
  }

  lemma {:induction false} MaxIsRecorded(c: Chain, evs: seq<Event>, id: MessageId, o: OperatorId)
    ensures Sized(c, Run(c, evs))
    ensures var max := Op(c, Run(c, evs), id, o).maxSlot; max == 0 || max in Recorded(c, evs, id, o)
    decreases |evs|
  {
    if evs != [] {
      var before, ev := evs[..|evs|-1], evs[|evs|-1];
      hide RecordsConsensus, RecordsPartial, Drops, OpAfter;
      MaxIsRecorded(c, before, id, o);
      StepEffect(c, Run(c, before), ev, id, o);
      MaxAfter(c, Run(c, before), ev, id, o);
    }
  }

  ghost predicate MovedPast(c: Chain, evs: seq<Event>, id: MessageId, o: OperatorId, slot: Slot) {
    exists s: Slot :: s in Recorded(c, evs, id, o) && s > slot
  }

  // For a slot that is not late, the operator has moved past it exactly when a later one was recorded.
  lemma MovedPastExactly(c: Chain, evs: seq<Event>, id: MessageId, o: OperatorId, slot: Slot, t: Millis)
    requires MarginsFitOneSlot(c) && Ordered(evs) && AllBy(evs, t) && !Late(c, id.role, slot, t)
    ensures Op(c, Run(c, evs), id, o).maxSlot > slot <==> MovedPast(c, evs, id, o, slot)
  {
    var op, rec := Op(c, Run(c, evs), id, o), Recorded(c, evs, id, o);
    MaxIsRecorded(c, evs, id, o);
    RunFaithful(c, evs, id, o, t);
    if s: Slot :| s in rec && s > slot {
      if Late(c, id.role, s, t) {
        LateMono(c, id.role, slot, s, t, t);
      }
      RecordedIsHeld(c, evs, id, o, s, t);
    }
  }

  // Every message of `id` in the run is judged against a limit of at most `limit` duties.
  ghost predicate LimitedTo(c: Chain, evs: seq<Event>, id: MessageId, limit: nat) {
    forall i, s: Slot :: 0 <= i < |evs| && evs[i].Received? && evs[i].id == id ==>
      DutyLimit(c, id.role, s, evs[i].ctx).Err? ||
      (DutyLimit(c, id.role, s, evs[i].ctx).value.Some? && DutyLimit(c, id.role, s, evs[i].ctx).value.value <= limit)
  }

  lemma LimitHoldsAfterWrite(
    c: Chain, role: Role, op: OperatorView, rec: set<Slot>, s: Slot, ctx: Context, t: Millis, limit: nat, e: Epoch)
    requires Faithful(c, role, op, rec, t)
    requires ValidateSlotTime(c, role, s, t).Accept? && ValidateDutyCount(c, role, s, ctx, op).Accept?
    requires var l := DutyLimit(c, role, s, ctx); l.Err? || (l.value.Some? && l.value.value <= limit)
    requires |InEpoch(c, rec, e)| <= limit
    ensures |InEpoch(c, rec + {s}, e)| <= limit
  {
    if s in rec || EpochOf(c, s) != e {
      assert InEpoch(c, rec + {s}, e) == InEpoch(c, rec, e);
    } else {
      assert InEpoch(c, rec + {s}, e) == InEpoch(c, rec, e) + {s};
      HeldIsRecorded(c, role, op, rec, s, t);
    }
  }

  // Over the whole run no operator records more distinct slots of an epoch than the limit allows.
  lemma {:induction false} LimitNeverExceeded(
    c: Chain, evs: seq<Event>, id: MessageId, o: OperatorId, limit: nat, e: Epoch)
    requires MarginsFitOneSlot(c) && Ordered(evs) && LimitedTo(c, evs, id, limit)
    ensures |InEpoch(c, Recorded(c, evs, id, o), e)| <= limit
    decreases |evs|
  {
    if evs == [] {
      assert InEpoch(c, Recorded(c, evs, id, o), e) == {};
    } else {
      var before, ev := evs[..|evs|-1], evs[|evs|-1];
      var st, rec := Run(c, before), Recorded(c, before, id, o);
      assert LimitedTo(c, before, id, limit) by {
        assert forall i :: 0 <= i < |before| ==> before[i] == evs[i];
      }
      LimitNeverExceeded(c, before, id, o, limit, e);
      var w := Writes(c, st, ev, id, o);
      if w.Some? {
        RunFaithful(c, before, id, o, ev.Time());
        WriteWasAdmitted(c, st, ev, id, o);
        LimitHoldsAfterWrite(c, id.role, Op(c, st, id, o), rec, w.value, ev.ctx, ev.Time(), limit, e);
      } else {
        assert Recorded(c, evs, id, o) == rec;
      }
    }
  }

  lemma {:induction false} RangeSize(s: set<Slot>, from: Slot, n: nat)
    requires forall q :: q in s ==> from <= q < from + n
    ensures |s| <= n
  {
    if n == 0 {
      assert s == {};
    } else {
      var rest := s - {from + n - 1};
      RangeSize(rest, from, n - 1);
      assert s <= rest + {from + n - 1};
      assert |s| <= |rest| + 1;
    }
  }

  // A limit of a whole epoch never refuses anything, whatever the ring holds.
  lemma FullEpochLimitNeverRefuses(c: Chain, role: Role, slot: Slot, ctx: Context, op: OperatorView)
    requires DutyLimit(c, role, slot, ctx) == Ok(Some(c.slotsPerEpoch))
    ensures ValidateDutyCount(c, role, slot, ctx, op).Accept?
  {
    var start := EpochStart(c, EpochOf(c, slot));
    var held := op.Held(start, c.slotsPerEpoch);
    if op.Get(slot).None? {
      EpochBounds(c, slot);
      RangeSize(held + {slot}, start, c.slotsPerEpoch);
      assert |held + {slot}| == |held| + 1;
    }
  }

  ghost predicate AnyInSyncCommittee(c: Chain, slot: Slot, ctx: Context)
    requires c.epochsPerSyncCommitteePeriod > 0
  {
    exists i | i in ctx.validatorIndices :: (EpochOf(c, slot) / c.epochsPerSyncCommitteePeriod, i) in ctx.syncMembers
  }

  // What the comment on committee roles promises.
  ghost function PromisedCommitteeLimit(c: Chain, slot: Slot, ctx: Context): nat
    requires c.epochsPerSyncCommitteePeriod > 0
  {
    if AnyInSyncCommittee(c, slot, ctx) then c.slotsPerEpoch
    else if 2 * |ctx.validatorIndices| < c.slotsPerEpoch then 2 * |ctx.validatorIndices| else c.slotsPerEpoch
  }

  // Skipping the sync-committee search keeps the promised limit except for exactly one committee
  // size of an odd epoch length, half of it rounded down, and then only with a member in the sync
  // committee.
  lemma CommitteeLimitExactlyWhen(c: Chain, role: Role, slot: Slot, ctx: Context)
    requires role.IsCommitteeRole() && c.epochsPerSyncCommitteePeriod > 0
    ensures DutyLimit(c, role, slot, ctx) == Ok(Some(PromisedCommitteeLimit(c, slot, ctx)))
            <==> !(2 * |ctx.validatorIndices| + 1 == c.slotsPerEpoch && AnyInSyncCommittee(c, slot, ctx))
  {
  }

  // The exception is real: three slots per epoch, one validator, in the sync committee.
  lemma CommitteeLimitOddEpoch()
    ensures var c := ChainParams(0, 12000, 3, 1, 256, None, None);
            var ctx := Context([1], [7], 0, true, {(0, 7)}, 0);
            DutyLimit(c, Committee, 0, ctx) == Ok(Some(2)) && PromisedCommitteeLimit(c, 0, ctx) == 3
  {
    var c: Chain := ChainParams(0, 12000, 3, 1, 256, None, None);
    var ctx := Context([1], [7], 0, true, {(0, 7)}, 0);
    assert EpochOf(c, 0) / c.epochsPerSyncCommitteePeriod == 0;
    assert 7 in ctx.validatorIndices;
    assert AnyInSyncCommittee(c, 0, ctx);
  }
}
