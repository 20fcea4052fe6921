/**
 Proposer and PTC duty schedules and their verdicts (duties_tracker/src/lib.rs, duties_tracker.rs).
 */
module Duties {
  import opened Wrappers
  import opened SsvTypes
  import opened SlotTiming

  type Pubkey = int
  type ValidatorIndex = nat

  // ---------- proposer schedules ----------

  datatype ProposerDuty = ProposerDuty(slot: Slot, pubkey: Pubkey)

  datatype ScheduleError =
    | WrongLength(expected: nat, actual: nat)
    | SlotOutOfEpoch(slot: Slot)
    | DuplicateSlot(slot: Slot)

  ghost predicate AllInEpoch(c: Chain, epoch: Epoch, ds: seq<ProposerDuty>) {
    forall i :: 0 <= i < |ds| ==> EpochOf(c, ds[i].slot) == epoch
  }

  ghost predicate SlotsDistinct(ds: seq<ProposerDuty>) {
    forall i, j :: 0 <= i < j < |ds| ==> ds[i].slot != ds[j].slot
  }

  // One duty for each slot of the epoch, and no others.
  ghost predicate Complete(c: Chain, epoch: Epoch, ds: seq<ProposerDuty>) {
    && AllInEpoch(c, epoch, ds) && SlotsDistinct(ds)
    && forall s: Slot :: EpochOf(c, s) == epoch ==> s in SlotsOf(ds)
  }

  function SlotsOf(ds: seq<ProposerDuty>): set<Slot> {
    set i | 0 <= i < |ds| :: ds[i].slot
  }

  function SlotRange(start: Slot, n: nat): set<Slot> {
    if n == 0 then {} else SlotRange(start, n - 1) + {start + n - 1}
  }

  lemma {:induction false} SlotsOfSize(ds: seq<ProposerDuty>)
    requires SlotsDistinct(ds)
    ensures |SlotsOf(ds)| == |ds|
    decreases |ds|
  {
    if ds != [] {
      var before, last := ds[..|ds|-1], ds[|ds|-1];
      SlotsOfSize(before);
      assert SlotsOf(ds) == SlotsOf(before) + {last.slot};
      assert last.slot !in SlotsOf(before);
    }
  }

  lemma {:induction false} SlotRangeSize(start: Slot, n: nat)
    ensures |SlotRange(start, n)| == n && forall s :: s in SlotRange(start, n) <==> start <= s < start + n
    decreases n
  {
    if n > 0 {
      SlotRangeSize(start, n - 1);
    }
  }

  lemma {:induction false} SameSize<T>(a: set<T>, b: set<T>)
    requires a <= b && |a| == |b|
    ensures a == b
    decreases |a|
  {
    if a != {} {
      var x :| x in a;
      SameSize(a - {x}, b - {x});
      assert a == (a - {x}) + {x} && b == (b - {x}) + {x};
    }
  }

  // Pigeonhole: as many duties as slots, all in the epoch and no slot twice, is one for every slot.
  lemma CompleteExactly(c: Chain, epoch: Epoch, ds: seq<ProposerDuty>)
    ensures Complete(c, epoch, ds) <==> |ds| == c.slotsPerEpoch && AllInEpoch(c, epoch, ds) && SlotsDistinct(ds)
  {
    var start, n := EpochStart(c, epoch), c.slotsPerEpoch;
    forall s: Slot { EpochMembership(c, s, epoch); }
    SlotRangeSize(start, n);
    hide EpochOf, EpochStart;
    if AllInEpoch(c, epoch, ds) && SlotsDistinct(ds) {
      SlotsOfSize(ds);
      assert SlotsOf(ds) <= SlotRange(start, n);
      if |ds| == n {
        SameSize(SlotsOf(ds), SlotRange(start, n));
      }
      if Complete(c, epoch, ds) {
        assert SlotRange(start, n) == SlotsOf(ds);
      }
    }
  }

  // The first duty that is outside the epoch or repeats a slot.
  ghost predicate FirstBad(c: Chain, epoch: Epoch, ds: seq<ProposerDuty>, i: nat) {
    && i < |ds| && AllInEpoch(c, epoch, ds[..i]) && SlotsDistinct(ds[..i])
    && (EpochOf(c, ds[i].slot) != epoch || ds[i].slot in SlotsOf(ds[..i]))
  }

  // A response is taken exactly when it is complete; an error names the first thing wrong.
  method FromResponse(
    c: Chain, epoch: Epoch, ds: seq<ProposerDuty>) returns (r: Result<seq<ProposerDuty>, ScheduleError>)
    ensures r.Ok? <==> Complete(c, epoch, ds)
    ensures r.Ok? ==> r.value == ds
    ensures r.Err? && r.error.WrongLength? ==> r.error == WrongLength(c.slotsPerEpoch, |ds|) && |ds| != c.slotsPerEpoch
    ensures r.Err? && r.error.SlotOutOfEpoch? ==>
              exists i: nat ::
                FirstBad(c, epoch, ds, i) && ds[i].slot == r.error.slot && EpochOf(c, ds[i].slot) != epoch
    ensures r.Err? && r.error.DuplicateSlot? ==>
              exists i: nat ::
                FirstBad(c, epoch, ds, i) && ds[i].slot == r.error.slot && EpochOf(c, ds[i].slot) == epoch
  {
    CompleteExactly(c, epoch, ds);
    if |ds| != c.slotsPerEpoch {
      return Err(WrongLength(c.slotsPerEpoch, |ds|));
    }
    var start := EpochStart(c, epoch);
    forall s: Slot { EpochMembership(c, s, epoch); }
    hide EpochOf, EpochStart, Complete;
    var seen := new bool[c.slotsPerEpoch](_ => false);
    for i := 0 to |ds|
      invariant AllInEpoch(c, epoch, ds[..i]) && SlotsDistinct(ds[..i])
      invariant forall k :: 0 <= k < seen.Length ==> (seen[k] <==> start + k in SlotsOf(ds[..i]))
    {
      var slot := ds[i].slot;
      assert ds[..i + 1] == ds[..i] + [ds[i]];
      if slot < start || slot - start >= c.slotsPerEpoch {
        assert FirstBad(c, epoch, ds, i);
        NotYet(c, epoch, ds, i);
        return Err(SlotOutOfEpoch(slot));
      }
      if seen[slot - start] {
        assert FirstBad(c, epoch, ds, i);
        NotYet(c, epoch, ds, i);
        return Err(DuplicateSlot(slot));
      }
      OneMore(ds, i);
      seen[slot - start] := true;
    }
    assert ds[..|ds|] == ds;
    r := Ok(ds);
  }

  lemma NotYet(c: Chain, epoch: Epoch, ds: seq<ProposerDuty>, i: nat)
    requires FirstBad(c, epoch, ds, i)
    ensures !(AllInEpoch(c, epoch, ds) && SlotsDistinct(ds))
  {
    if ds[i].slot in SlotsOf(ds[..i]) {
      var j :| 0 <= j < i && ds[..i][j].slot == ds[i].slot;
      assert ds[j].slot == ds[i].slot;
    }
  }

  lemma OneMore(ds: seq<ProposerDuty>, i: nat)
    requires i < |ds| && SlotsDistinct(ds[..i])
    ensures SlotsOf(ds[..i + 1]) == SlotsOf(ds[..i]) + {ds[i].slot}
    ensures ds[i].slot !in SlotsOf(ds[..i]) ==> SlotsDistinct(ds[..i + 1])
  {
    var a, b := ds[..i], ds[..i + 1];
    assert b == a + [ds[i]];
    assert forall s :: s in SlotsOf(b) <==> s in SlotsOf(a) || s == ds[i].slot by {
      assert b[i] == ds[i] && forall j :: 0 <= j < i ==> b[j] == a[j];
    }
  }

  // ---------- the tracker's proposer view ----------

  const HISTORICAL_DUTIES_EPOCHS: nat := 2

  type ProposerView = map<Epoch, seq<ProposerDuty>>

  datatype DutyAssignment = Assigned | NotAssigned | Unknown

  predicate Proposes(ds: seq<ProposerDuty>, slot: Slot, p: Pubkey) {
    exists i :: 0 <= i < |ds| && ds[i] == ProposerDuty(slot, p)
  }

  function ProposerVerdict(c: Chain, view: ProposerView, slot: Slot, p: Pubkey): DutyAssignment {
    var epoch := EpochOf(c, slot);
    if epoch !in view then Unknown else if Proposes(view[epoch], slot, p) then Assigned else NotAssigned
  }

  // None is a failed request.
  ghost function Installed(
    c: Chain, view: ProposerView, epoch: Epoch, response: Option<seq<ProposerDuty>>): ProposerView
  {
    if response.Some? && Complete(c, epoch, response.value) then view[epoch := response.value] else view
  }

  function Retained(view: ProposerView, current: Epoch): ProposerView {
    view - set e | e in view && e + HISTORICAL_DUTIES_EPOCHS < current
  }

  datatype Poll = Poll(current: Epoch, response: Option<seq<ProposerDuty>>, next: Option<seq<ProposerDuty>>)

  ghost function Polled(c: Chain, view: ProposerView, p: Poll): ProposerView {
    Retained(Installed(c, Installed(c, view, p.current, p.response), p.current + 1, p.next), p.current)
  }

  ghost function RunPolls(c: Chain, polls: seq<Poll>): ProposerView {
    if polls == [] then map[] else Polled(c, RunPolls(c, polls[..|polls|-1]), polls[|polls|-1])
  }

  ghost predicate AllComplete(c: Chain, view: ProposerView) {
    forall e | e in view :: Complete(c, e, view[e])
  }

  lemma PollComplete(c: Chain, view: ProposerView, p: Poll)
    requires AllComplete(c, view)
    ensures AllComplete(c, Polled(c, view, p))
  {
    hide Complete;
  }

  lemma {:induction false} RunComplete(c: Chain, polls: seq<Poll>)
    ensures AllComplete(c, RunPolls(c, polls))
    decreases |polls|
  {
    hide AllComplete, Polled;
    if polls == [] {
      NothingComplete(c);
    } else {
      RunComplete(c, polls[..|polls|-1]);
      PollComplete(c, RunPolls(c, polls[..|polls|-1]), polls[|polls|-1]);
    }
  }

  lemma NothingComplete(c: Chain)
    ensures AllComplete(c, map[])
  {
  }

  // The key is the only one assigned to the slot, and every other one is denied it.
  ghost predicate OnlyProposer(c: Chain, view: ProposerView, slot: Slot, p: Pubkey) {
    forall q :: ProposerVerdict(c, view, slot, q) == if q == p then Assigned else NotAssigned
  }

  // In every reachable view, each slot of a retained epoch has exactly one assigned key and a definite
  // answer for every other; no other slot has any.
  lemma OneProposer(c: Chain, polls: seq<Poll>, slot: Slot)
    ensures var view := RunPolls(c, polls);
            if EpochOf(c, slot) in view
            then exists p :: OnlyProposer(c, view, slot, p)
            else forall q :: ProposerVerdict(c, view, slot, q) == Unknown
  {
    var view, epoch := RunPolls(c, polls), EpochOf(c, slot);
    RunComplete(c, polls);
    hide RunPolls, EpochOf;
    if epoch in view {
      var ds := view[epoch];
      assert Complete(c, epoch, ds);
      var i :| 0 <= i < |ds| && ds[i].slot == slot;
      var p := ds[i].pubkey;
      forall q
        ensures ProposerVerdict(c, view, slot, q) == if q == p then Assigned else NotAssigned
      {
        assert ds[i] == ProposerDuty(slot, p);
      }
      assert OnlyProposer(c, view, slot, p);
    }
  }

  // A complete schedule assigns each slot to the key of its own duty for that slot, to no other, and
  // denies it to all others.
  lemma ProposerExactly(c: Chain, view: ProposerView, slot: Slot, i: nat, q: Pubkey)
    requires var epoch := slot / c.slotsPerEpoch;
             epoch in view && Complete(c, epoch, view[epoch]) && i < |view[epoch]| && view[epoch][i].slot == slot
    ensures ProposerVerdict(c, view, slot, q)
            == if q == view[slot / c.slotsPerEpoch][i].pubkey then Assigned else NotAssigned
  {
    var ds := view[slot / c.slotsPerEpoch];
    if q == ds[i].pubkey {
      assert ds[i] == ProposerDuty(slot, q);
    }
  }

  // What the last polls say: the verdict on a slot is the one of the last complete response for its
  // epoch, as long as the epoch is retained.
  ghost function LastResponse(c: Chain, polls: seq<Poll>, epoch: Epoch): Option<seq<ProposerDuty>> {
    if polls == [] then None
    else
      var p := polls[|polls|-1];
      var answer := if epoch == p.current then p.response else if epoch == p.current + 1 then p.next else None;
      if epoch + 2 < p.current then None
      else if answer.Some? && Complete(c, epoch, answer.value) then answer
      else LastResponse(c, polls[..|polls|-1], epoch)
  }

  lemma {:induction false} ViewExactly(c: Chain, polls: seq<Poll>, epoch: Epoch)
    ensures var view := RunPolls(c, polls);
            LastResponse(c, polls, epoch) == if epoch in view then Some(view[epoch]) else None
    decreases |polls|
  {
    hide Complete;
    if polls != [] {
      ViewExactly(c, polls[..|polls|-1], epoch);
    }
  }

  // The response that the poll has for an epoch.
  function ResponseFor(p: Poll, epoch: Epoch): Option<seq<ProposerDuty>> {
    if epoch == p.current then p.response else if epoch == p.current + 1 then p.next else None
  }

  // A poll changes the verdicts of exactly the epochs it has a complete schedule for and those it
  // forgets; a failed or malformed answer changes none.
  lemma PollVerdicts(c: Chain, view: ProposerView, p: Poll, slot: Slot, q: Pubkey)
    ensures var epoch := EpochOf(c, slot);
            var answer := ResponseFor(p, epoch);
            ProposerVerdict(c, Polled(c, view, p), slot, q) ==
            if epoch + HISTORICAL_DUTIES_EPOCHS < p.current then Unknown
            else if answer.Some? && Complete(c, epoch, answer.value)
            then (if Proposes(answer.value, slot, q) then Assigned else NotAssigned)
            else ProposerVerdict(c, view, slot, q)
  {
    hide Complete, EpochOf;
  }

  // ---------- PTC schedules ----------

  datatype PtcDuty = PtcDuty(index: ValidatorIndex, slot: Slot)
  datatype PtcError =
    | PtcOutOfEpoch(slot: Slot)
    | UnrequestedValidator(index: ValidatorIndex)
    | DuplicateValidator(index: ValidatorIndex)

  type PtcSchedule = map<ValidatorIndex, Option<Slot>>

  predicate HasPtcDuty(ds: seq<PtcDuty>, v: ValidatorIndex) {
    exists i :: 0 <= i < |ds| && ds[i].index == v
  }

  ghost predicate PtcSound(c: Chain, epoch: Epoch, requested: seq<ValidatorIndex>, ds: seq<PtcDuty>) {
    && (forall i :: 0 <= i < |ds| ==> EpochOf(c, ds[i].slot) == epoch && ds[i].index in requested)
    && forall i, j :: 0 <= i < j < |ds| ==> ds[i].index != ds[j].index
  }

  // The schedule covers exactly the requested validators and holds exactly the response's duties.
  ghost predicate PtcHolds(s: PtcSchedule, requested: seq<ValidatorIndex>, ds: seq<PtcDuty>) {
    && (forall v :: v in s <==> v in requested)
    && (forall v | v in s :: s[v].Some? <==> HasPtcDuty(ds, v))
    && forall i :: 0 <= i < |ds| && ds[i].index in s ==> s[ds[i].index] == Some(ds[i].slot)
  }

  method FromPtcResponse(
    c: Chain, epoch: Epoch, requested: seq<ValidatorIndex>, ds: seq<PtcDuty>) returns (r: Result<PtcSchedule, PtcError>)
    ensures r.Ok? <==> PtcSound(c, epoch, requested, ds)
    ensures r.Ok? ==> PtcHolds(r.value, requested, ds)
  {
    var s: PtcSchedule := map[];
    for i := 0 to |requested|
      invariant forall v :: v in s <==> v in requested[..i]
      invariant forall v | v in s :: s[v] == None
    {
      assert requested[..i + 1] == requested[..i] + [requested[i]];
      s := s[requested[i] := None];
    }
    assert requested[..|requested|] == requested;
    for i := 0 to |ds|
      invariant PtcSound(c, epoch, requested, ds[..i]) && PtcHolds(s, requested, ds[..i])
    {
      hide EpochOf;
      var duty := ds[i];
      assert ds[..i + 1] == ds[..i] + [duty];
      if EpochOf(c, duty.slot) != epoch {
        return Err(PtcOutOfEpoch(duty.slot));
      }
      if duty.index !in s {
        return Err(UnrequestedValidator(duty.index));
      }
      if s[duty.index].Some? {
        ghost var j :| 0 <= j < i && ds[..i][j].index == duty.index;
        assert ds[j].index == ds[i].index;
        return Err(DuplicateValidator(duty.index));
      }
      PtcOneMore(s, requested, ds, i);
      s := s[duty.index := Some(duty.slot)];
    }
    assert ds[..|ds|] == ds;
    r := Ok(s);
  }

  lemma PtcOneMore(s: PtcSchedule, requested: seq<ValidatorIndex>, ds: seq<PtcDuty>, i: nat)
    requires i < |ds| && PtcHolds(s, requested, ds[..i]) && ds[i].index in s && s[ds[i].index].None?
    ensures PtcHolds(s[ds[i].index := Some(ds[i].slot)], requested, ds[..i + 1])
    ensures forall j :: 0 <= j < i ==> ds[j].index != ds[i].index
  {
    var a, b := ds[..i], ds[..i + 1];
    assert b == a + [ds[i]] && b[i] == ds[i];
    forall j | 0 <= j < i
      ensures ds[j].index != ds[i].index
    {
      assert a[j].index == ds[j].index;
      assert HasPtcDuty(a, a[j].index);
    }
    forall v
      ensures HasPtcDuty(b, v) <==> HasPtcDuty(a, v) || v == ds[i].index
    {
      if HasPtcDuty(a, v) {
        var j :| 0 <= j < |a| && a[j].index == v;
        assert b[j].index == v;
      }
      if HasPtcDuty(b, v) {
        var j :| 0 <= j < |b| && b[j].index == v;
        assert j < i ==> a[j].index == v;
      }
    }
  }

  function PtcVerdict(s: Option<PtcSchedule>, slot: Slot, v: ValidatorIndex): DutyAssignment {
    if s.None? || v !in s.value then Unknown
    else if s.value[v] == Some(slot) then Assigned else NotAssigned
  }

  // A sound response assigns exactly its duties, denies every other slot to those it was asked about,
  // and says nothing about anyone else.
  lemma PtcVerdictExactly(
    s: PtcSchedule, requested: seq<ValidatorIndex>, ds: seq<PtcDuty>, slot: Slot, v: ValidatorIndex)
    requires PtcHolds(s, requested, ds)
    ensures PtcVerdict(Some(s), slot, v) ==
            if v !in requested then Unknown
            else if exists i :: 0 <= i < |ds| && ds[i] == PtcDuty(v, slot) then Assigned else NotAssigned
  {
    if v in requested && s[v] == Some(slot) {
      var i :| 0 <= i < |ds| && ds[i].index == v;
      assert ds[i] == PtcDuty(v, slot);
    }
  }

  // ---------- the tracker as it works ----------

  class DutiesTracker {
    const chain: Chain
    var proposers: ProposerView
    var ptc: map<Epoch, PtcSchedule>

    constructor (chain: Chain)
      ensures this.chain == chain && proposers == map[] && ptc == map[]
    {
      this.chain := chain;
      proposers, ptc := map[], map[];
    }

    method InstallProposerSchedule(epoch: Epoch, ds: seq<ProposerDuty>) returns (ok: bool)
      modifies this`proposers
      ensures proposers == Installed(chain, old(proposers), epoch, Some(ds)) && (ok <==> Complete(chain, epoch, ds))
    {
      var schedule := FromResponse(chain, epoch, ds);
      if schedule.Err? {
        return false;
      }
      proposers := proposers[epoch := schedule.value];
      ok := true;
    }

    // The current and the next epoch; an error is reported after both have been tried.
    method PollProposers(p: Poll) returns (failed: bool)
      modifies this`proposers
      ensures proposers == Polled(chain, old(proposers), p) && (failed <==> p.response.None? || p.next.None?)
    {
      hide Complete;
      var requests := [(p.current, p.response), (p.current + 1, p.next)];
      failed := false;
      for i := 0 to 2
        invariant i == 0 ==> proposers == old(proposers) && !failed
        invariant i == 1 ==> failed == p.response.None?
        invariant i == 1 ==> proposers == Installed(chain, old(proposers), p.current, p.response)
        invariant i == 2 ==>
          proposers == Installed(chain, Installed(chain, old(proposers), p.current, p.response), p.current + 1, p.next)
        invariant i == 2 ==> failed == (p.response.None? || p.next.None?)
      {
        var (epoch, response) := requests[i];
        if response.Some? {
          var _ := InstallProposerSchedule(epoch, response.value);
        } else {
          failed := true;
        }
      }
      proposers := Retained(proposers, p.current);
    }

    method ProposerAssignment(slot: Slot, pubkey: Pubkey) returns (v: DutyAssignment)
      ensures v == ProposerVerdict(chain, proposers, slot, pubkey)
    {
      var epoch := EpochOf(chain, slot);
      if epoch !in proposers {
        return Unknown;
      }
      for i := 0 to |proposers[epoch]|
        invariant forall j :: 0 <= j < i ==> proposers[epoch][j] != ProposerDuty(slot, pubkey)
      {
        if proposers[epoch][i] == ProposerDuty(slot, pubkey) {
          return Assigned;
        }
      }
      v := NotAssigned;
    }

    // One earlier epoch is kept. A failed or malformed answer leaves the current epoch's view alone,
    // and without validators there is none.
    method PollPtc(
      current: Epoch, active: bool, indices: seq<ValidatorIndex>, response: Option<seq<PtcDuty>>) returns (ok: bool)
      modifies this`ptc
      ensures forall e | e != current || !active ::
                (e in ptc <==> e in old(ptc) && e + 1 >= current) && (e in ptc ==> ptc[e] == old(ptc)[e])
      ensures active && indices == [] ==> ok && current !in ptc
      ensures active && indices != [] ==> (ok <==> response.Some? && PtcSound(chain, current, indices, response.value))
      ensures active && indices != [] && ok ==> current in ptc && PtcHolds(ptc[current], indices, response.value)
      ensures active && indices != [] && !ok
              ==> (current in ptc <==> current in old(ptc)) && (current in ptc ==> ptc[current] == old(ptc)[current])
    {
      ptc := ptc - set e | e in ptc && e < (if current == 0 then 0 else current - 1);
      if !active {
        return true;
      }
      if indices == [] {
        ptc := ptc - {current};
        return true;
      }
      if response.None? {
        return false;
      }
      var schedule := FromPtcResponse(chain, current, indices, response.value);
      if schedule.Err? {
        return false;
      }
      ptc := ptc[current := schedule.value];
      ok := true;
    }

    method PtcAssignment(slot: Slot, v: ValidatorIndex) returns (r: DutyAssignment)
      ensures var epoch := EpochOf(chain, slot);
              r == PtcVerdict(if epoch in ptc then Some(ptc[epoch]) else None, slot, v)
    {
      var epoch := EpochOf(chain, slot);
      if epoch !in ptc || v !in ptc[epoch] {
        return Unknown;
      }
      r := if ptc[epoch][v] == Some(slot) then Assigned else NotAssigned;
    }
  }
}
