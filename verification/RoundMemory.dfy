/**
 What the entry of a slot that is not late remembers of an operator's own messages: the highest round it
 had a message accepted for, the kinds it had accepted in that round, and the proposal of that round
 (message_validator/src/duty_state.rs, message_counts.rs; consensus_message.rs, validate_qbft_logic).
 */
module RoundMemory {
  import opened Wrappers
  import opened OperatorIds
  import opened SsvTypes
  import opened SlotTiming
  import opened DutySpec
  import opened MessageRules
  import opened ValidatorRun
  import opened OncePerRound

  predicate RecordsAt(c: Chain, st: State, ev: Event, id: MessageId, o: OperatorId, slot: Slot) {
    RecordsConsensus(c, st, ev, id, o) && ev.payload.qbft.height == slot
  }

  // An accepted proposal of `o` that carries its full data.
  predicate ProposesAt(c: Chain, st: State, ev: Event, id: MessageId, o: OperatorId, slot: Slot) {
    && RecordsAt(c, st, ev, id, o, slot) && |ev.signed.signers| == 1
    && ev.payload.qbft.kind.Proposal? && ev.signed.fullDataHash.Some?
  }

  // The rounds of all consensus messages of `o` accepted for the slot, decided ones included.
  function Rounds(c: Chain, evs: seq<Event>, id: MessageId, o: OperatorId, slot: Slot): set<nat> {
    if evs == [] then {}
    else
      var before, ev := evs[..|evs|-1], evs[|evs|-1];
      Rounds(c, before, id, o, slot)
      + (if RecordsAt(c, Run(c, before), ev, id, o, slot) then {ev.payload.qbft.round} else {})
  }

  // Round and root of the proposals of `o` with full data accepted for the slot.
  function Proposed(c: Chain, evs: seq<Event>, id: MessageId, o: OperatorId, slot: Slot): set<(nat, Hash256)> {
    if evs == [] then {}
    else
      var before, ev := evs[..|evs|-1], evs[|evs|-1];
      Proposed(c, before, id, o, slot)
      + (if ProposesAt(c, Run(c, before), ev, id, o, slot) then {(ev.payload.qbft.round, ev.payload.qbft.root)} else {})
  }

  // Keys have a round among the rounds, and proposals a key among the keys.
  ghost predicate Nested(slot: Slot, rounds: set<nat>, keys: set<Key>, props: set<(nat, Hash256)>) {
    && (forall r, kind :: (slot, r, kind) in keys ==> r in rounds)
    && (forall r, h :: (r, h) in props ==> (slot, r, Proposal) in keys)
  }

  ghost predicate Recalls(
    entry: Option<SignerState>, slot: Slot, rounds: set<nat>, keys: set<Key>, props: set<(nat, Hash256)>)
  {
    match entry
    case None => rounds == {}
    case Some(e) =>
      && (forall r :: r in rounds ==> r <= e.round) && (e.round in rounds || e.round == FIRST_ROUND)
      && (forall kind :: e.counts.Of(kind) >= 1 <==> (slot, e.round, kind) in keys)
      && (forall h :: e.proposalHash == Some(h) <==> (e.round, h) in props)
  }

  // One accepted message: the entry it leaves recalls it and what it recalled before.
  lemma RecallsMessage(
    op: OperatorView, signed: Signed, m: QbftMessage, rounds: set<nat>, keys: set<Key>, props: set<(nat, Hash256)>)
    requires Nested(m.height, rounds, keys, props) && Recalls(op.Get(m.height), m.height, rounds, keys, props)
    requires CheckSigner(signed, m, op).Accept? && signed.signers != [] && (|signed.signers| > 1 ==> m.kind.Commit?)
    ensures var single := |signed.signers| == 1;
            var rounds', keys' := rounds + {m.round}, keys + (if single then {KeyOf(m)} else {});
            var proposes := single && m.kind.Proposal? && signed.fullDataHash.Some?;
            var props' := props + (if proposes then {(m.round, m.root)} else {});
            Nested(m.height, rounds', keys', props')
            && Recalls(Some(ConsensusEntry(op, signed, m)), m.height, rounds', keys', props')
  {
  }

  lemma RecallsPacket(
    op: OperatorView, p: Packet, rounds: set<nat>, keys: set<Key>, props: set<(nat, Hash256)>)
    requires Nested(p.slot, rounds, keys, props) && Recalls(op.Get(p.slot), p.slot, rounds, keys, props)
    ensures Recalls(Some(PartialEntry(op, p)), p.slot, rounds, keys, props)
  {
    hide SignerState.UpdateForPartial;
    var cur := op.Get(p.slot);
    PacketKeeps(if cur.Some? then cur.value else NewSignerState(p.slot, FIRST_ROUND), p);
  }

  function NewRounds(c: Chain, st: State, ev: Event, id: MessageId, o: OperatorId, slot: Slot): set<nat> {
    if RecordsAt(c, st, ev, id, o, slot) then {ev.payload.qbft.round} else {}
  }

  function NewKeys(c: Chain, st: State, ev: Event, id: MessageId, o: OperatorId): set<Key> {
    if AcceptsAlone(c, st, ev, id, o) then {KeyOf(ev.payload.qbft)} else {}
  }

  function NewProposals(
    c: Chain, st: State, ev: Event, id: MessageId, o: OperatorId, slot: Slot): set<(nat, Hash256)>
  {
    if ProposesAt(c, st, ev, id, o, slot) then {(ev.payload.qbft.round, ev.payload.qbft.root)} else {}
  }

  lemma NestedStep(
    c: Chain, st: State, ev: Event, id: MessageId, o: OperatorId, slot: Slot,
    rounds: set<nat>, keys: set<Key>, props: set<(nat, Hash256)>)
    requires Nested(slot, rounds, keys, props)
    ensures Nested(slot, rounds + NewRounds(c, st, ev, id, o, slot), keys + NewKeys(c, st, ev, id, o),
                   props + NewProposals(c, st, ev, id, o, slot))
  {
    hide RecordsConsensus;
  }

  // Keys of other slots do not matter.
  lemma RecallsOtherKeys(
    entry: Option<SignerState>, slot: Slot, rounds: set<nat>, keys: set<Key>, props: set<(nat, Hash256)>,
    more: set<Key>)
    requires Recalls(entry, slot, rounds, keys, props) && forall k :: k in more ==> k.0 != slot
    ensures Recalls(entry, slot, rounds, keys + more, props)
  {
  }

  lemma RecallsConsensus(
    c: Chain, st: State, ev: Event, id: MessageId, o: OperatorId, rec: set<Slot>, slot: Slot,
    rounds: set<nat>, keys: set<Key>, props: set<(nat, Hash256)>)
    requires MarginsFitOneSlot(c) && Sized(c, st) && RecordsConsensus(c, st, ev, id, o)
    requires Faithful(c, id.role, Op(c, st, id, o), rec, ev.Time()) && !Late(c, id.role, slot, ev.Time())
    requires Nested(slot, rounds, keys, props) && Recalls(Op(c, st, id, o).Get(slot), slot, rounds, keys, props)
    ensures Recalls(OpAfter(c, st, ev, id, o).Get(slot), slot, rounds + NewRounds(c, st, ev, id, o, slot),
                    keys + NewKeys(c, st, ev, id, o), props + NewProposals(c, st, ev, id, o, slot))
  {
    hide Recalls, Nested, Faithful, Wrote;
    var op, op2, m := Op(c, st, id, o), OpAfter(c, st, ev, id, o), ev.payload.qbft;
    var e := ConsensusEntry(op, ev.signed, m);
    ConsensusWrote(c, st, ev, id, o, rec);
    FaithfulStep(c, st, ev, id, o, rec);
    if m.height == slot {
      ConsensusAcceptance(c, id.role, ev.ctx, ev.signed, m, DutyOf(c, st, id));
      RecallsMessage(op, ev.signed, m, rounds, keys, props);
      GetWritten(op, op2, e);
    } else {
      OtherSlotKept(c, id.role, op, op2, e, rec, slot, ev.Time());
      RecallsOtherKeys(op.Get(slot), slot, rounds, keys, props, NewKeys(c, st, ev, id, o));
      assert rounds + {} == rounds && props + {} == props;
    }
  }

  lemma GetWritten(op: OperatorView, op2: OperatorView, e: SignerState)
    requires Wrote(op, op2, e)
    ensures op2.Get(e.slot) == Some(e)
  {
    GetAfterWrite(op, e.slot, e, op2.maxSlot, e.slot);
  }

  lemma RecallsPartial(
    c: Chain, st: State, ev: Event, id: MessageId, o: OperatorId, rec: set<Slot>, slot: Slot,
    rounds: set<nat>, keys: set<Key>, props: set<(nat, Hash256)>)
    requires MarginsFitOneSlot(c) && Sized(c, st) && RecordsPartial(c, st, ev, id, o)
    requires Faithful(c, id.role, Op(c, st, id, o), rec, ev.Time()) && !Late(c, id.role, slot, ev.Time())
    requires Nested(slot, rounds, keys, props) && Recalls(Op(c, st, id, o).Get(slot), slot, rounds, keys, props)
    ensures Recalls(OpAfter(c, st, ev, id, o).Get(slot), slot, rounds, keys, props)
  {
    hide Recalls, Nested, Faithful, Wrote;
    var op, op2, p := Op(c, st, id, o), OpAfter(c, st, ev, id, o), ev.payload.packet;
    PartialWrote(c, st, ev, id, o, rec);
    FaithfulStep(c, st, ev, id, o, rec);
    if p.slot == slot {
      RecallsPacket(op, p, rounds, keys, props);
      GetWritten(op, op2, PartialEntry(op, p));
    } else {
      OtherSlotKept(c, id.role, op, op2, PartialEntry(op, p), rec, slot, ev.Time());
    }
  }

  // A state is dropped only when no slot of it can be asked about any more.
  lemma LiveSurvivesDrop(
    c: Chain, st: State, ev: Event, id: MessageId, o: OperatorId, rec: set<Slot>, slot: Slot)
    requires MarginsFitOneSlot(c) && Sized(c, st) && Drops(c, st, ev, id)
    requires Faithful(c, id.role, Op(c, st, id, o), rec, ev.Time()) && !Late(c, id.role, slot, ev.Time())
    ensures OpAfter(c, st, ev, id, o).Get(slot) == Op(c, st, id, o).Get(slot)
  {
    FaithfulDrop(c, st, ev, id, o, rec);
    if slot in rec {
      EpochBounds(c, slot);
      LateMono(c, id.role, slot, EpochLast(c, slot), ev.Time(), ev.Time());
    }
  }

  lemma StepRecalls(
    c: Chain, st: State, ev: Event, id: MessageId, o: OperatorId, rec: set<Slot>, slot: Slot,
    rounds: set<nat>, keys: set<Key>, props: set<(nat, Hash256)>)
    requires MarginsFitOneSlot(c) && Sized(c, st)
    requires Faithful(c, id.role, Op(c, st, id, o), rec, ev.Time()) && !Late(c, id.role, slot, ev.Time())
    requires Nested(slot, rounds, keys, props) && Recalls(Op(c, st, id, o).Get(slot), slot, rounds, keys, props)
    ensures Recalls(OpAfter(c, st, ev, id, o).Get(slot), slot, rounds + NewRounds(c, st, ev, id, o, slot),
                    keys + NewKeys(c, st, ev, id, o), props + NewProposals(c, st, ev, id, o, slot))
  {
    hide Recalls, Nested, Faithful;
    if RecordsConsensus(c, st, ev, id, o) {
      RecallsConsensus(c, st, ev, id, o, rec, slot, rounds, keys, props);
    } else {
      assert rounds + {} == rounds && keys + {} == keys && props + {} == props;
      if RecordsPartial(c, st, ev, id, o) {
        RecallsPartial(c, st, ev, id, o, rec, slot, rounds, keys, props);
      } else if Drops(c, st, ev, id) {
        LiveSurvivesDrop(c, st, ev, id, o, rec, slot);
      }
    }
  }

  // After any ordered run, the entry of a slot that is not late recalls exactly the rounds, kinds and
  // proposals accepted for it, through aliasing, replacement and cleaning.
  lemma {:induction false} RunRecalls(c: Chain, evs: seq<Event>, id: MessageId, o: OperatorId, slot: Slot, t: Millis)
    requires MarginsFitOneSlot(c) && Ordered(evs) && AllBy(evs, t)
    ensures var rounds, keys := Rounds(c, evs, id, o, slot), AcceptedKeys(c, evs, id, o);
            var props := Proposed(c, evs, id, o, slot);
            && Nested(slot, rounds, keys, props)
            && (!Late(c, id.role, slot, t) ==> Recalls(Op(c, Run(c, evs), id, o).Get(slot), slot, rounds, keys, props))
    decreases |evs|
  {
    if evs == [] {
      NothingRecalled(c, id, o, slot);
    } else {
      hide Recalls, Nested, Faithful, RecordsConsensus, OpAfter, Step;
      var before, ev := evs[..|evs|-1], evs[|evs|-1];
      var st, rec := Run(c, before), Recorded(c, before, id, o);
      var rounds, keys := Rounds(c, before, id, o, slot), AcceptedKeys(c, before, id, o);
      var props := Proposed(c, before, id, o, slot);
      RunFaithful(c, before, id, o, ev.Time());
      RunRecalls(c, before, id, o, slot, ev.Time());
      NestedStep(c, st, ev, id, o, slot, rounds, keys, props);
      StepEffect(c, st, ev, id, o);
      if !Late(c, id.role, slot, t) {
        NotLateBefore(c, id.role, slot, ev.Time(), t);
        StepRecalls(c, st, ev, id, o, rec, slot, rounds, keys, props);
      }
    }
  }

  lemma NothingRecalled(c: Chain, id: MessageId, o: OperatorId, slot: Slot)
    ensures Nested(slot, {}, {}, {}) && Recalls(Op(c, map[], id, o).Get(slot), slot, {}, {}, {})
  {
  }

  // ---------- in terms of events ----------

  predicate RoundAt(c: Chain, evs: seq<Event>, i: nat, id: MessageId, o: OperatorId, slot: Slot, round: nat) {
    && i < |evs| && RecordsAt(c, Run(c, evs[..i]), evs[i], id, o, slot)
    && evs[i].payload.qbft.round == round
  }

  predicate KeyAt(c: Chain, evs: seq<Event>, i: nat, id: MessageId, o: OperatorId, key: Key) {
    && i < |evs| && AcceptsAlone(c, Run(c, evs[..i]), evs[i], id, o)
    && KeyOf(evs[i].payload.qbft) == key
  }

  predicate ProposalAt(
    c: Chain, evs: seq<Event>, i: nat, id: MessageId, o: OperatorId, slot: Slot, round: nat, root: Hash256)
  {
    && i < |evs| && ProposesAt(c, Run(c, evs[..i]), evs[i], id, o, slot)
    && evs[i].payload.qbft.round == round && evs[i].payload.qbft.root == root
  }

  lemma {:induction false} RoundsMeaning(
    c: Chain, evs: seq<Event>, id: MessageId, o: OperatorId, slot: Slot, round: nat)
    ensures round in Rounds(c, evs, id, o, slot) <==> exists i: nat :: RoundAt(c, evs, i, id, o, slot, round)
    decreases |evs|
  {
    hide Step, Run;
    if evs != [] {
      var before, n := evs[..|evs|-1], |evs| - 1;
      RoundsMeaning(c, before, id, o, slot, round);
      forall i: nat
        ensures RoundAt(c, evs, i, id, o, slot, round)
                <==> RoundAt(c, before, i, id, o, slot, round) || (i == n && RoundAt(c, evs, n, id, o, slot, round))
      {
        assert i < n ==> before[..i] == evs[..i];
      }
      if round in Rounds(c, before, id, o, slot) {
        var i: nat :| RoundAt(c, before, i, id, o, slot, round);
        assert RoundAt(c, evs, i, id, o, slot, round);
      }
      assert RoundAt(c, evs, n, id, o, slot, round)
        <==> RecordsAt(c, Run(c, before), evs[n], id, o, slot) && evs[n].payload.qbft.round == round;
    }
  }

  lemma {:induction false} KeysMeaning(c: Chain, evs: seq<Event>, id: MessageId, o: OperatorId, key: Key)
    ensures key in AcceptedKeys(c, evs, id, o) <==> exists i: nat :: KeyAt(c, evs, i, id, o, key)
    decreases |evs|
  {
    hide Step, Run;
    if evs != [] {
      var before, n := evs[..|evs|-1], |evs| - 1;
      KeysMeaning(c, before, id, o, key);
      forall i: nat
        ensures KeyAt(c, evs, i, id, o, key)
                <==> KeyAt(c, before, i, id, o, key) || (i == n && KeyAt(c, evs, n, id, o, key))
      {
        assert i < n ==> before[..i] == evs[..i];
      }
      if key in AcceptedKeys(c, before, id, o) {
        var i: nat :| KeyAt(c, before, i, id, o, key);
        assert KeyAt(c, evs, i, id, o, key);
      }
      assert KeyAt(c, evs, n, id, o, key)
        <==> AcceptsAlone(c, Run(c, before), evs[n], id, o) && KeyOf(evs[n].payload.qbft) == key;
    }
  }

  lemma {:induction false} ProposedMeaning(
    c: Chain, evs: seq<Event>, id: MessageId, o: OperatorId, slot: Slot, round: nat, root: Hash256)
    ensures (round, root) in Proposed(c, evs, id, o, slot)
            <==> exists i: nat :: ProposalAt(c, evs, i, id, o, slot, round, root)
    decreases |evs|
  {
    hide Step, Run;
    if evs != [] {
      var before, n := evs[..|evs|-1], |evs| - 1;
      ProposedMeaning(c, before, id, o, slot, round, root);
      forall i: nat
        ensures ProposalAt(c, evs, i, id, o, slot, round, root)
                <==> || ProposalAt(c, before, i, id, o, slot, round, root)
                     || (i == n && ProposalAt(c, evs, n, id, o, slot, round, root))
      {
        assert i < n ==> before[..i] == evs[..i];
      }
      if (round, root) in Proposed(c, before, id, o, slot) {
        var i: nat :| ProposalAt(c, before, i, id, o, slot, round, root);
        assert ProposalAt(c, evs, i, id, o, slot, round, root);
      }
      assert ProposalAt(c, evs, n, id, o, slot, round, root)
        <==> && ProposesAt(c, Run(c, before), evs[n], id, o, slot)
             && evs[n].payload.qbft.round == round && evs[n].payload.qbft.root == root;
    }
  }

  // An earlier message of `o` for the slot, alone or with others, was accepted in a higher round.
  ghost predicate HigherRound(c: Chain, evs: seq<Event>, id: MessageId, o: OperatorId, slot: Slot, round: nat) {
    exists i: nat, r: nat :: RoundAt(c, evs, i, id, o, slot, r) && r > round
  }

  // An earlier message of `o` alone for the slot was accepted in the same round and of the same kind.
  ghost predicate SameRoundAndKind(
    c: Chain, evs: seq<Event>, id: MessageId, o: OperatorId, slot: Slot, round: nat, kind: QbftKind)
  {
    exists i: nat :: KeyAt(c, evs, i, id, o, (slot, round, kind))
  }

  // A proposal of `o` for the slot and round was accepted with full data of another root.
  ghost predicate OtherProposal(
    c: Chain, evs: seq<Event>, id: MessageId, o: OperatorId, slot: Slot, round: nat, root: Hash256)
  {
    exists i: nat, h: Hash256 :: ProposalAt(c, evs, i, id, o, slot, round, h) && h != root
  }

  lemma HigherRoundMeaning(c: Chain, evs: seq<Event>, id: MessageId, o: OperatorId, slot: Slot, round: nat)
    ensures HigherRound(c, evs, id, o, slot, round) <==> exists r: nat :: r in Rounds(c, evs, id, o, slot) && r > round
  {
    hide RoundAt, Rounds;
    if HigherRound(c, evs, id, o, slot, round) {
      var i: nat, r: nat :| RoundAt(c, evs, i, id, o, slot, r) && r > round;
      RoundsMeaning(c, evs, id, o, slot, r);
      assert r in Rounds(c, evs, id, o, slot);
    }
    if r: nat :| r in Rounds(c, evs, id, o, slot) && r > round {
      RoundsMeaning(c, evs, id, o, slot, r);
      var i: nat :| RoundAt(c, evs, i, id, o, slot, r);
      assert RoundAt(c, evs, i, id, o, slot, r) && r > round;
    }
  }

  lemma OtherProposalMeaning(
    c: Chain, evs: seq<Event>, id: MessageId, o: OperatorId, slot: Slot, round: nat, root: Hash256)
    ensures OtherProposal(c, evs, id, o, slot, round, root)
            <==> exists h: Hash256 :: (round, h) in Proposed(c, evs, id, o, slot) && h != root
  {
    hide ProposalAt, Proposed;
    if OtherProposal(c, evs, id, o, slot, round, root) {
      var i: nat, h: Hash256 :| ProposalAt(c, evs, i, id, o, slot, round, h) && h != root;
      ProposedMeaning(c, evs, id, o, slot, round, h);
      assert (round, h) in Proposed(c, evs, id, o, slot);
    }
    if h: Hash256 :| (round, h) in Proposed(c, evs, id, o, slot) && h != root {
      ProposedMeaning(c, evs, id, o, slot, round, h);
      var i: nat :| ProposalAt(c, evs, i, id, o, slot, round, h);
      assert ProposalAt(c, evs, i, id, o, slot, round, h) && h != root;
    }
  }

  // The verdict of the signer's entry on a message of its own, told from the accepted events: a higher
  // round comes first, then a proposal of other data, then a message of the same kind.
  lemma OwnEntryExactly(
    c: Chain, evs: seq<Event>, id: MessageId, o: OperatorId, signed: Signed, m: QbftMessage, t: Millis)
    requires MarginsFitOneSlot(c) && Ordered(evs) && AllBy(evs, t) && !Late(c, id.role, m.height, t)
    requires |signed.signers| == 1 && m.round >= FIRST_ROUND
    ensures CheckSigner(signed, m, Op(c, Run(c, evs), id, o))
            == if HigherRound(c, evs, id, o, m.height, m.round) then Refuse(RoundAlreadyAdvanced)
               else if signed.fullDataHash.Some? && OtherProposal(c, evs, id, o, m.height, m.round, m.root)
               then Refuse(DifferentProposalData)
               else if SameRoundAndKind(c, evs, id, o, m.height, m.round, m.kind) then Refuse(DuplicatedMessage)
               else Accept
  {
    hide RoundAt, KeyAt, ProposalAt, Rounds, AcceptedKeys, Proposed, Run;
    var slot, entry := m.height, Op(c, Run(c, evs), id, o).Get(m.height);
    var rounds, keys, props := Rounds(c, evs, id, o, slot), AcceptedKeys(c, evs, id, o), Proposed(c, evs, id, o, slot);
    RunRecalls(c, evs, id, o, slot, t);
    HigherRoundMeaning(c, evs, id, o, slot, m.round);
    OtherProposalMeaning(c, evs, id, o, slot, m.round, m.root);
    KeysMeaning(c, evs, id, o, (slot, m.round, m.kind));
    EntryVerdict(signed, m, entry, rounds, keys, props);
  }

  lemma EntryVerdict(
    signed: Signed, m: QbftMessage, entry: Option<SignerState>, rounds: set<nat>, keys: set<Key>,
    props: set<(nat, Hash256)>)
    requires Nested(m.height, rounds, keys, props) && Recalls(entry, m.height, rounds, keys, props)
    requires |signed.signers| == 1 && m.round >= FIRST_ROUND
    ensures CheckEntry(signed, m, entry)
            == if exists r: nat :: r in rounds && r > m.round then Refuse(RoundAlreadyAdvanced)
               else if signed.fullDataHash.Some? && (exists h: Hash256 :: (m.round, h) in props && h != m.root)
               then Refuse(DifferentProposalData)
               else if KeyOf(m) in keys then Refuse(DuplicatedMessage)
               else Accept
  {
  }
}
