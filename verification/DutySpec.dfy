/**
 The values behind message_validator/src/duty_state.rs and message_counts.rs: one ring of signer
 states per operator, and the functions that the in-place updates are proved against.
 */
module DutySpec {
  import opened Wrappers
  import opened OperatorIds
  import opened SsvTypes
  import opened Congruence

  const MAX_MESSAGES_PER_ROUND: nat := 1
  const MAX_PROPOSER_PREFERENCES_DISTINCT_ROOTS: nat := 4
  const MAX_REQUEST_AUTH_DISTINCT_ROOTS: nat := 8

  // ---------- message counts ----------

  datatype MessageCounts = MessageCounts(
    preConsensus: nat, proposal: nat, prepare: nat, commit: nat, roundChange: nat, postConsensus: nat)
  {
    function Of(kind: QbftKind): nat {
      match kind
      case Proposal => proposal
      case Prepare => prepare
      case Commit => commit
      case RoundChange => roundChange
    }

    predicate AtMostOne() {
      preConsensus <= 1 && proposal <= 1 && prepare <= 1 && commit <= 1 && roundChange <= 1 && postConsensus <= 1
    }

    // Decided messages (commits with several signers) are never limited here.
    predicate ExceedsConsensusLimit(kind: QbftKind, signers: nat) {
      match kind
      case Proposal => proposal >= MAX_MESSAGES_PER_ROUND
      case Prepare => prepare >= MAX_MESSAGES_PER_ROUND
      case Commit => signers == 1 && commit >= MAX_MESSAGES_PER_ROUND
      case RoundChange => roundChange >= MAX_MESSAGES_PER_ROUND
    }

    predicate ExceedsPartialLimit(kind: PartialKind) {
      match kind
      case PostConsensus => postConsensus >= MAX_MESSAGES_PER_ROUND
      case PreferencesSig | RequestAuth => false
      case _ => preConsensus >= MAX_MESSAGES_PER_ROUND
    }

    function RecordConsensus(kind: QbftKind, signers: nat): MessageCounts {
      match kind
      case Proposal => this.(proposal := proposal + 1)
      case Prepare => this.(prepare := prepare + 1)
      case Commit => if signers == 1 then this.(commit := commit + 1) else this
      case RoundChange => this.(roundChange := roundChange + 1)
    }

    function RecordPartial(kind: PartialKind): MessageCounts {
      match kind
      case PostConsensus => this.(postConsensus := postConsensus + 1)
      case PreferencesSig | RequestAuth => this
      case _ => this.(preConsensus := preConsensus + 1)
    }
  }

  const NoMessages := MessageCounts(0, 0, 0, 0, 0, 0)

  // ---------- signer state ----------

  // The signers of a decided message are remembered by a SHA-256 digest over their ids, each cut to
  // 32 bits, in the order the message lists them. The digest input stands for the digest.
  function SignersDigest(signers: seq<OperatorId>): seq<nat> {
    seq(|signers|, i requires 0 <= i < |signers| => signers[i] % 0x1_0000_0000)
  }

  datatype SignerState = SignerState(
    slot: Slot, round: nat, counts: MessageCounts, proposalHash: Option<Hash256>,
    seenSigners: set<seq<nat>>, preferenceRoots: set<Hash256>, authRoots: set<Hash256>)
  {
    function Roots(kind: PartialKind): set<Hash256> {
      if kind.RequestAuth? then authRoots else preferenceRoots
    }

    function WithRoots(kind: PartialKind, roots: set<Hash256>): SignerState {
      if kind.RequestAuth? then this.(authRoots := roots) else this.(preferenceRoots := roots)
    }

    function UpdateForConsensus(signed: Signed, m: QbftMessage): SignerState {
      SignerState(
        slot, round,
        counts.RecordConsensus(m.kind, |signed.signers|),
        if signed.fullDataHash.Some? && m.kind.Proposal? then Some(m.root) else proposalHash,
        if |signed.signers| > 1 then seenSigners + {SignersDigest(signed.signers)} else seenSigners,
        preferenceRoots, authRoots)
    }

    function UpdateForPartial(p: Packet): (SignerState, Verdict) {
      if RootBudgeted(p.kind) then
        var added := (set r | r in p.roots) - Roots(p.kind);
        if p.roots == [] then (this, Refuse(NoPartialSignatureMessages))
        else if added == {} then (this, Refuse(RelayedDuplicateMessage))
        else if |Roots(p.kind)| + |added| > RootCap(p.kind) then (this, Refuse(TooManyDistinctSigningRoots))
        else (WithRoots(p.kind, Roots(p.kind) + added).(counts := counts.RecordPartial(p.kind)), Accept)
      else
        (this.(counts := counts.RecordPartial(p.kind)), Accept)
    }
  }

  predicate RootBudgeted(kind: PartialKind) {
    kind.PreferencesSig? || kind.RequestAuth?
  }

  function RootCap(kind: PartialKind): nat {
    if kind.RequestAuth? then MAX_REQUEST_AUTH_DISTINCT_ROOTS else MAX_PROPOSER_PREFERENCES_DISTINCT_ROOTS
  }

  function NewSignerState(slot: Slot, round: nat): SignerState {
    SignerState(slot, round, NoMessages, None, {}, {}, {})
  }

  // ---------- one operator's ring ----------

  type Ring = r: seq<Option<SignerState>> | |r| > 0 witness [None]

  datatype OperatorView = OperatorView(ring: Ring, maxSlot: Slot)
  {
    function Get(slot: Slot): Option<SignerState> {
      var e := ring[slot % |ring|];
      if e.Some? && e.value.slot == slot then e else None
    }

    // Set replaces whatever the ring holds at the slot's index and advances `maxSlot`.
    function Set(slot: Slot, s: SignerState): (v: OperatorView)
      ensures |v.ring| == |ring|
    {
      OperatorView(ring[slot % |ring| := Some(s)], if slot > maxSlot then slot else maxSlot)
    }

    // Overwrite changes the entry in place and leaves `maxSlot` alone.
    function Overwrite(slot: Slot, s: SignerState): (v: OperatorView)
      ensures |v.ring| == |ring|
    {
      OperatorView(ring[slot % |ring| := Some(s)], maxSlot)
    }

    function RecordConsensus(signed: Signed, m: QbftMessage): (v: OperatorView)
      ensures |v.ring| == |ring|
    {
      var cur := Get(m.height);
      if cur.Some? && m.round <= cur.value.round
      then Overwrite(m.height, cur.value.UpdateForConsensus(signed, m))
      else Set(m.height, NewSignerState(m.height, m.round).UpdateForConsensus(signed, m))
    }

    // A refused packet still leaves an entry for its slot behind.
    function RecordPartial(p: Packet): (r: (OperatorView, Verdict))
      ensures |r.0.ring| == |ring|
    {
      var cur := Get(p.slot);
      if cur.Some? then
        var (s, v) := cur.value.UpdateForPartial(p);
        (Overwrite(p.slot, s), v)
      else
        var (s, v) := NewSignerState(p.slot, FIRST_ROUND).UpdateForPartial(p);
        (Set(p.slot, s), v)
    }

    // The slots from `from` on, `n` of them, that the ring holds.
    function Held(from: Slot, n: nat): set<Slot> {
      set s | from <= s < from + n && Get(s).Some?
    }
  }

  function FreshOperator(size: nat): OperatorView
    requires size > 0
  {
    OperatorView(seq(size, _ => None), 0)
  }

  // ---------- all operators of one message id ----------

  type Positive = n: int | n > 0 witness 1

  datatype DutyView = DutyView(operators: map<OperatorId, OperatorView>, storedSlotCount: Positive)
  {
    // An operator without an entry behaves like one with an empty ring.
    function Lookup(o: OperatorId): OperatorView {
      if o in operators then operators[o] else FreshOperator(storedSlotCount)
    }

    function Touch(o: OperatorId): DutyView {
      this.(operators := operators[o := Lookup(o)])
    }

    function Put(o: OperatorId, v: OperatorView): DutyView {
      this.(operators := operators[o := v])
    }

    function RecordConsensus(todo: seq<OperatorId>, signed: Signed, m: QbftMessage): DutyView
      decreases |todo|
    {
      if todo == [] then this
      else Put(todo[0], Lookup(todo[0]).RecordConsensus(signed, m)).RecordConsensus(todo[1..], signed, m)
    }

    predicate Outdated(now: Slot) {
      var earliest := if now < storedSlotCount then 0 else now - storedSlotCount;
      forall o | o in operators :: operators[o].maxSlot < earliest
    }
  }

  // Each signer's ring is updated exactly once and nobody else's is touched.
  lemma {:induction false} RecordConsensusLookup(
    d: DutyView, todo: seq<OperatorId>, signed: Signed, m: QbftMessage, o: OperatorId)
    requires Distinct(todo)
    ensures d.RecordConsensus(todo, signed, m).storedSlotCount == d.storedSlotCount
    ensures d.RecordConsensus(todo, signed, m).Lookup(o)
            == if o in todo then d.Lookup(o).RecordConsensus(signed, m) else d.Lookup(o)
    decreases |todo|
  {
    if todo != [] {
      var d' := d.Put(todo[0], d.Lookup(todo[0]).RecordConsensus(signed, m));
      assert Distinct(todo[1..]);
      RecordConsensusLookup(d', todo[1..], signed, m, o);
    }
  }

  // ---------- facts about a single ring ----------

  // A packet leaves what an entry holds of consensus messages alone.
  lemma PacketKeeps(s: SignerState, p: Packet)
    ensures var s' := s.UpdateForPartial(p).0;
            && s'.slot == s.slot && s'.round == s.round && s'.proposalHash == s.proposalHash
            && s'.seenSigners == s.seenSigners && s'.counts == s.counts.RecordPartial(p.kind)
            && forall kind :: s'.counts.Of(kind) == s.counts.Of(kind)
  {
  }

  // Distinct slots at the same ring index are at least a whole ring apart.
  lemma SameIndexFarApart(a: Slot, b: Slot, n: Positive)
    requires a < b && a % n == b % n
    ensures a + n <= b
  {
    SameRemainder(b, a, n);
    if b - a < n {
      SmallMultiple(b - a, n);
    }
  }

  // Writing a slot makes exactly that slot's entry visible and hides the other slots of its index.
  lemma GetAfterWrite(v: OperatorView, slot: Slot, s: SignerState, max: Slot, q: Slot)
    requires s.slot == slot
    ensures var w := OperatorView(v.ring[slot % |v.ring| := Some(s)], max);
            w.Get(q) == if q == slot then Some(s)
                        else if q % |v.ring| == slot % |v.ring| then None
                        else v.Get(q)
  {
  }
}
