/**
 Round-robin leader choice (consensus_message.rs, round_robin_proposer) and how fairly it rotates.
 */
module Leader {
  import opened Wrappers
  import opened OperatorIds
  import opened SsvTypes
  import opened SlotTiming
  import opened Congruence
  import opened Sorting

  predicate BooleActive(c: Chain, e: Epoch) {
    c.booleEpoch.Some? && c.booleEpoch.value <= e
  }

  // After Boole the epoch shifts the rotation.
  function EpochShift(c: Chain, height: Slot): nat {
    var epoch := EpochOf(c, height);
    if BooleActive(c, epoch) then epoch else 0
  }

  function LeaderIndex(c: Chain, height: Slot, round: nat, n: nat): (i: nat)
    requires n > 0 && round >= FIRST_ROUND
    ensures i < n
  {
    (height % n + round - FIRST_ROUND + EpochShift(c, height)) % n
  }

  function RoundRobinProposer(
    c: Chain, height: Slot, round: nat, committee: seq<OperatorId>): Result<OperatorId, ValidationFailure>
    requires round >= FIRST_ROUND
  {
    if committee == [] then Err(NonExistentCommitteeID)
    else Ok(Sort(committee)[LeaderIndex(c, height, round, |committee|)])
  }

  // The order in which a committee is iterated never matters.
  lemma LeaderOrderIndependent(c: Chain, height: Slot, round: nat, a: seq<OperatorId>, b: seq<OperatorId>)
    requires round >= FIRST_ROUND
    requires multiset(a) == multiset(b)
    ensures RoundRobinProposer(c, height, round, a) == RoundRobinProposer(c, height, round, b)
  {
    SortCanonical(a, b);
    assert |multiset(a)| == |a| && |multiset(b)| == |b|;
  }

  // ---------- who leads ----------

  lemma SortedOnce(committee: seq<OperatorId>)
    requires Distinct(committee)
    ensures Distinct(Sort(committee))
  {
    var r := Sort(committee);
    forall i, j | 0 <= i < j < |r|
      ensures r[i] != r[j]
    {
      if r[i] == r[j] {
        TwoPlaces(r, i, j);
        DistinctMultiplicity(committee, r[i]);
      }
    }
  }

  // The leader of n members is the one with (height + round - 1) % n smaller members before Boole; from
  // Boole on the epoch of the height is added. An empty committee has none.
  lemma LeaderExactly(c: Chain, height: Slot, round: nat, committee: seq<OperatorId>, o: OperatorId)
    requires round >= FIRST_ROUND && Distinct(committee)
    ensures var epoch := height / c.slotsPerEpoch;
            var shift := if c.booleEpoch.Some? && c.booleEpoch.value <= epoch then epoch else 0;
            RoundRobinProposer(c, height, round, committee) == Ok(o)
            <==> o in committee
                 && |set m | m in committee && m < o| == (height + round - 1 + shift) % |committee|
  {
    if committee != [] {
      var n, r := |committee|, Sort(committee);
      var k := LeaderIndex(c, height, round, n);
      LeaderIndexFlat(c, height, round, n);
      SortedOnce(committee);
      RankIsPlace(r, k);
      SameElements(r, committee, r[k]);
      SameSmaller(r, committee, r[k]);
      if o in committee && |Smaller(committee, o)| == k {
        SameElements(r, committee, o);
        var i :| 0 <= i < |r| && r[i] == o;
        RankIsPlace(r, i);
        SameSmaller(r, committee, o);
      }
      assert Smaller(committee, o) == set m | m in committee && m < o;
    }
  }

  lemma SameSmaller(a: seq<nat>, b: seq<nat>, x: nat)
    requires multiset(a) == multiset(b)
    ensures Smaller(a, x) == Smaller(b, x)
  {
    forall y
      ensures y in Smaller(a, x) <==> y in Smaller(b, x)
    {
      SameElements(a, b, y);
    }
  }

  // ---------- rotation over rounds ----------

  lemma LeaderIndexFlat(c: Chain, height: Slot, round: nat, n: nat)
    requires n > 0 && round >= FIRST_ROUND
    ensures LeaderIndex(c, height, round, n) == (height + (round - 1 + EpochShift(c, height))) % n
  {
    ReduceFirst(height, round - 1 + EpochShift(c, height), n);
  }

  lemma IndexTurn(c: Chain, height: Slot, first: nat, n: nat, k: nat) returns (turn: nat)
    requires first >= FIRST_ROUND && k < n
    ensures first <= turn < first + n && LeaderIndex(c, height, turn, n) == k
  {
    var base := height - 1 + EpochShift(c, height);
    var step := ReachRemainder(base + first, k, n);
    turn := first + step;
    LeaderIndexFlat(c, height, turn, n);
  }

  lemma IndexTurnUnique(c: Chain, height: Slot, n: nat, r: nat, s: nat)
    requires n > 0 && r >= FIRST_ROUND && s >= FIRST_ROUND && r - s < n && s - r < n
    requires LeaderIndex(c, height, r, n) == LeaderIndex(c, height, s, n)
    ensures r == s
  {
    var base := height - 1 + EpochShift(c, height);
    LeaderIndexFlat(c, height, r, n);
    LeaderIndexFlat(c, height, s, n);
    SameRemainder(base + r, base + s, n);
    SmallMultiple(r - s, n);
  }

  // Over any n consecutive rounds of one height, every operator leads exactly once.
  lemma RotationOverRounds(c: Chain, height: Slot, first: nat, committee: seq<OperatorId>, o: OperatorId)
    returns (turn: nat)
    requires first >= FIRST_ROUND && Distinct(committee) && o in committee
    ensures first <= turn < first + |committee|
    ensures forall r :: first <= r < first + |committee| ==>
                          (RoundRobinProposer(c, height, r, committee) == Ok(o) <==> r == turn)
  {
    DistinctMultiplicity(committee, o);
    var k := PlaceInSort(committee, o);
    turn := IndexTurn(c, height, first, |committee|, k);
    forall r | first <= r < first + |committee|
      ensures RoundRobinProposer(c, height, r, committee) == Ok(o) <==> r == turn
    {
      if RoundRobinProposer(c, height, r, committee) == Ok(o) {
        IndexTurnUnique(c, height, |committee|, r, turn);
      }
    }
  }

  // ---------- rotation over epochs ----------

  function SlotAt(c: Chain, e: Epoch, offset: nat): Slot {
    EpochStart(c, e) + offset
  }

  lemma ShiftedSlot(c: Chain, e: Epoch, offset: nat)
    requires offset < c.slotsPerEpoch && BooleActive(c, e)
    ensures EpochShift(c, SlotAt(c, e, offset)) == e
    ensures SlotAt(c, e, offset) + e == e * (c.slotsPerEpoch + 1) + offset
  {
    EpochMembership(c, SlotAt(c, e, offset), e);
    Distribute(c.slotsPerEpoch, 1, e);
  }

  // After Boole, at one slot offset and one round, the index advances by slotsPerEpoch + 1 per epoch.
  lemma EpochLeaderIndex(c: Chain, e: Epoch, offset: nat, round: nat, n: nat)
    requires n > 0 && round >= FIRST_ROUND && offset < c.slotsPerEpoch && BooleActive(c, e)
    ensures LeaderIndex(c, SlotAt(c, e, offset), round, n)
            == (e * (c.slotsPerEpoch + 1) + offset + round - 1) % n
  {
    LeaderIndexFlat(c, SlotAt(c, e, offset), round, n);
    ShiftedSlot(c, e, offset);
    assert SlotAt(c, e, offset) + (round - 1 + e) == e * (c.slotsPerEpoch + 1) + offset + round - 1;
  }

  lemma EpochTurn(c: Chain, first: Epoch, offset: nat, round: nat, n: nat, k: nat) returns (turn: Epoch)
    requires round >= FIRST_ROUND && offset < c.slotsPerEpoch && k < n && BooleActive(c, first)
    requires Gcd(c.slotsPerEpoch + 1, n) == 1
    ensures first <= turn < first + n && LeaderIndex(c, SlotAt(c, turn, offset), round, n) == k
  {
    var a, want := c.slotsPerEpoch + 1, k - offset - round + 1;
    var e := CoprimeSolves(a, want, n);
    turn := first + (e - first) % n;
    DivMod(e - first, n);
    NextCongruent(first, e, n);
    ZeroProduct(turn - e, a, n);
    ZeroSum((turn - e) * a, e * a - want, n);
    Distribute(turn, e, a);
    SameRemainder(turn * a + offset + round - 1, k, n);
    RemainderUnique(k, 0, k, n);
    EpochLeaderIndex(c, turn, offset, round, n);
  }

  lemma EpochTurnUnique(c: Chain, e: Epoch, f: Epoch, offset: nat, round: nat, n: nat)
    requires n > 0 && round >= FIRST_ROUND && offset < c.slotsPerEpoch
    requires BooleActive(c, e) && BooleActive(c, f) && e - f < n && f - e < n
    requires LeaderIndex(c, SlotAt(c, e, offset), round, n) == LeaderIndex(c, SlotAt(c, f, offset), round, n)
    requires Gcd(c.slotsPerEpoch + 1, n) == 1
    ensures e == f
  {
    var a := c.slotsPerEpoch + 1;
    EpochLeaderIndex(c, e, offset, round, n);
    EpochLeaderIndex(c, f, offset, round, n);
    SameRemainder(e * a + offset + round - 1, f * a + offset + round - 1, n);
    Distribute(e, f, a);
    CoprimeCancels(a, e - f, n);
    SmallMultiple(e - f, n);
  }

  // A common divisor makes two different epochs of the cycle share a leader.
  lemma EpochTurnRepeats(c: Chain, first: Epoch, offset: nat, round: nat, n: nat) returns (other: Epoch)
    requires n > 0 && round >= FIRST_ROUND && offset < c.slotsPerEpoch && BooleActive(c, first)
    requires Gcd(c.slotsPerEpoch + 1, n) > 1
    ensures first < other < first + n
    ensures LeaderIndex(c, SlotAt(c, other, offset), round, n) == LeaderIndex(c, SlotAt(c, first, offset), round, n)
  {
    var a := c.slotsPerEpoch + 1;
    var q := SharedPeriod(a, n);
    other := first + q;
    EpochLeaderIndex(c, first, offset, round, n);
    EpochLeaderIndex(c, other, offset, round, n);
    Distribute(first, q, a);
    SameRemainder(other * a + offset + round - 1, first * a + offset + round - 1, n);
  }

  ghost predicate LeadsInEpoch(c: Chain, e: Epoch, offset: nat, round: nat, committee: seq<OperatorId>, o: OperatorId)
    requires round >= FIRST_ROUND
  {
    RoundRobinProposer(c, SlotAt(c, e, offset), round, committee) == Ok(o)
  }

  // `turn` is the only one of the n epochs from `first` on that `o` leads.
  ghost predicate OnlyTurn(
    c: Chain, first: Epoch, turn: Epoch, offset: nat, round: nat, committee: seq<OperatorId>, o: OperatorId)
    requires round >= FIRST_ROUND
  {
    first <= turn < first + |committee| &&
    forall e: Epoch ::
        first <= e < first + |committee| ==> (LeadsInEpoch(c, e, offset, round, committee, o) <==> e == turn)
  }

  // Every operator gets exactly one of the n epochs from `first` on.
  ghost predicate OneTurnPerCycle(c: Chain, first: Epoch, offset: nat, round: nat, committee: seq<OperatorId>)
    requires round >= FIRST_ROUND
  {
    forall o | o in committee :: exists turn: Epoch :: OnlyTurn(c, first, turn, offset, round, committee, o)
  }

  lemma CoprimeOnlyTurn(
    c: Chain, first: Epoch, offset: nat, round: nat, committee: seq<OperatorId>, o: OperatorId) returns (turn: Epoch)
    requires round >= FIRST_ROUND && offset < c.slotsPerEpoch && Distinct(committee) && o in committee
    requires BooleActive(c, first) && Gcd(c.slotsPerEpoch + 1, |committee|) == 1
    ensures OnlyTurn(c, first, turn, offset, round, committee, o)
  {
    DistinctMultiplicity(committee, o);
    var k := PlaceInSort(committee, o);
    turn := EpochTurn(c, first, offset, round, |committee|, k);
    forall e: Epoch | first <= e < first + |committee|
      ensures LeadsInEpoch(c, e, offset, round, committee, o) <==> e == turn
    {
      if LeadsInEpoch(c, e, offset, round, committee, o) {
        EpochTurnUnique(c, e, turn, offset, round, |committee|);
      }
    }
  }

  // After Boole the leaders of one slot offset rotate fairly over epochs exactly when
  // slotsPerEpoch + 1 and the committee size have no common divisor.
  lemma RotationOverEpochs(c: Chain, first: Epoch, offset: nat, round: nat, committee: seq<OperatorId>)
    requires round >= FIRST_ROUND && offset < c.slotsPerEpoch && Distinct(committee) && |committee| > 0
    requires BooleActive(c, first)
    ensures OneTurnPerCycle(c, first, offset, round, committee) <==> Gcd(c.slotsPerEpoch + 1, |committee|) == 1
  {
    if Gcd(c.slotsPerEpoch + 1, |committee|) == 1 {
      forall o | o in committee
        ensures exists turn: Epoch :: OnlyTurn(c, first, turn, offset, round, committee, o)
      {
        var turn := CoprimeOnlyTurn(c, first, offset, round, committee, o);
      }
    } else {
      var other := EpochTurnRepeats(c, first, offset, round, |committee|);
      var o := Sort(committee)[LeaderIndex(c, SlotAt(c, first, offset), round, |committee|)];
      SameElements(Sort(committee), committee, o);
      assert LeadsInEpoch(c, first, offset, round, committee, o);
      assert LeadsInEpoch(c, other, offset, round, committee, o);
    }
  }

  // With 32-slot epochs the canonical committee sizes all rotate fairly.
  lemma CanonicalCommitteesRotate(c: Chain, first: Epoch, offset: nat, round: nat, committee: seq<OperatorId>)
    requires c.slotsPerEpoch == 32 && |committee| in {4, 7, 10, 13}
    requires round >= FIRST_ROUND && offset < c.slotsPerEpoch && Distinct(committee)
    requires BooleActive(c, first)
    ensures OneTurnPerCycle(c, first, offset, round, committee)
  {
    assert Gcd(33, 4) == Gcd(4, 1) == Gcd(1, 0) == 1;
    assert Gcd(33, 7) == Gcd(7, 5) == Gcd(5, 2) == Gcd(2, 1) == Gcd(1, 0) == 1;
    assert Gcd(33, 10) == Gcd(10, 3) == Gcd(3, 1) == Gcd(1, 0) == 1;
    assert Gcd(33, 13) == Gcd(13, 7) == Gcd(7, 6) == Gcd(6, 1) == Gcd(1, 0) == 1;
    RotationOverEpochs(c, first, offset, round, committee);
  }
}
