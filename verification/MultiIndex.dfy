/**
 A map with one primary and three further keys per value (database/src/multi_index.rs). Each further
 key either identifies one primary key or is shared by several.
 */
module MultiIndex {
  import opened Wrappers

  // ---------- one index ----------

  datatype Index<K(==), P(==)> = Unique(one: map<K, P>) | Shared(pairs: set<(K, P)>)
  {
    predicate Points(k: K, p: P) {
      match this
      case Unique(one) => k in one && one[k] == p
      case Shared(pairs) => (k, p) in pairs
    }

    function Link(k: K, p: P): Index<K, P> {
      match this
      case Unique(one) => Unique(one[k := p])
      case Shared(pairs) => Shared(pairs + {(k, p)})
    }

    function Unlink(p: P): Index<K, P> {
      match this
      case Unique(one) => Unique(one - set k | k in one && one[k] == p)
      case Shared(pairs) => Shared(set kp | kp in pairs && kp.1 != p)
    }
  }

  function EmptyIndex<K(==), P(==)>(unique: bool): Index<K, P> {
    if unique then Unique(map[]) else Shared({})
  }

  // ---------- the whole map as a value ----------

  datatype MultiMap<K1, K2, K3, K4, V> = MultiMap(
    primary: map<K1, V>, second: Index<K2, K1>, third: Index<K3, K1>, fourth: Index<K4, K1>)
  {
    function Insert(k1: K1, k2: K2, k3: K3, k4: K4, v: V): MultiMap<K1, K2, K3, K4, V> {
      MultiMap(primary[k1 := v], second.Link(k2, k1), third.Link(k3, k1), fourth.Link(k4, k1))
    }

    function Remove(k1: K1): MultiMap<K1, K2, K3, K4, V> {
      if k1 !in primary then this
      else MultiMap(primary - {k1}, second.Unlink(k1), third.Unlink(k1), fourth.Unlink(k1))
    }

    function Update(k1: K1, v: V): MultiMap<K1, K2, K3, K4, V> {
      if k1 !in primary then this else this.(primary := primary[k1 := v])
    }

    // Changes the values of these entries, as far as there are any, and no index.
    ghost function Change(keys: set<K1>, f: V -> V): MultiMap<K1, K2, K3, K4, V> {
      this.(primary := Modified(primary, keys * primary.Keys, f))
    }

    ghost function ModifyThird(k3: K3, f: V -> V): MultiMap<K1, K2, K3, K4, V> {
      Change((set k1 | k1 in primary && third.Points(k3, k1)), f)
    }
  }

  // `m` with `f` applied to the values of the given keys.
  ghost function Modified<K, V>(m: map<K, V>, keys: set<K>, f: V -> V): (r: map<K, V>)
    requires keys <= m.Keys
    ensures r.Keys == m.Keys && forall k | k in m :: r[k] == if k in keys then f(m[k]) else m[k]
  {
    if keys == {} then m
    else
      var k :| k in keys;
      Modified(m, keys - {k}, f)[k := f(m[k])]
  }

  function EmptyMultiMap<K1, K2, K3, K4, V>(unique2: bool, unique3: bool, unique4: bool): MultiMap<K1, K2, K3, K4, V> {
    MultiMap(map[], EmptyIndex(unique2), EmptyIndex(unique3), EmptyIndex(unique4))
  }

  // ---------- what an index says about the history of its map ----------

  datatype IndexOp<K, P> = Linked(k: K, p: P) | Unlinked(p: P) | Skipped

  function Rebuild<K, P>(unique: bool, h: seq<IndexOp<K, P>>): Index<K, P> {
    if h == [] then EmptyIndex(unique)
    else
      var ix := Rebuild(unique, h[..|h|-1]);
      match h[|h|-1]
      case Linked(k, p) => ix.Link(k, p)
      case Unlinked(p) => ix.Unlink(p)
      case Skipped => ix
  }

  // `p` was linked to `k` at position `i` and has not been unlinked since.
  ghost predicate LinkedAt<K, P>(h: seq<IndexOp<K, P>>, k: K, p: P, i: nat) {
    i < |h| && h[i] == Linked(k, p) && forall j :: i < j < |h| ==> h[j] != Unlinked(p)
  }

  ghost predicate LinkedSince<K, P>(h: seq<IndexOp<K, P>>, k: K, p: P) {
    exists i: nat :: LinkedAt(h, k, p, i)
  }

  // ... and nothing else has been linked to `k` since either.
  ghost predicate LastLinked<K, P>(h: seq<IndexOp<K, P>>, k: K, p: P) {
    exists i: nat :: LinkedAt(h, k, p, i) && forall j :: i < j < |h| ==> !(h[j].Linked? && h[j].k == k)
  }

  lemma LinkedAtStep<K, P>(h: seq<IndexOp<K, P>>, k: K, p: P, i: nat)
    requires h != []
    ensures LinkedAt(h, k, p, i) <==>
            if i == |h| - 1 then h[i] == Linked(k, p) else LinkedAt(h[..|h|-1], k, p, i) && h[|h|-1] != Unlinked(p)
  {
  }

  lemma LinkedSinceStep<K, P>(h: seq<IndexOp<K, P>>, k: K, p: P)
    requires h != []
    ensures LinkedSince(h, k, p) <==>
            h[|h|-1] == Linked(k, p) || (LinkedSince(h[..|h|-1], k, p) && h[|h|-1] != Unlinked(p))
  {
    var before := h[..|h|-1];
    if i: nat :| LinkedAt(h, k, p, i) {
      LinkedAtStep(h, k, p, i);
    }
    if h[|h|-1] == Linked(k, p) {
      assert LinkedAt(h, k, p, |h| - 1);
    } else if h[|h|-1] != Unlinked(p) {
      if i: nat :| LinkedAt(before, k, p, i) {
        LinkedAtStep(h, k, p, i);
      }
    }
  }

  // A shared key finds exactly the primaries linked to it since their last removal.
  lemma {:induction false} SharedLookup<K, P>(h: seq<IndexOp<K, P>>, k: K, p: P)
    ensures Rebuild(false, h).Shared? && (Rebuild(false, h).Points(k, p) <==> LinkedSince(h, k, p))
    decreases |h|
  {
    if h != [] {
      SharedLookup(h[..|h|-1], k, p);
      LinkedSinceStep(h, k, p);
    }
  }

  lemma LastLinkedStep<K, P>(h: seq<IndexOp<K, P>>, k: K, p: P)
    requires h != []
    ensures var e := h[|h|-1];
            LastLinked(h, k, p) <==>
            e == Linked(k, p) || (LastLinked(h[..|h|-1], k, p) && e != Unlinked(p) && !(e.Linked? && e.k == k))
  {
    var before := h[..|h|-1];
    if LastLinked(h, k, p) {
      var i: nat :| LinkedAt(h, k, p, i) && forall j :: i < j < |h| ==> !(h[j].Linked? && h[j].k == k);
      LinkedAtStep(h, k, p, i);
      if i < |h| - 1 {
        assert LinkedAt(before, k, p, i);
        assert forall j :: i < j < |before| ==> before[j] == h[j];
      }
    }
    if h[|h|-1] == Linked(k, p) {
      assert LinkedAt(h, k, p, |h| - 1);
    } else if LastLinked(before, k, p) && h[|h|-1] != Unlinked(p) && !(h[|h|-1].Linked? && h[|h|-1].k == k) {
      var i: nat :|
        && LinkedAt(before, k, p, i)
        && forall j :: i < j < |before| ==> !(before[j].Linked? && before[j].k == k);
      LinkedAtStep(h, k, p, i);
      assert forall j :: i < j < |before| ==> before[j] == h[j];
    }
  }

  // A unique key finds the last primary linked to it, if that one has not been removed since.
  lemma {:induction false} UniqueLookup<K, P>(h: seq<IndexOp<K, P>>, k: K, p: P)
    ensures Rebuild(true, h).Unique? && (Rebuild(true, h).Points(k, p) <==> LastLinked(h, k, p))
    decreases |h|
  {
    if h != [] {
      UniqueLookup(h[..|h|-1], k, p);
      LastLinkedStep(h, k, p);
    }
  }

  // ---------- the whole map against its history ----------

  // What can happen to a map. Values are changed in place through any of the keys; the entries found
  // that way are listed by their primaries.
  datatype Op<K1, K2, K3, K4, !V> =
    | Inserted(k1: K1, k2: K2, k3: K3, k4: K4, v: V)
    | Removed(k1: K1)
    | Updated(k1: K1, v: V)
    | Changed(keys: set<K1>, f: V -> V)
  {
    function Second(): IndexOp<K2, K1> {
      match this case Inserted(k1, k2, _, _, _) => Linked(k2, k1) case Removed(k1) => Unlinked(k1) case _ => Skipped
    }

    function Third(): IndexOp<K3, K1> {
      match this case Inserted(k1, _, k3, _, _) => Linked(k3, k1) case Removed(k1) => Unlinked(k1) case _ => Skipped
    }

    function Fourth(): IndexOp<K4, K1> {
      match this case Inserted(k1, _, _, k4, _) => Linked(k4, k1) case Removed(k1) => Unlinked(k1) case _ => Skipped
    }
  }

  ghost function Replay<K1, K2, K3, K4, V>(
    u2: bool, u3: bool, u4: bool, ops: seq<Op<K1, K2, K3, K4, V>>): MultiMap<K1, K2, K3, K4, V>
  {
    if ops == [] then EmptyMultiMap(u2, u3, u4)
    else
      var m := Replay(u2, u3, u4, ops[..|ops|-1]);
      match ops[|ops|-1]
      case Inserted(k1, k2, k3, k4, v) => m.Insert(k1, k2, k3, k4, v)
      case Removed(k1) => m.Remove(k1)
      case Updated(k1, v) => m.Update(k1, v)
      case Changed(keys, f) => m.Change(keys, f)
  }

  function Second<K1, K2, K3, K4, V>(ops: seq<Op<K1, K2, K3, K4, V>>): seq<IndexOp<K2, K1>> {
    seq(|ops|, i requires 0 <= i < |ops| => ops[i].Second())
  }

  function Third<K1, K2, K3, K4, V>(ops: seq<Op<K1, K2, K3, K4, V>>): seq<IndexOp<K3, K1>> {
    seq(|ops|, i requires 0 <= i < |ops| => ops[i].Third())
  }

  function Fourth<K1, K2, K3, K4, V>(ops: seq<Op<K1, K2, K3, K4, V>>): seq<IndexOp<K4, K1>> {
    seq(|ops|, i requires 0 <= i < |ops| => ops[i].Fourth())
  }

  // An index mentions only the given primaries.
  ghost predicate PointsInto<K(!new), P(!new)>(ix: Index<K, P>, live: set<P>) {
    forall k, p :: ix.Points(k, p) ==> p in live
  }

  lemma UnlinkAbsent<K(!new), P(!new)>(ix: Index<K, P>, live: set<P>, p: P)
    requires PointsInto(ix, live) && p !in live
    ensures ix.Unlink(p) == ix
  {
    match ix
    case Unique(one) =>
      assert forall k | k in one :: ix.Points(k, one[k]);
    case Shared(pairs) =>
      assert forall kp | kp in pairs :: ix.Points(kp.0, kp.1);
      assert ix.Unlink(p).pairs == pairs;
  }

  lemma LinkPoints<K(!new), P(!new)>(ix: Index<K, P>, live: set<P>, k: K, p: P)
    requires PointsInto(ix, live)
    ensures PointsInto(ix.Link(k, p), live + {p})
  {
    forall k', p' | ix.Link(k, p).Points(k', p')
      ensures p' in live + {p}
    {
      assert (k', p') == (k, p) || ix.Points(k', p');
    }
  }

  lemma UnlinkPoints<K(!new), P(!new)>(ix: Index<K, P>, live: set<P>, p: P)
    requires PointsInto(ix, live)
    ensures PointsInto(ix.Unlink(p), live - {p})
  {
    forall k', p' | ix.Unlink(p).Points(k', p')
      ensures p' in live - {p}
    {
      assert ix.Points(k', p');
    }
  }

  // Each index of the map is the one its own history builds, and no index points at a primary that is
  // gone.
  lemma {:induction false} IndexesFollowHistory<K1(!new), K2(!new), K3(!new), K4(!new), V>(
    u2: bool, u3: bool, u4: bool, ops: seq<Op<K1, K2, K3, K4, V>>)
    ensures var m := Replay(u2, u3, u4, ops);
            && m.second == Rebuild(u2, Second(ops)) && m.third == Rebuild(u3, Third(ops))
            && m.fourth == Rebuild(u4, Fourth(ops))
            && PointsInto(m.second, m.primary.Keys) && PointsInto(m.third, m.primary.Keys)
            && PointsInto(m.fourth, m.primary.Keys)
    decreases |ops|
  {
    if ops != [] {
      var before := ops[..|ops|-1];
      var m := Replay(u2, u3, u4, before);
      IndexesFollowHistory(u2, u3, u4, before);
      assert Second(ops)[..|ops|-1] == Second(before);
      assert Third(ops)[..|ops|-1] == Third(before);
      assert Fourth(ops)[..|ops|-1] == Fourth(before);
      match ops[|ops|-1]
      case Inserted(k1, k2, k3, k4, v) =>
        LinkPoints(m.second, m.primary.Keys, k2, k1);
        LinkPoints(m.third, m.primary.Keys, k3, k1);
        LinkPoints(m.fourth, m.primary.Keys, k4, k1);
        assert m.primary[k1 := v].Keys == m.primary.Keys + {k1};
      case Removed(k1) =>
        if k1 in m.primary {
          UnlinkPoints(m.second, m.primary.Keys, k1);
          UnlinkPoints(m.third, m.primary.Keys, k1);
          UnlinkPoints(m.fourth, m.primary.Keys, k1);
          assert (m.primary - {k1}).Keys == m.primary.Keys - {k1};
        } else {
          UnlinkAbsent(m.second, m.primary.Keys, k1);
          UnlinkAbsent(m.third, m.primary.Keys, k1);
          UnlinkAbsent(m.fourth, m.primary.Keys, k1);
        }
      case Updated(k1, v) =>
        if k1 in m.primary {
          assert m.primary[k1 := v].Keys == m.primary.Keys;
        }
      case Changed(keys, f) =>
        assert m.Change(keys, f).primary.Keys == m.primary.Keys;
    }
  }

  // The value of a key after some operations: the last one inserted or put in its place, as changed since,
  // unless the key has been removed.
  function LastValue<K1, K2, K3, K4, V>(ops: seq<Op<K1, K2, K3, K4, V>>, k: K1): Option<V> {
    if ops == [] then None
    else
      var before := LastValue(ops[..|ops|-1], k);
      match ops[|ops|-1]
      case Inserted(k1, _, _, _, v) => if k1 == k then Some(v) else before
      case Removed(k1) => if k1 == k then None else before
      case Updated(k1, v) => if k1 == k && before.Some? then Some(v) else before
      case Changed(keys, f) => if k in keys && before.Some? then Some(f(before.value)) else before
  }

  lemma {:induction false} ValuesFollowHistory<K1, K2, K3, K4, V>(
    u2: bool, u3: bool, u4: bool, ops: seq<Op<K1, K2, K3, K4, V>>, k: K1)
    ensures var m := Replay(u2, u3, u4, ops).primary;
            LastValue(ops, k) == if k in m then Some(m[k]) else None
    decreases |ops|
  {
    if ops != [] {
      ValuesFollowHistory(u2, u3, u4, ops[..|ops|-1], k);
    }
  }

  // ---------- the map as it works ----------

  // The pairs of a map from shared keys to sets of primaries.
  ghost function Pairs<K, P>(many: map<K, set<P>>): set<(K, P)> {
    set k, p | k in many && p in many[k] :: (k, p)
  }

  ghost predicate NoneEmpty<K, P>(many: map<K, set<P>>) {
    forall k | k in many :: many[k] != {}
  }

  function Added<K, P>(many: map<K, set<P>>, k: K, p: P): (r: map<K, set<P>>)
    ensures Pairs(r) == Pairs(many) + {(k, p)} && (NoneEmpty(many) ==> NoneEmpty(r))
  {
    many[k := (if k in many then many[k] else {}) + {p}]
  }

  // Takes `p` out of every set, and drops the sets that are left empty.
  method RetainWithout<K(==), P(==)>(many: map<K, set<P>>, p: P) returns (kept: map<K, set<P>>)
    ensures Shared(Pairs(kept)) == Shared(Pairs(many)).Unlink(p) && NoneEmpty(kept)
  {
    kept := many;
    var todo := many.Keys;
    while todo != {}
      invariant todo <= many.Keys && todo <= kept.Keys <= many.Keys
      invariant forall k | k in todo :: kept[k] == many[k]
      invariant forall k | k in kept && k !in todo :: kept[k] == many[k] - {p} && kept[k] != {}
      invariant forall k | k in many && k !in kept :: many[k] - {p} == {}
    {
      var k :| k in todo;
      todo := todo - {k};
      var rest := many[k] - {p};
      kept := if rest == {} then kept - {k} else kept[k := rest];
    }
    forall k, q
      ensures (k, q) in Pairs(kept) <==> (k, q) in Pairs(many) && q != p
    {
      assert k in many && q in many[k] && q != p ==> q in many[k] - {p};
    }
    assert Pairs(kept) == set kp | kp in Pairs(many) && kp.1 != p;
  }

  /** Seven maps updated in place; which of each pair is used is fixed by the uniqueness of its key. */
  class MultiIndexMap<K1(==), K2(==), K3(==), K4(==), V> {
    var primary: map<K1, V>
    var secondaryUnique: map<K2, K1>
    var secondaryMulti: map<K2, set<K1>>
    var tertiaryUnique: map<K3, K1>
    var tertiaryMulti: map<K3, set<K1>>
    var quaternaryUnique: map<K4, K1>
    var quaternaryMulti: map<K4, set<K1>>
    const unique2: bool
    const unique3: bool
    const unique4: bool

    ghost function View(): MultiMap<K1, K2, K3, K4, V>
      reads this
    {
      MultiMap(
        primary,
        if unique2 then Unique(secondaryUnique) else Shared(Pairs(secondaryMulti)),
        if unique3 then Unique(tertiaryUnique) else Shared(Pairs(tertiaryMulti)),
        if unique4 then Unique(quaternaryUnique) else Shared(Pairs(quaternaryMulti)))
    }

    // No lookup meets an empty set.
    ghost predicate Valid()
      reads this
    {
      NoneEmpty(secondaryMulti) && NoneEmpty(tertiaryMulti) && NoneEmpty(quaternaryMulti)
    }

    constructor (unique2: bool, unique3: bool, unique4: bool)
      ensures Valid() && View() == EmptyMultiMap(unique2, unique3, unique4)
      ensures this.unique2 == unique2 && this.unique3 == unique3 && this.unique4 == unique4
    {
      this.unique2, this.unique3, this.unique4 := unique2, unique3, unique4;
      primary := map[];
      secondaryUnique, secondaryMulti := map[], map[];
      tertiaryUnique, tertiaryMulti := map[], map[];
      quaternaryUnique, quaternaryMulti := map[], map[];
      new;
      assert Pairs(secondaryMulti) == {} && Pairs(tertiaryMulti) == {} && Pairs(quaternaryMulti) == {};
    }

    method InsertOrUpdate(k1: K1, k2: K2, k3: K3, k4: K4, v: V)
      requires Valid()
      modifies this
      ensures Valid() && View() == old(View()).Insert(k1, k2, k3, k4, v)
    {
      primary := primary[k1 := v];
      if unique2 {
        secondaryUnique := secondaryUnique[k2 := k1];
      } else {
        secondaryMulti := Added(secondaryMulti, k2, k1);
      }
      if unique3 {
        tertiaryUnique := tertiaryUnique[k3 := k1];
      } else {
        tertiaryMulti := Added(tertiaryMulti, k3, k1);
      }
      if unique4 {
        quaternaryUnique := quaternaryUnique[k4 := k1];
      } else {
        quaternaryMulti := Added(quaternaryMulti, k4, k1);
      }
    }

    method Remove(k1: K1) returns (removed: Option<V>)
      requires Valid()
      modifies this
      ensures Valid() && View() == old(View()).Remove(k1)
      ensures removed == if k1 in old(primary) then Some(old(primary)[k1]) else None
    {
      if k1 !in primary {
        return None;
      }
      removed := Some(primary[k1]);
      primary := primary - {k1};
      if unique2 {
        secondaryUnique := secondaryUnique - set k | k in secondaryUnique && secondaryUnique[k] == k1;
      } else {
        secondaryMulti := RetainWithout(secondaryMulti, k1);
      }
      if unique3 {
        tertiaryUnique := tertiaryUnique - set k | k in tertiaryUnique && tertiaryUnique[k] == k1;
      } else {
        tertiaryMulti := RetainWithout(tertiaryMulti, k1);
      }
      if unique4 {
        quaternaryUnique := quaternaryUnique - set k | k in quaternaryUnique && quaternaryUnique[k] == k1;
      } else {
        quaternaryMulti := RetainWithout(quaternaryMulti, k1);
      }
    }

    method Update(k1: K1, v: V) returns (previous: Option<V>)
      modifies this`primary
      ensures View() == old(View()).Update(k1, v)
      ensures previous == if k1 in old(primary) then Some(old(primary)[k1]) else None
    {
      if k1 !in primary {
        return None;
      }
      previous := Some(primary[k1]);
      primary := primary[k1 := v];
    }

    // The value a unique second key stands for.
    method GetBySecondary(k2: K2) returns (v: Option<V>)
      requires unique2
      ensures v.Some? <==> exists k1 | k1 in primary :: View().second.Points(k2, k1)
      ensures v.Some? ==> exists k1 | k1 in primary :: View().second.Points(k2, k1) && primary[k1] == v.value
    {
      if k2 !in secondaryUnique || secondaryUnique[k2] !in primary {
        return None;
      }
      assert View().second.Points(k2, secondaryUnique[k2]);
      v := Some(primary[secondaryUnique[k2]]);
    }

    // Some value under a shared second key, if there is any.
    method FirstBySecondary(k2: K2) returns (k1: Option<K1>)
      requires !unique2
      ensures k1.Some? ==> k1.value in primary && View().second.Points(k2, k1.value)
      ensures k1.None? ==> forall k | k in primary :: !View().second.Points(k2, k)
    {
      k1 := None;
      assert forall k :: View().second.Points(k2, k) <==> k2 in secondaryMulti && k in secondaryMulti[k2];
      if k2 in secondaryMulti {
        var live := set k | k in secondaryMulti[k2] && k in primary;
        if live != {} {
          var k :| k in live;
          k1 := Some(k);
        } else {
          assert forall k | k in primary :: k in secondaryMulti[k2] ==> k in live;
        }
      }
    }

    // Applies `f` in place to every value under a shared third key.
    method ModifyAllByTertiary(k3: K3, f: V -> V)
      requires !unique3
      modifies this`primary
      ensures View() == old(View()).ModifyThird(k3, f)
    {
      ghost var keys := set k1 | k1 in primary && View().third.Points(k3, k1);
      assert keys * primary.Keys == keys;
      if k3 !in tertiaryMulti {
        assert keys == {};
        return;
      }
      assert forall k1 | k1 in primary :: k1 in keys <==> k1 in tertiaryMulti[k3];
      var todo := tertiaryMulti[k3];
      while todo != {}
        invariant todo <= tertiaryMulti[k3] && primary.Keys == old(primary).Keys
        invariant forall k | k in primary ::
          primary[k] == if k in keys && k !in todo then f(old(primary)[k]) else old(primary)[k]
      {
        var k1 :| k1 in todo;
        todo := todo - {k1};
        if k1 in primary {
          primary := primary[k1 := f(primary[k1])];
        }
      }
      assert primary == Modified(old(primary), keys, f);
    }
  }
}
