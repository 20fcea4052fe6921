/**
 When the in-memory state agrees with the tables, decided from the events alone: after any events, from
 any state that agrees, through the two ways it can go wrong and the ways it is put right again
 (eth/src/event_processor.rs, database/src/state.rs).
 */
module Agreement {
  import opened Wrappers
  import opened OperatorIds
  import opened NetworkTables
  import opened NetworkState
  import opened EventHandlers
  import opened EventMirror
  import opened EventEffects
  import opened BlockEvents

  // ---------- what the events say ----------

  // The clusters with a wrong flag after the events, if those in `wrong` had one before.
  function Stale(env: Env, t: Tables, es: seq<Event>, wrong: set<ClusterId>): set<ClusterId>
    requires Sound(env.ok, t)
  {
    if es == [] then wrong
    else WrongAfter(env, After(env, t, es[..|es|-1]), es[|es|-1], Stale(env, t, es[..|es|-1], wrong))
  }

  // One of the events removes the operator with our key.
  predicate OwnRemoved(env: Env, t: Tables, es: seq<Event>)
    requires Sound(env.ok, t)
  {
    es != [] &&
    (OwnRemoved(env, t, es[..|es|-1]) || RemovesOwn(env.own, After(env, t, es[..|es|-1]), es[|es|-1]))
  }

  lemma {:induction false} StaleSplit(env: Env, t: Tables, es: seq<Event>, fs: seq<Event>, wrong: set<ClusterId>)
    requires Sound(env.ok, t) && NoneAborts(env, t, es)
    ensures Stale(env, t, es + fs, wrong) == Stale(env, After(env, t, es), fs, Stale(env, t, es, wrong))
    ensures OwnRemoved(env, t, es + fs) <==> OwnRemoved(env, t, es) || OwnRemoved(env, After(env, t, es), fs)
    decreases |fs|
  {
    hide Sound, WrongAfter, RemovesOwn, After, NoneAborts;
    if fs == [] {
      assert es + fs == es;
    } else {
      StaleSplit(env, t, es, fs[..|fs|-1], wrong);
      assert (es + fs)[..|es + fs|-1] == es + fs[..|fs|-1];
      AfterSplit(env, t, es, fs[..|fs|-1]);
    }
  }

  // ---------- what the state then is ----------

  // The state names an operator as ours that is gone, and ids are never given out again.
  ghost predicate Lost(own: PubkeyOrId, t: Tables, st: State) {
    && own.OwnKey? && st.id.Some? && t.maxOperatorId.Some?
    && st.id.value <= t.maxOperatorId.value && !Active(t.operators, st.id.value)
  }

  // The state agrees with the tables but for the flags of `wrong` and, if lost, for who we are.
  ghost predicate Stands(own: PubkeyOrId, t: Tables, st: State, wrong: set<ClusterId>, lost: bool)
    requires KeysUnique(t.operators)
  {
    && BaseAgrees(t, st) && Wrong(t, st) == wrong
    && if lost then Lost(own, t, st) else OwnAgrees(own, t, st)
  }

  lemma LostDisagrees(own: PubkeyOrId, t: Tables, st: State)
    requires KeysUnique(t.operators) && Lost(own, t, st)
    ensures !OwnAgrees(own, t, st)
  {
  }

  lemma StandsExactly(own: PubkeyOrId, t: Tables, st: State, wrong: set<ClusterId>, lost: bool)
    requires KeysUnique(t.operators) && Stands(own, t, st, wrong, lost)
    ensures Agrees(own, t, st) <==> wrong == {} && !lost
  {
    hide CoreAgrees, ClustersAgree, OwnAgrees, WrongFlags;
    if lost {
      LostDisagrees(own, t, st);
    }
  }

  // An operator that is gone stays gone.
  lemma StaysGone(env: Env, published: Option<OperatorId>, t: Tables, e: Event, id: OperatorId)
    requires Sound(env.ok, t) && !AbortCause(t, e) && id <= t.maxOperatorId.value && !Active(t.operators, id)
    ensures var t' := Handle(env, published, t, e).t;
            !Active(t'.operators, id) && t'.maxOperatorId.Some? && id <= t'.maxOperatorId.value
  {
    hide ClustersSound, MembersSound, SharesSound, Handle, AbortCause;
    var t' := Handle(env, published, t, e).t;
    EventIds(env, published, t, e);
    if Active(t'.operators, id) {
      EventOperators(env, published, t, e, id, t'.operators[id].key, t'.operators[id].owner);
    }
  }

  lemma LostKept(env: Env, published: Option<OperatorId>, t: Tables, st: State, e: Event)
    requires Sound(env.ok, t) && !AbortCause(t, e) && Lost(env.own, t, st)
    requires ApplyAll(st, Handle(env, published, t, e).us).Some?
    ensures var h := Handle(env, published, t, e); Lost(env.own, h.t, ApplyAll(st, h.us).value)
  {
    hide ClustersSound, MembersSound, SharesSound, Handle, AbortCause, ApplyAll;
    StaysGone(env, published, t, e, st.id.value);
    IdsKept(st, Handle(env, published, t, e).us);
  }

  lemma BecomesLost(env: Env, published: Option<OperatorId>, t: Tables, st: State, e: Event)
    requires Sound(env.ok, t) && RemovesOwn(env.own, t, e) && st.id == OwnId(env.own, t.operators)
    requires ApplyAll(st, Handle(env, published, t, e).us).Some?
    ensures var h := Handle(env, published, t, e); Lost(env.own, h.t, ApplyAll(st, h.us).value)
  {
    hide ClustersSound, MembersSound, SharesSound, ApplyAll, IsMember;
    IdsKept(st, Handle(env, published, t, e).us);
  }

  lemma EventStands(
    env: Env, published: Option<OperatorId>, t: Tables, st: State, e: Event, wrong: set<ClusterId>, lost: bool)
    requires Sound(env.ok, t) && Stands(env.own, t, st, wrong, lost) && !AbortCause(t, e)
    requires published.Some? ==> st.id == published
    ensures var h := Handle(env, published, t, e);
            && ApplyAll(st, h.us).Some? && KeysUnique(h.t.operators)
            && Stands(env.own, h.t, ApplyAll(st, h.us).value, WrongAfter(env, t, e, wrong),
                 lost || RemovesOwn(env.own, t, e))
  {
    hide BaseAgrees, ClustersSound, MembersSound, SharesSound, HoldingsAgree, Handle, AbortCause, ApplyAll, WrongAfter,
         Wrong;
    hide RemovesOwn, Lost;
    EventFollows(env, published, t, st, e);
    if lost {
      LostKept(env, published, t, st, e);
    } else if RemovesOwn(env.own, t, e) {
      BecomesLost(env, published, t, st, e);
    }
  }

  // Through all the events of a block, the flags that are wrong are the ones the events say, and our
  // identity is right until the operator with our key is removed, and never again after that.
  lemma {:induction false} RunStands(env: Env, t: Tables, st: State, es: seq<Event>, wrong: set<ClusterId>, lost: bool)
    requires Sound(env.ok, t) && Stands(env.own, t, st, wrong, lost) && NoneAborts(env, t, es)
    ensures Replayed(env, t, st, es).Some? && KeysUnique(After(env, t, es).operators)
    ensures Stands(env.own, After(env, t, es), Replayed(env, t, st, es).value, Stale(env, t, es, wrong),
              lost || OwnRemoved(env, t, es))
    decreases |es|
  {
    hide Stands, ClustersSound, MembersSound, SharesSound, Handle, RunEvents, AbortCause, ApplyAll, WrongAfter,
         RemovesOwn;
    if es == [] {
      NothingReplayed(env, t, st);
      RunTables(env, None, st.id, t, es);
    } else {
      hide Replayed;
      var before, e := es[..|es|-1], es[|es|-1];
      AfterLast(env, t, es);
      RunTables(env, None, st.id, t, es);
      RunTables(env, None, st.id, t, before);
      RunStands(env, t, st, before, wrong, lost);
      ReplayLast(env, t, st, es);
      LastEvent(env, st.id, t, es);
      EventStands(env, st.id, After(env, t, before), Replayed(env, t, st, before).value, e,
                  Stale(env, t, before, wrong), lost || OwnRemoved(env, t, before));
    }
  }

  // The update gives us a share to hold.
  predicate Takes(u: StateUpdate) {
    u.InsertValidatorUpdate? && u.ownShare.Some?
  }

  lemma OneNotTaken(st: State, u: StateUpdate)
    requires Apply(st, u).Some? && !Takes(u)
    ensures forall v | v in Apply(st, u).value.shares.primary :: v in st.shares.primary
    ensures Apply(st, u).value.ownClusters <= st.ownClusters
  {
  }

  lemma {:induction false} NothingTaken(st: State, us: seq<StateUpdate>)
    requires ApplyAll(st, us).Some? && forall u | u in us :: !Takes(u)
    ensures forall v | v in ApplyAll(st, us).value.shares.primary :: v in st.shares.primary
    ensures ApplyAll(st, us).value.ownClusters <= st.ownClusters
    decreases |us|
  {
    hide Apply, Takes;
    if us != [] {
      assert us[|us|-1] in us;
      NothingTaken(st, us[..|us|-1]);
      OneNotTaken(ApplyAll(st, us[..|us|-1]).value, us[|us|-1]);
    }
  }

  lemma LostTakes(env: Env, t: Tables, st: State, e: Event)
    requires KeysUnique(t.operators) && Lost(env.own, t, st)
    ensures forall u | u in Handle(env, st.id, t, e).us :: !Takes(u)
  {
    if e.ValidatorAdded? && e.shares.Some? && |e.shares.value.keys| == |e.operators| {
      ShareRowsKeys(Cid(e.owner, e.operators), e.operators, e.shares.value.keys);
    }
  }

  // Once our operator is gone the node takes on no share any more until it restarts, not even when an
  // operator with its key is registered again; it only gives up the ones it has.
  lemma {:induction false} LostTakesNothing(env: Env, t: Tables, st: State, es: seq<Event>, wrong: set<ClusterId>)
    requires Sound(env.ok, t) && Stands(env.own, t, st, wrong, true) && NoneAborts(env, t, es)
    ensures Replayed(env, t, st, es).Some?
    ensures forall v | v in Replayed(env, t, st, es).value.shares.primary :: v in st.shares.primary
    ensures Replayed(env, t, st, es).value.ownClusters <= st.ownClusters
    decreases |es|
  {
    hide BaseAgrees, ClustersSound, MembersSound, SharesSound, Handle, RunEvents, AbortCause, ApplyAll, Wrong,
         Takes;
    if es == [] {
      NothingReplayed(env, t, st);
    } else {
      hide Replayed;
      var before, e := es[..|es|-1], es[|es|-1];
      AfterLast(env, t, es);
      RunTables(env, None, st.id, t, es);
      RunTables(env, None, st.id, t, before);
      LostTakesNothing(env, t, st, before, wrong);
      RunStands(env, t, st, before, wrong, true);
      RunStands(env, t, st, es, wrong, true);
      ReplayLast(env, t, st, es);
      LastEvent(env, st.id, t, es);
      var st1 := Replayed(env, t, st, before).value;
      LostTakes(env, After(env, t, before), st1, e);
      NothingTaken(st1, Handle(env, st.id, After(env, t, before), e).us);
    }
  }

  ghost predicate AgreesAfter(env: Env, t: Tables, st: State, es: seq<Event>)
    requires Sound(env.ok, t)
  {
    var now := Replayed(env, t, st, es);
    now.Some? && Agrees(env.own, After(env, t, es), now.value)
  }

  // ---------- the events spelled out ----------

  // A validator that passes every check joins the cluster `c`, which is liquidated.
  predicate JoinsLiquidated(env: Env, t: Tables, e: Event, c: ClusterId) {
    Joins(env, t, e) && Cid(e.owner, e.operators) == c && IsLiquidated(t, c)
  }

  predicate Settles(e: Event, c: ClusterId) {
    SetsStatus(e, c, true) || SetsStatus(e, c, false)
  }

  predicate JoinsAt(env: Env, t: Tables, es: seq<Event>, k: nat, c: ClusterId)
    requires Sound(env.ok, t)
  {
    k < |es| && JoinsLiquidated(env, After(env, t, es[..k]), es[k], c)
  }

  // The event at `j` sets the status of `c`, or `c` is not there after it.
  predicate ClearsAt(env: Env, t: Tables, es: seq<Event>, j: nat, c: ClusterId)
    requires Sound(env.ok, t)
  {
    j < |es| && (Settles(es[j], c) || c !in After(env, t, es[..j + 1]).clusters)
  }

  predicate OwnRemovedAt(env: Env, t: Tables, es: seq<Event>, k: nat)
    requires Sound(env.ok, t)
  {
    k < |es| && RemovesOwn(env.own, After(env, t, es[..k]), es[k])
  }

  // No event removes the operator with our key, and every join of a liquidated cluster is followed by
  // a status event for that cluster or by its deletion.
  ghost predicate Consistent(env: Env, t: Tables, es: seq<Event>)
    requires Sound(env.ok, t)
  {
    && (forall k: nat :: !OwnRemovedAt(env, t, es, k))
    && (forall k: nat, c | JoinsAt(env, t, es, k, c) :: exists j: nat :: k < j && ClearsAt(env, t, es, j, c))
  }

  lemma {:induction false} OwnRemovedMeaning(env: Env, t: Tables, es: seq<Event>)
    requires Sound(env.ok, t)
    ensures OwnRemoved(env, t, es) <==> exists k: nat :: OwnRemovedAt(env, t, es, k)
    decreases |es|
  {
    hide Sound, RemovesOwn, After;
    if es != [] {
      var before, n := es[..|es|-1], |es| - 1;
      OwnRemovedMeaning(env, t, before);
      forall k: nat
        ensures OwnRemovedAt(env, t, es, k)
                <==> OwnRemovedAt(env, t, before, k) || (k == n && RemovesOwn(env.own, After(env, t, before), es[n]))
      {
        if k < n {
          assert before[..k] == es[..k];
        }
      }
      if OwnRemoved(env, t, before) {
        var k: nat :| OwnRemovedAt(env, t, before, k);
        assert OwnRemovedAt(env, t, es, k);
      }
      if RemovesOwn(env.own, After(env, t, before), es[n]) {
        assert OwnRemovedAt(env, t, es, n);
      }
    }
  }

  // Only liquidated clusters have a stale flag: the state always takes them for active.
  lemma {:induction false} StaleIsLiquidated(env: Env, t: Tables, es: seq<Event>, c: ClusterId)
    requires Sound(env.ok, t) && NoneAborts(env, t, es)
    ensures c in Stale(env, t, es, {}) ==> IsLiquidated(After(env, t, es), c)
    decreases |es|
  {
    hide ClustersSound, MembersSound, SharesSound, After, NoneAborts, Handle, Accepted;
    if es != [] {
      var before, e := es[..|es|-1], es[|es|-1];
      AfterLast(env, t, es);
      StaleIsLiquidated(env, t, before, c);
      HandleSound(env, None, After(env, t, before), e);
      EventLiquidation(env, None, After(env, t, before), e, c);
      StaleStep(env, After(env, t, before), e, Stale(env, t, before, {}), c);
      if c in After(env, t, before).clusters && !e.ValidatorRemoved? {
        StoredClusters(env, After(env, t, before), e, c);
      }
    }
  }

  // What an event does to one cluster's flag, as long as only liquidated clusters have a wrong one.
  lemma StaleStep(env: Env, t: Tables, e: Event, wrong: set<ClusterId>, c: ClusterId)
    requires Sound(env.ok, t) && !AbortCause(t, e) && (c in wrong ==> IsLiquidated(t, c))
    ensures c in WrongAfter(env, t, e, wrong)
            <==> || JoinsLiquidated(env, t, e, c)
                 || (c in wrong && !Settles(e, c) && c in Handle(env, None, t, e).t.clusters)
  {
    hide Sound, Accepted, HandleOperatorAdded, HandleOperatorRemoved, HandleValidatorAdded, HandleValidatorRemoved;
    if c in t.clusters && !e.ValidatorRemoved? {
      StoredClusters(env, t, e, c);
    }
  }

  // Only the removal of a validator deletes a cluster.
  lemma StoredClusters(env: Env, t: Tables, e: Event, c: ClusterId)
    requires Sound(env.ok, t) && c in t.clusters && !e.ValidatorRemoved?
    ensures c in Handle(env, None, t, e).t.clusters
  {
    hide Accepted, ShareRows, IsMember, KeyTaken, Sound;
  }

  ghost predicate LeftStale(env: Env, t: Tables, es: seq<Event>, k: nat, c: ClusterId)
    requires Sound(env.ok, t)
  {
    JoinsAt(env, t, es, k, c) && forall j: nat | k < j :: !ClearsAt(env, t, es, j, c)
  }

  lemma AtPrefix(env: Env, t: Tables, es: seq<Event>, n: nat, k: nat, c: ClusterId)
    requires Sound(env.ok, t) && n <= |es|
    ensures JoinsAt(env, t, es[..n], k, c) <==> k < n && JoinsAt(env, t, es, k, c)
    ensures ClearsAt(env, t, es[..n], k, c) <==> k < n && ClearsAt(env, t, es, k, c)
    ensures OwnRemovedAt(env, t, es[..n], k) <==> k < n && OwnRemovedAt(env, t, es, k)
  {
    hide Sound, After, JoinsLiquidated, Settles, RemovesOwn;
    if k < n {
      assert es[..n][..k] == es[..k] && es[..n][..k + 1] == es[..k + 1];
    }
  }

  lemma LeftStaleStep(env: Env, t: Tables, es: seq<Event>, k: nat, c: ClusterId)
    requires Sound(env.ok, t) && es != []
    ensures var n := |es| - 1;
            LeftStale(env, t, es, k, c)
            <==> if k == n then JoinsAt(env, t, es, n, c)
                 else LeftStale(env, t, es[..n], k, c) && !ClearsAt(env, t, es, n, c)
  {
    hide Sound, JoinsAt, ClearsAt;
    var n := |es| - 1;
    AtPrefix(env, t, es, n, k, c);
    forall j: nat
      ensures ClearsAt(env, t, es[..n], j, c) <==> j < n && ClearsAt(env, t, es, j, c)
      ensures ClearsAt(env, t, es, j, c) || JoinsAt(env, t, es, j, c) ==> j <= n
    {
      AtPrefix(env, t, es, n, j, c);
      AtPrefix(env, t, es, |es|, j, c);
      assert es[..|es|] == es;
    }
  }

  // A flag is stale at the end exactly when some join left it so.
  lemma {:induction false} StaleMeaning(env: Env, t: Tables, es: seq<Event>, c: ClusterId)
    requires Sound(env.ok, t) && NoneAborts(env, t, es)
    ensures c in Stale(env, t, es, {}) <==> exists k: nat :: LeftStale(env, t, es, k, c)
    decreases |es|
  {
    hide Sound, After, NoneAborts, JoinsLiquidated, Settles, WrongAfter, Handle;
    if es != [] {
      hide LeftStale;
      var n := |es| - 1;
      AfterLast(env, t, es);
      StaleMeaning(env, t, es[..n], c);
      StaleIsLiquidated(env, t, es[..n], c);
      StaleStep(env, After(env, t, es[..n]), es[n], Stale(env, t, es[..n], {}), c);
      assert es[..n + 1] == es;
      if c in Stale(env, t, es[..n], {}) {
        var k: nat :| LeftStale(env, t, es[..n], k, c);
        LeftStaleStep(env, t, es, k, c);
        LeftIsBefore(env, t, es[..n], k, c);
      }
      LeftStaleStep(env, t, es, n, c);
      forall k: nat | LeftStale(env, t, es, k, c)
        ensures c in Stale(env, t, es, {})
      {
        LeftStaleStep(env, t, es, k, c);
      }
    }
  }

  lemma LeftIsBefore(env: Env, t: Tables, es: seq<Event>, k: nat, c: ClusterId)
    requires Sound(env.ok, t) && LeftStale(env, t, es, k, c)
    ensures k < |es|
  {
  }

  lemma ConsistentMeaning(env: Env, t: Tables, es: seq<Event>)
    requires Sound(env.ok, t) && NoneAborts(env, t, es)
    ensures Consistent(env, t, es) <==> Stale(env, t, es, {}) == {} && !OwnRemoved(env, t, es)
  {
    hide Sound, NoneAborts, JoinsAt, ClearsAt, OwnRemovedAt, OwnRemoved, Stale;
    OwnRemovedMeaning(env, t, es);
    forall c
      ensures c in Stale(env, t, es, {}) <==> exists k: nat :: LeftStale(env, t, es, k, c)
    {
      StaleMeaning(env, t, es, c);
    }
    if !Consistent(env, t, es) && !OwnRemoved(env, t, es) {
      var k: nat, c :| JoinsAt(env, t, es, k, c) && !exists j: nat :: k < j && ClearsAt(env, t, es, j, c);
      assert LeftStale(env, t, es, k, c) && c in Stale(env, t, es, {});
    }
    if Stale(env, t, es, {}) != {} {
      var c :| c in Stale(env, t, es, {});
      var k: nat :| LeftStale(env, t, es, k, c);
    }
  }

  // From a state that agrees, the state after the events agrees exactly when they are consistent.
  lemma AgreementExactly(env: Env, t: Tables, st: State, es: seq<Event>)
    requires Sound(env.ok, t) && Agrees(env.own, t, st) && NoneAborts(env, t, es)
    ensures AgreesAfter(env, t, st, es) <==> Consistent(env, t, es)
  {
    hide Sound, CoreAgrees, ClustersAgree, Wrong, OwnAgrees, Stale, OwnRemoved, Consistent, After, NoneAborts, Replayed;
    RunStands(env, t, st, es, {}, false);
    StandsExactly(env.own, After(env, t, es), Replayed(env, t, st, es).value, Stale(env, t, es, {}),
      OwnRemoved(env, t, es));
    ConsistentMeaning(env, t, es);
  }

  lemma AfterOneMore(env: Env, t: Tables, es: seq<Event>, e: Event)
    requires Sound(env.ok, t) && NoneAborts(env, t, es) && !AbortCause(After(env, t, es), e)
    ensures var t1 := After(env, t, es);
            && NoneAborts(env, t, es + [e]) && After(env, t, es + [e]) == Handle(env, None, t1, e).t
            && Stale(env, t, es + [e], {}) == WrongAfter(env, t1, e, Stale(env, t, es, {}))
            && (OwnRemoved(env, t, es + [e]) <==> OwnRemoved(env, t, es) || RemovesOwn(env.own, t1, e))
  {
    hide ClustersSound, MembersSound, SharesSound, Handle, AbortCause, WrongAfter, RemovesOwn;
    HandleSound(env, None, After(env, t, es), e);
    assert (es + [e])[..|es|] == es;
  }

  // A join of a liquidated cluster takes the state out of agreement, and the cluster's next status
  // event brings it back.
  lemma StatusRepairs(env: Env, t: Tables, st: State, es: seq<Event>, join: Event, status: Event, c: ClusterId)
    requires Sound(env.ok, t) && Agrees(env.own, t, st) && NoneAborts(env, t, es) && Consistent(env, t, es)
    requires JoinsLiquidated(env, After(env, t, es), join, c) && !AbortCause(After(env, t, es), join)
    requires Settles(status, c)
    ensures NoneAborts(env, t, es + [join]) && NoneAborts(env, t, es + [join] + [status])
    ensures AgreesAfter(env, t, st, es) && !AgreesAfter(env, t, st, es + [join])
    ensures AgreesAfter(env, t, st, es + [join] + [status])
  {
    hide Sound, Agrees, AgreesAfter, Consistent, After, NoneAborts, Handle, Accepted, Stale, OwnRemoved;
    AgreementExactly(env, t, st, es);
    ConsistentMeaning(env, t, es);
    AfterOneMore(env, t, es, join);
    AgreementExactly(env, t, st, es + [join]);
    ConsistentMeaning(env, t, es + [join]);
    AfterOneMore(env, t, es + [join], status);
    AgreementExactly(env, t, st, es + [join] + [status]);
    ConsistentMeaning(env, t, es + [join] + [status]);
  }

  // ---------- agreement throughout ----------

  predicate Harmful(env: Env, t: Tables, e: Event) {
    RemovesOwn(env.own, t, e) || (Joins(env, t, e) && JoinsLiquidated(env, t, e, Cid(e.owner, e.operators)))
  }

  // No event, met where the ones before it have led, is harmful.
  ghost predicate NoneHarmful(env: Env, t: Tables, es: seq<Event>)
    requires Sound(env.ok, t)
  {
    forall k: nat | k < |es| :: !Harmful(env, After(env, t, es[..k]), es[k])
  }

  ghost predicate AlwaysAgrees(env: Env, t: Tables, st: State, es: seq<Event>)
    requires Sound(env.ok, t)
  {
    forall k: nat | k <= |es| :: AgreesAfter(env, t, st, es[..k])
  }

  lemma HarmlessIsConsistent(env: Env, t: Tables, es: seq<Event>, n: nat)
    requires Sound(env.ok, t) && NoneHarmful(env, t, es) && n <= |es|
    ensures Consistent(env, t, es[..n])
  {
    hide Sound, After, Joins, RemovesOwn, IsLiquidated;
    forall k: nat
      ensures !OwnRemovedAt(env, t, es[..n], k)
    {
      AtPrefix(env, t, es, n, k, ClusterId(0, multiset{}));
    }
    forall k: nat, c
      ensures !JoinsAt(env, t, es[..n], k, c)
    {
      AtPrefix(env, t, es, n, k, c);
    }
  }

  lemma HarmIsInconsistent(env: Env, t: Tables, es: seq<Event>, n: nat)
    requires Sound(env.ok, t) && n < |es| && Harmful(env, After(env, t, es[..n]), es[n])
    ensures !Consistent(env, t, es[..n + 1])
  {
    hide Sound, After, RemovesOwn, IsLiquidated, Accepted;
    var e := es[n];
    if RemovesOwn(env.own, After(env, t, es[..n]), e) {
      AtPrefix(env, t, es, n + 1, n, ClusterId(0, multiset{}));
      assert OwnRemovedAt(env, t, es[..n + 1], n);
    } else {
      var c := Cid(e.owner, e.operators);
      AtPrefix(env, t, es, n + 1, n, c);
      assert JoinsAt(env, t, es[..n + 1], n, c);
    }
  }

  // The state agrees after every single event exactly when none of them is harmful.
  lemma NeverDisagreesExactly(env: Env, t: Tables, st: State, es: seq<Event>)
    requires Sound(env.ok, t) && Agrees(env.own, t, st) && NoneAborts(env, t, es)
    ensures AlwaysAgrees(env, t, st, es) <==> NoneHarmful(env, t, es)
  {
    hide Sound, Agrees, NoneAborts, AgreesAfter, Consistent, Harmful, After;
    forall k: nat | k <= |es|
      ensures AgreesAfter(env, t, st, es[..k]) <==> Consistent(env, t, es[..k])
      ensures NoneHarmful(env, t, es) ==> Consistent(env, t, es[..k])
    {
      PrefixRuns(env, t, es, k);
      AgreementExactly(env, t, st, es[..k]);
      if NoneHarmful(env, t, es) {
        HarmlessIsConsistent(env, t, es, k);
      }
    }
    if !NoneHarmful(env, t, es) {
      var k: nat :| k < |es| && Harmful(env, After(env, t, es[..k]), es[k]);
      HarmIsInconsistent(env, t, es, k);
      assert !AgreesAfter(env, t, st, es[..k + 1]);
    }
  }
}
