/** The two ways the in-memory state comes to differ from the tables, as runs from an empty database. */
module Divergence {
  import opened Wrappers
  import opened OperatorIds
  import opened NetworkTables
  import opened NetworkState
  import opened EventHandlers
  import opened BlockEvents
  import opened Agreement
  import opened ChainRuns

  // The tables after some events from an empty database, none of which aborts or is harmful.
  ghost predicate LeadsTo(env: Env, es: seq<Event>, t: Tables) {
    && Sound(env.ok, EmptyTables) && Sound(env.ok, t)
    && After(env, EmptyTables, es) == t && NoneAborts(env, EmptyTables, es) && NoneHarmful(env, EmptyTables, es)
  }

  lemma RunsOn(env: Env, es: seq<Event>, t: Tables, e: Event)
    requires LeadsTo(env, es, t) && !AbortCause(t, e)
    ensures var t' := Handle(env, None, t, e).t;
            Sound(env.ok, t') && After(env, EmptyTables, es + [e]) == t' && NoneAborts(env, EmptyTables, es + [e])
  {
    hide Handle, Harmful, AbortCause, ClustersSound, MembersSound, SharesSound;
    HandleSound(env, None, t, e);
    assert (es + [e])[..|es|] == es;
  }

  lemma LeadsFurther(env: Env, es: seq<Event>, t: Tables, e: Event)
    requires LeadsTo(env, es, t) && !AbortCause(t, e) && !Harmful(env, t, e)
    ensures LeadsTo(env, es + [e], Handle(env, None, t, e).t)
  {
    hide Sound, Handle, Harmful, AbortCause, After, NoneAborts;
    RunsOn(env, es, t, e);
    forall k: nat | k < |es + [e]|
      ensures !Harmful(env, After(env, EmptyTables, (es + [e])[..k]), (es + [e])[k])
    {
      assert (es + [e])[..k] == es[..k];
      if k == |es| {
        assert es[..k] == es;
      }
    }
  }

  // The state agrees up to the last event, and no longer after it.
  lemma LastDiverges(env: Env, es: seq<Event>, t: Tables, e: Event)
    requires LeadsTo(env, es, t) && !AbortCause(t, e) && Harmful(env, t, e)
    ensures Sound(env.ok, EmptyTables) && NoneAborts(env, EmptyTables, es + [e])
    ensures AlwaysAgrees(env, EmptyTables, FirstState(env.own), es)
    ensures !AgreesAfter(env, EmptyTables, FirstState(env.own), es + [e])
  {
    hide Sound, Handle, Harmful, AbortCause, After, NoneAborts, Agrees, AgreesAfter, Consistent;
    var st := FirstState(env.own);
    FirstAgrees(env);
    RunsOn(env, es, t, e);
    NeverDisagreesExactly(env, EmptyTables, st, es);
    var all := es + [e];
    assert all[..|es|] == es && all[..|es| + 1] == all;
    HarmIsInconsistent(env, EmptyTables, all, |es|);
    AgreementExactly(env, EmptyTables, st, all);
  }

  lemma FirstAgrees(env: Env)
    ensures Sound(env.ok, EmptyTables) && Agrees(env.own, EmptyTables, FirstState(env.own))
  {
    FirstOnFold(env, n => []);
  }

  lemma EmptyLeads(env: Env)
    ensures LeadsTo(env, [], EmptyTables)
  {
    EmptySound(env.ok);
  }

  // Registering the operator with our key and removing it again: the state still names operator 1 as
  // ours, and the tables do not.
  lemma RemovalDiverges(env: Env, owner: Address) returns (es: seq<Event>, e: Event)
    requires env.own.OwnKey?
    ensures e == OperatorRemoved(1) && Sound(env.ok, EmptyTables)
    ensures NoneAborts(env, EmptyTables, es + [e]) && AlwaysAgrees(env, EmptyTables, FirstState(env.own), es)
    ensures !AgreesAfter(env, EmptyTables, FirstState(env.own), es + [e])
  {
    var added := OperatorAdded(1, owner, Some(env.own.key));
    es, e := [added], OperatorRemoved(1);
    EmptyLeads(env);
    LeadsFurther(env, [], EmptyTables, added);
    assert [] + [added] == es;
    LastDiverges(env, es, Handle(env, None, EmptyTables, added).t, e);
  }

  // ---------- joining a liquidated cluster ----------

  // The operators are 1 to `n`, the i-th with key i.
  ghost predicate Numbered(t: Tables, n: nat) {
    && t.maxOperatorId == Some(n) && t.validators == map[] && t.owners == map[]
    && (forall i: OperatorId :: Active(t.operators, i) <==> 1 <= i <= n)
    && forall i | i in t.operators :: 1 <= i <= n && t.operators[i].key == i
  }

  lemma AddOperator(env: Env, t: Tables, n: nat)
    requires Numbered(t, n) && KeysUnique(t.operators)
    ensures var e := OperatorAdded(n + 1, 0, Some(n + 1));
            Numbered(Handle(env, None, t, e).t, n + 1) && !AbortCause(t, e) && !Harmful(env, t, e)
  {
    assert !KeyTaken(t.operators, n + 1) && !Active(t.operators, n + 1);
    var ops' := Handle(env, None, t, OperatorAdded(n + 1, 0, Some(n + 1))).t.operators;
    forall i: OperatorId
      ensures Active(ops', i) <==> 1 <= i <= n + 1
    {
      assert i != n + 1 ==> (Active(ops', i) <==> Active(t.operators, i));
    }
  }

  // Four operators with keys of their own, and nothing else yet.
  lemma FourOperators(env: Env) returns (es: seq<Event>, t: Tables)
    ensures LeadsTo(env, es, t) && Numbered(t, 4)
  {
    EmptyLeads(env);
    es, t := [], EmptyTables;
    for n: nat := 0 to 4
      invariant LeadsTo(env, es, t) && Numbered(t, n)
    {
      hide Handle, Harmful, AbortCause, Numbered;
      var e := OperatorAdded(n + 1, 0, Some(n + 1));
      AddOperator(env, t, n);
      LeadsFurther(env, es, t, e);
      es, t := es + [e], Handle(env, None, t, e).t;
    }
  }

  const IDS: seq<OperatorId> := [1, 2, 3, 4]

  function Registration(v: Pubkey): Event {
    ValidatorAdded(0, IDS, Some(v),
      Some(SharePayload(0, [ShareKey(1, 1), ShareKey(2, 2), ShareKey(3, 3), ShareKey(4, 4)])))
  }

  // Every check passes, and owner 0 has registered `k` validators so far.
  ghost predicate Ready(env: Env, t: Tables, k: nat) {
    && env.mode.Node? && (forall v, rows :: env.ok(v, rows)) && (forall s, n, o, v :: env.signed(s, n, o, v))
    && KeysUnique(t.operators) && (forall i: OperatorId | 1 <= i <= 4 :: Active(t.operators, i))
    && (k == 0 ==> NonceOf(t.owners, 0).None?) && (k > 0 ==> NonceOf(t.owners, 0) == Some(k - 1))
  }

  lemma FirstJoins(env: Env, t: Tables)
    requires Ready(env, t, 0) && t.validators == map[] && Cid(0, IDS) !in t.clusters
    ensures var t' := Handle(env, None, t, Registration(1)).t;
            Ready(env, t', 1) && t'.validators.Keys == {1} && Cid(0, IDS) in t'.clusters
    ensures !AbortCause(t, Registration(1)) && !Harmful(env, t, Registration(1))
  {
    hide ShareRows;
  }

  lemma ThenLiquidated(env: Env, t: Tables)
    requires Ready(env, t, 1) && Cid(0, IDS) in t.clusters
    ensures var e := ClusterLiquidated(0, IDS);
            var t' := Handle(env, None, t, e).t;
            && Ready(env, t', 1) && t'.validators == t.validators && Cid(0, IDS) in t'.clusters
            && t'.clusters[Cid(0, IDS)].liquidated
            && !AbortCause(t, e) && !Harmful(env, t, e)
  {
  }

  lemma SecondJoins(env: Env, t: Tables)
    requires Ready(env, t, 1) && 2 !in t.validators && Cid(0, IDS) in t.clusters && t.clusters[Cid(0, IDS)].liquidated
    ensures JoinsLiquidated(env, t, Registration(2), Cid(0, IDS)) && Harmful(env, t, Registration(2))
    ensures !AbortCause(t, Registration(2))
  {
    hide ShareRows;
  }

  lemma NoClusters(env: Env, t: Tables, c: ClusterId)
    requires Sound(env.ok, t) && t.validators == map[]
    ensures c !in t.clusters
  {
  }

  // A second validator registered in a cluster after its liquidation: the state has the cluster as
  // active, and the tables have it as liquidated, until the cluster is reactivated.
  lemma LiquidatedJoinDiverges(env: Env) returns (es: seq<Event>, e: Event)
    requires env.mode.Node? && (forall v, rows :: env.ok(v, rows)) && (forall s, n, o, v :: env.signed(s, n, o, v))
    ensures e.ValidatorAdded? && Sound(env.ok, EmptyTables)
    ensures NoneAborts(env, EmptyTables, es + [e]) && AlwaysAgrees(env, EmptyTables, FirstState(env.own), es)
    ensures !AgreesAfter(env, EmptyTables, FirstState(env.own), es + [e])
    ensures AgreesAfter(env, EmptyTables, FirstState(env.own), es + [e] + [ClusterReactivated(0, IDS)])
  {
    var t;
    es, t := FourOperators(env);
    assert Ready(env, t, 0);
    hide Handle, Harmful, AbortCause, RunEvents, AlwaysAgrees, AgreesAfter, NoneAborts, LeadsTo, JoinsLiquidated,
         ClustersSound, MembersSound, SharesSound, Ready;
    NoClusters(env, t, Cid(0, IDS));
    FirstJoins(env, t);
    LeadsFurther(env, es, t, Registration(1));
    es, t := es + [Registration(1)], Handle(env, None, t, Registration(1)).t;
    ThenLiquidated(env, t);
    LeadsFurther(env, es, t, ClusterLiquidated(0, IDS));
    es, t := es + [ClusterLiquidated(0, IDS)], Handle(env, None, t, ClusterLiquidated(0, IDS)).t;
    SecondJoins(env, t);
    e := Registration(2);
    LastDiverges(env, es, t, e);
    RepairedAgain(env, es, t, e);
  }

  lemma RepairedAgain(env: Env, es: seq<Event>, t: Tables, e: Event)
    requires LeadsTo(env, es, t) && !AbortCause(t, e) && JoinsLiquidated(env, t, e, Cid(0, IDS))
    ensures Sound(env.ok, EmptyTables)
    ensures AgreesAfter(env, EmptyTables, FirstState(env.own), es + [e] + [ClusterReactivated(0, IDS)])
  {
    hide Sound, Agrees, After, NoneAborts, AgreesAfter, Consistent, JoinsLiquidated, AbortCause;
    FirstAgrees(env);
    HarmlessIsConsistent(env, EmptyTables, es, |es|);
    assert es[..|es|] == es;
    StatusRepairs(env, EmptyTables, FirstState(env.own), es, e, ClusterReactivated(0, IDS), Cid(0, IDS));
  }
}
