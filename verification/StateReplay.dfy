/**
 The in-memory state as an object whose maps are changed in place by replaying pending updates
 (database/src/pending_updates.rs).
 */
module StateReplay {
  import opened Wrappers
  import opened OperatorIds
  import opened MultiIndex
  import opened NetworkTables
  import opened NetworkState
  import opened MirrorSteps

  // ---------- reading the tables back ----------

  // The cluster a row stands for.
  function ClusterOf(t: Tables, c: ClusterId): Cluster
    requires c in t.clusters
  {
    Cluster(c, t.clusters[c].owner, FeeOf(t.owners, t.clusters[c].owner), t.clusters[c].liquidated,
      MembersOf(t.members, c))
  }

  // The operators that are not marked as removed.
  method FetchOperators(ops: Operators) returns (mem: map<OperatorId, Operator>)
    ensures OperatorsAgree(ops, mem)
  {
    mem := map[];
    var todo := ops.Keys;
    while todo != {}
      invariant todo <= ops.Keys
      invariant forall id :: id in mem <==> Active(ops, id) && id !in todo
      invariant forall id | id in mem :: mem[id] == Operator(id, ops[id].key, ops[id].owner)
    {
      var id :| id in todo;
      todo := todo - {id};
      if !ops[id].removed {
        mem := mem[id := Operator(id, ops[id].key, ops[id].owner)];
      }
    }
  }

  method FetchNonces(owners: Owners) returns (mem: map<Address, nat>)
    ensures NoncesAgree(owners, mem)
  {
    mem := map[];
    var todo := owners.Keys;
    while todo != {}
      invariant todo <= owners.Keys
      invariant forall o :: o in mem <==> NonceOf(owners, o).Some? && o !in todo
      invariant forall o | o in mem :: Some(mem[o]) == NonceOf(owners, o)
    {
      SomeElement(todo);
      var o :| o in todo;
      todo := todo - {o};
      if owners[o].nonce.Some? {
        mem := mem[o := owners[o].nonce.value];
      }
    }
  }

  // The clusters in which an operator holds a share.
  function ClustersHeld(shares: ShareTable, id: Option<OperatorId>): set<ClusterId> {
    if id.None? then {} else set v | v in shares && id.value in shares[v] :: shares[v][id.value].cluster
  }

  // ---------- the maps, filled with some of the validators ----------

  function Kept(vs: Validators, done: set<Pubkey>): Validators {
    vs - (vs.Keys - done)
  }

  function Homes(vs: Validators, done: set<Pubkey>): set<ClusterId> {
    set v | v in done && v in vs :: vs[v]
  }

  ghost predicate ClustersFilled(t: Tables, done: set<Pubkey>, m: ClusterMap) {
    && m.primary.Keys == Homes(t.validators, done)
    && (forall c | c in m.primary :: c in t.clusters && m.primary[c] == ClusterOf(t, c))
    && ByValidator(Kept(t.validators, done), m.second)
    && ByOwner(Homes(t.validators, done), m.third) && ByCommittee(Homes(t.validators, done), m.fourth)
  }

  // The share of a validator is served if it is stored under the validator's cluster and all the stored
  // shares of the validator interpolate; rows from before that check may not.
  predicate Loads(check: ShareCheck, t: Tables, id: Option<OperatorId>, v: Pubkey) {
    && v in t.validators && id.Some? && v in t.shares && id.value in t.shares[v]
    && t.shares[v][id.value].cluster == t.validators[v] && check(v, t.shares[v])
  }

  ghost predicate SharesFilled(
    check: ShareCheck, t: Tables, id: Option<OperatorId>, done: set<Pubkey>, m: ValidatorMap<Share>)
  {
    && (forall v :: v in m.primary <==> v in done && Loads(check, t, id, v))
    && (forall v | v in m.primary :: m.primary[v] == Share(v, id.value, t.shares[v][id.value]))
    && Indexed(m, Kept(t.validators, done))
  }

  lemma KeptMore(vs: Validators, done: set<Pubkey>, v: Pubkey)
    requires v in vs && v !in done
    ensures Kept(vs, done + {v}) == Kept(vs, done)[v := vs[v]] && Homes(vs, done + {v}) == Homes(vs, done) + {vs[v]}
    ensures v !in Kept(vs, done)
  {
  }

  lemma FillMetadata(vs: Validators, done: set<Pubkey>, v: Pubkey, m: ValidatorMap<Metadata>)
    requires MetadataAgrees(Kept(vs, done), m) && v in vs && v !in done
    ensures var c := vs[v]; MetadataAgrees(Kept(vs, done + {v}), m.Insert(v, c, c.owner, c.Members(), Metadata(v, c)))
  {
    KeptMore(vs, done, v);
    IndexedInsert(m, Kept(vs, done), v, vs[v], Metadata(v, vs[v]));
  }

  lemma FillClusters(t: Tables, done: set<Pubkey>, v: Pubkey, m: ClusterMap)
    requires ClustersFilled(t, done, m) && v in t.validators && v !in done && t.validators[v] in t.clusters
    ensures var c := t.validators[v];
            ClustersFilled(t, done + {v}, m.Insert(c, v, c.owner, c.Members(), ClusterOf(t, c)))
  {
    var c := t.validators[v];
    KeptMore(t.validators, done, v);
    InsertByValidator(Kept(t.validators, done), m.second, c, v);
    InsertIndexes(Homes(t.validators, done), m.third, m.fourth, c);
  }

  lemma FillShares(
    check: ShareCheck, t: Tables, id: Option<OperatorId>, done: set<Pubkey>, v: Pubkey, m: ValidatorMap<Share>)
    requires SharesFilled(check, t, id, done, m) && v in t.validators && v !in done
    ensures SharesFilled(check, t, id, done + {v}, SharesWith(check, t, id, v, m))
  {
    KeptMore(t.validators, done, v);
    if Loads(check, t, id, v) {
      IndexedInsert(m, Kept(t.validators, done), v, t.validators[v], Share(v, id.value, t.shares[v][id.value]));
    } else {
      assert Indexed(m, Kept(t.validators, done)[v := t.validators[v]]);
    }
  }

  function SharesWith(
    check: ShareCheck, t: Tables, id: Option<OperatorId>, v: Pubkey, m: ValidatorMap<Share>): ValidatorMap<Share>
    requires v in t.validators
  {
    var c := t.validators[v];
    if Loads(check, t, id, v)
    then m.Insert(v, c, c.owner, c.Members(), Share(v, id.value, t.shares[v][id.value])) else m
  }

  ghost predicate FilledMaps(
    check: ShareCheck, t: Tables, id: Option<OperatorId>, done: set<Pubkey>,
    s: ValidatorMap<Share>, m: ValidatorMap<Metadata>, c: ClusterMap)
  {
    && MetadataAgrees(Kept(t.validators, done), m) && ClustersFilled(t, done, c) && SharesFilled(check, t, id, done, s)
  }

  lemma FilledNothing(
    check: ShareCheck, t: Tables, id: Option<OperatorId>,
    s: ValidatorMap<Share>, m: ValidatorMap<Metadata>, c: ClusterMap)
    requires s == EmptyMultiMap(false, false, false) && m == EmptyMultiMap(false, false, false)
    requires c == EmptyMultiMap(true, false, false)
    ensures FilledMaps(check, t, id, {}, s, m, c)
  {
  }

  lemma FillOne(
    check: ShareCheck, t: Tables, id: Option<OperatorId>, done: set<Pubkey>, v: Pubkey,
    s: ValidatorMap<Share>, m: ValidatorMap<Metadata>, cm: ClusterMap)
    requires v in t.validators && t.validators[v] in t.clusters && v !in done
    requires FilledMaps(check, t, id, done, s, m, cm)
    ensures var c := t.validators[v];
            FilledMaps(check, t, id, done + {v}, SharesWith(check, t, id, v, s),
                       m.Insert(v, c, c.owner, c.Members(), Metadata(v, c)),
                       cm.Insert(c, v, c.owner, c.Members(), ClusterOf(t, c)))
  {
    hide ClustersFilled, SharesFilled, MetadataAgrees;
    FillMetadata(t.validators, done, v, m);
    FillClusters(t, done, v, cm);
    FillShares(check, t, id, done, v, s);
  }

  // What the schema's keys and triggers and the making of cluster ids see to: keys are unique, and
  // clusters, members and validators fit together.
  ghost predicate Loadable(t: Tables) {
    KeysUnique(t.operators) && ClustersSound(t.clusters, t.members, t.validators)
  }

  lemma LoadableCluster(t: Tables, c: ClusterId)
    requires Loadable(t) && c in t.clusters
    ensures ClusterOf(t, c).owner == c.owner && ClusterOf(t, c).members == c.Members()
  {
  }

  lemma LoadableValidator(t: Tables, v: Pubkey)
    requires Loadable(t) && v in t.validators
    ensures t.validators[v] in t.clusters
  {
  }

  // The state a restart builds from the tables.
  ghost predicate Rebuilt(own: PubkeyOrId, check: ShareCheck, t: Tables, st: State)
    requires KeysUnique(t.operators)
  {
    && st.id == OwnId(own, t.operators) && st.ownClusters == ClustersHeld(t.shares, st.id)
    && CoreAgrees(t, st) && ClustersAgree(t, st) && LiquidationsAgree(t, st)
    && SharesFilled(check, t, st.id, t.validators.Keys, st.shares)
  }

  lemma FilledRebuilt(own: PubkeyOrId, check: ShareCheck, t: Tables, st: State)
    requires Loadable(t)
    requires st.id == OwnId(own, t.operators) && st.maxOperatorId == t.maxOperatorId
    requires st.ownClusters == ClustersHeld(t.shares, st.id)
    requires OperatorsAgree(t.operators, st.operators) && NoncesAgree(t.owners, st.nonces)
    requires FilledMaps(check, t, st.id, t.validators.Keys, st.shares, st.metadata, st.clusters)
    ensures Rebuilt(own, check, t, st)
  {
    hide SharesFilled, ClusterMapAgrees;
    assert Kept(t.validators, t.validators.Keys) == t.validators;
    FilledClusters(t, st.clusters);
  }

  lemma FilledClusters(t: Tables, m: ClusterMap)
    requires ClustersSound(t.clusters, t.members, t.validators) && ClustersFilled(t, t.validators.Keys, m)
    ensures ClusterMapAgrees(t, m) && WrongFlags(t.clusters, m.primary) == {}
  {
    assert Kept(t.validators, t.validators.Keys) == t.validators;
    forall c
      ensures c in Homes(t.validators, t.validators.Keys) <==> c in t.clusters
    {
      if c in t.clusters {
        var v :| v in t.validators && t.validators[v] == c;
      }
    }
    assert Homes(t.validators, t.validators.Keys) == t.clusters.Keys;
  }

  // In sound tables every stored share is served: a restart brings full agreement.
  lemma RebuiltAgrees(own: PubkeyOrId, check: ShareCheck, t: Tables, st: State)
    requires Sound(check, t) && Rebuilt(own, check, t, st)
    ensures Agrees(own, t, st)
  {
    hide CoreAgrees, ClustersAgree, LiquidationsAgree, ClustersSound, MembersSound;
    FilledHoldings(check, t, st);
  }

  lemma FilledHoldings(check: ShareCheck, t: Tables, st: State)
    requires SharesSound(check, t.validators, t.shares) && SharesFilled(check, t, st.id, t.validators.Keys, st.shares)
    requires st.ownClusters == ClustersHeld(t.shares, st.id)
    ensures HoldingsAgree(t.validators, t.shares, st.id, st.shares, st.ownClusters)
  {
    assert Kept(t.validators, t.validators.Keys) == t.validators;
    forall v
      ensures Holds(t.shares, st.id, v) <==> Loads(check, t, st.id, v)
      ensures Holds(t.shares, st.id, v) ==> t.shares[v][st.id.value].cluster == t.validators[v]
    {
      if Holds(t.shares, st.id, v) {
        assert ValidatorShares(check, v, t.validators[v], t.shares[v]);
      }
    }
  }

  class StateStore {
    var id: Option<OperatorId>
    var lastBlock: nat
    var maxOperatorId: Option<nat>
    var operators: map<OperatorId, Operator>
    var nonces: map<Address, nat>
    var ownClusters: set<ClusterId>
    const shares: MultiIndexMap<Pubkey, ClusterId, Address, CommitteeId, Share>
    const metadata: MultiIndexMap<Pubkey, ClusterId, Address, CommitteeId, Metadata>
    const clusters: MultiIndexMap<ClusterId, Pubkey, Address, CommitteeId, Cluster>

    ghost function View(): State
      reads this, shares, metadata, clusters
    {
      State(id, lastBlock, maxOperatorId, operators, nonces, ownClusters, shares.View(), metadata.View(),
        clusters.View())
    }

    ghost predicate Valid()
      reads this, shares, metadata, clusters
    {
      && shares as object != metadata as object && shares as object != clusters as object
      && metadata as object != clusters as object
      && !shares.unique2 && !shares.unique3 && !shares.unique4 && !metadata.unique2 && !metadata.unique3
      && !metadata.unique4
      && clusters.unique2 && !clusters.unique3 && !clusters.unique4
      && shares.Valid() && metadata.Valid() && clusters.Valid()
    }

    // Rebuilds the state from the tables, cluster by cluster and validator by validator.
    constructor (own: PubkeyOrId, check: ShareCheck, block: nat, t: Tables)
      requires Loadable(t)
      ensures Valid() && fresh(shares) && fresh(metadata) && fresh(clusters)
      ensures Rebuilt(own, check, t, View()) && lastBlock == block
    {
      hide ClustersSound, FilledMaps, OperatorsAgree, NoncesAgree, Rebuilt;
      id := OwnId(own, t.operators);
      lastBlock, maxOperatorId := block, t.maxOperatorId;
      ownClusters := ClustersHeld(t.shares, OwnId(own, t.operators));
      var rows := FetchOperators(t.operators);
      operators := rows;
      var counts := FetchNonces(t.owners);
      nonces := counts;
      shares := new MultiIndexMap(false, false, false);
      metadata := new MultiIndexMap(false, false, false);
      clusters := new MultiIndexMap(true, false, false);
      new;
      FillAll(check, t);
      FilledRebuilt(own, check, t, View());
    }

    method FillAll(check: ShareCheck, t: Tables)
      requires Valid() && Loadable(t) && shares.View() == EmptyMultiMap(false, false, false)
      requires metadata.View() == EmptyMultiMap(false, false, false)
      requires clusters.View() == EmptyMultiMap(true, false, false)
      modifies shares, metadata, clusters
      ensures Valid() && Filled(check, t, t.validators.Keys)
    {
      hide Loadable, FilledMaps;
      forall v | v in t.validators
        ensures t.validators[v] in t.clusters
      {
        LoadableValidator(t, v);
      }
      var todo := t.clusters.Keys;
      ghost var done := {};
      FilledNothing(check, t, id, shares.View(), metadata.View(), clusters.View());
      while todo != {}
        invariant Valid() && todo <= t.clusters.Keys && done <= t.validators.Keys && Filled(check, t, done)
        invariant forall v | v in t.validators :: v in done <==> t.validators[v] !in todo
      {
        var c :| c in todo;
        todo := todo - {c};
        done := FillCluster(check, t, c, done);
      }
      assert done == t.validators.Keys by {
        forall v | v in t.validators.Keys
          ensures v in done
        {
        }
      }
    }

    ghost predicate Filled(check: ShareCheck, t: Tables, done: set<Pubkey>)
      reads this, shares, metadata, clusters
    {
      FilledMaps(check, t, id, done, shares.View(), metadata.View(), clusters.View())
    }

    method FillCluster(
      check: ShareCheck, t: Tables, c: ClusterId, ghost done: set<Pubkey>) returns (ghost done': set<Pubkey>)
      requires Valid() && Loadable(t) && c in t.clusters && Filled(check, t, done) && done <= t.validators.Keys
      requires forall v | v in t.validators && t.validators[v] == c :: v !in done
      modifies shares, metadata, clusters
      ensures Valid() && Filled(check, t, done') && done' <= t.validators.Keys
      ensures forall v | v in t.validators :: v in done' <==> v in done || t.validators[v] == c
    {
      hide Loadable, FilledMaps;
      var todo := set v | v in t.validators && t.validators[v] == c;
      done' := done;
      while todo != {}
        invariant Valid() && Filled(check, t, done') && done' <= t.validators.Keys
        invariant todo <= t.validators.Keys && forall v | v in todo :: t.validators[v] == c && v !in done'
        invariant forall v | v in t.validators :: v in done' <==> v in done || (t.validators[v] == c && v !in todo)
      {
        SomeElement(todo);
        var v :| v in todo;
        todo := todo - {v};
        FillValidator(check, t, c, v, done');
        done' := done' + {v};
      }
    }

    method FillValidator(check: ShareCheck, t: Tables, c: ClusterId, v: Pubkey, ghost done: set<Pubkey>)
      requires Valid() && Loadable(t) && c in t.clusters && v in t.validators && t.validators[v] == c
      requires v !in done && Filled(check, t, done)
      modifies shares, metadata, clusters
      ensures Valid() && Filled(check, t, done + {v})
    {
      hide Loadable, FilledMaps;
      LoadableCluster(t, c);
      FillOne(check, t, id, done, v, shares.View(), metadata.View(), clusters.View());
      var cluster := ClusterOf(t, c);
      clusters.InsertOrUpdate(c, v, cluster.owner, cluster.members, cluster);
      metadata.InsertOrUpdate(v, c, cluster.owner, cluster.members, Metadata(v, c));
      if id.Some? && v in t.shares && id.value in t.shares[v] && t.shares[v][id.value].cluster == c
         && check(v, t.shares[v]) {
        shares.InsertOrUpdate(v, c, cluster.owner, cluster.members, Share(v, id.value, t.shares[v][id.value]));
      }
    }

    method InsertValidator(cluster: Cluster, validator: Metadata, ownShare: Option<Share>)
      requires Valid()
      modifies this`ownClusters, shares, metadata, clusters
      ensures Valid() && View() == ApplyInsert(old(View()), cluster, validator, ownShare)
    {
      if ownShare.Some? {
        ownClusters := ownClusters + {cluster.id};
        shares.InsertOrUpdate(validator.pubkey, cluster.id, cluster.owner, cluster.members, ownShare.value);
      }
      clusters.InsertOrUpdate(cluster.id, validator.pubkey, cluster.owner, cluster.members, cluster);
      metadata.InsertOrUpdate(validator.pubkey, cluster.id, cluster.owner, cluster.members, validator);
    }

    // Without metadata for the validator the original stops the program, with the share already gone.
    method DeleteValidator(v: Pubkey) returns (ok: bool)
      requires Valid()
      modifies this`ownClusters, shares, metadata, clusters
      ensures Valid() && (ok <==> ApplyDelete(old(View()), v).Some?)
      ensures ok ==> Some(View()) == ApplyDelete(old(View()), v)
      ensures !ok ==> View() == old(View()).(shares := old(View()).shares.Remove(v))
    {
      var _ := shares.Remove(v);
      if v !in metadata.primary {
        return false;
      }
      var removed := metadata.Remove(v);
      var c := removed.value.cluster;
      var served := metadata.FirstBySecondary(c);
      if served.Some? {
        ghost var w: Pubkey := served.value;
        assert w in metadata.primary && metadata.View().second.Points(c, w);
      }
      assert served.Some? <==> Serves(metadata.View(), c);
      if served.None? {
        var _ := clusters.Remove(c);
        ownClusters := ownClusters - {c};
      }
      ok := true;
    }

    method UpdateStatus(c: ClusterId, liquidated: bool)
      requires Valid()
      modifies clusters
      ensures Valid() && Some(View()) == Apply(old(View()), UpdateClusterStatus(c, liquidated))
    {
      if c in clusters.primary {
        var _ := clusters.Update(c, clusters.primary[c].(liquidated := liquidated));
      }
    }

    // One update; false is the panic of a removal without metadata.
    method Replay(u: StateUpdate) returns (ok: bool)
      requires Valid()
      modifies this, shares, metadata, clusters
      ensures Valid() && (ok <==> Apply(old(View()), u).Some?)
      ensures ok ==> Some(View()) == Apply(old(View()), u)
    {
      ok := true;
      match u
      case SetLastProcessedBlock(n) => lastBlock := n;
      case SetMaxOperatorIdSeen(n) => maxOperatorId := Some(n);
      case InsertOperatorUpdate(op, isOwn) =>
        if id.None? && isOwn {
          id := Some(op.id);
        }
        operators := operators[op.id := op];
      case DeleteOperatorUpdate(o) => operators := operators - {o};
      case InsertValidatorUpdate(cluster, validator, ownShare) => InsertValidator(cluster, validator, ownShare);
      case UpdateClusterStatus(c, liquidated) => UpdateStatus(c, liquidated);
      case DeleteValidatorUpdate(v) => ok := DeleteValidator(v);
      case SetOwnerNonce(owner, n) => nonces := nonces[owner := n];
      case UpdateFeeRecipient(owner, fee) =>
        clusters.ModifyAllByTertiary(owner, (c: Cluster) => c.(feeRecipient := fee));
    }

    // Replays a block's updates in order, up to a panic if there is one.
    method Publish(us: seq<StateUpdate>) returns (ok: bool)
      requires Valid()
      modifies this, shares, metadata, clusters
      ensures Valid() && (ok <==> ApplyAll(old(View()), us).Some?)
      ensures ok ==> Some(View()) == ApplyAll(old(View()), us)
    {
      hide Apply;
      assert us[..0] == [];
      for i := 0 to |us|
        invariant Valid() && Some(View()) == ApplyAll(old(View()), us[..i])
      {
        assert us[..i + 1][..i] == us[..i];
        ok := Replay(us[i]);
        if !ok {
          ApplyAllSplit(old(View()), us[..i + 1], us[i + 1..]);
          assert us[..i + 1] + us[i + 1..] == us;
          return;
        }
      }
      assert us[..|us|] == us;
      ok := true;
    }
  }
}
