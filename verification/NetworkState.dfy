/**
 The in-memory copy of the network (database/src/state.rs, pending_updates.rs): plain maps and three
 multi-index maps, changed only by replaying pending updates after a commit, and what it means for it
 to agree with the tables.
 */
module NetworkState {
  import opened Wrappers
  import opened OperatorIds
  import opened MultiIndex
  import opened NetworkTables

  datatype Operator = Operator(id: OperatorId, key: RsaKey, owner: Address)
  datatype Cluster = Cluster(
    id: ClusterId, owner: Address, feeRecipient: Address, liquidated: bool, members: set<OperatorId>)
  datatype Metadata = Metadata(pubkey: Pubkey, cluster: ClusterId)
  datatype Share = Share(validator: Pubkey, operator: OperatorId, row: ShareRow)

  // Who this node is: the holder of a key, or a stand-in for an operator id.
  datatype PubkeyOrId = OwnKey(key: RsaKey) | OwnIdIs(id: OperatorId)

  type CommitteeId = set<OperatorId>
  type ValidatorMap<V> = MultiMap<Pubkey, ClusterId, Address, CommitteeId, V>
  type ClusterMap = MultiMap<ClusterId, Pubkey, Address, CommitteeId, Cluster>

  datatype State = State(
    id: Option<OperatorId>, lastBlock: nat, maxOperatorId: Option<nat>,
    operators: map<OperatorId, Operator>, nonces: map<Address, nat>, ownClusters: set<ClusterId>,
    shares: ValidatorMap<Share>, metadata: ValidatorMap<Metadata>, clusters: ClusterMap)

  // ---------- pending updates ----------

  datatype StateUpdate =
    | SetLastProcessedBlock(block: nat)
    | SetMaxOperatorIdSeen(max: nat)
    | InsertOperatorUpdate(operator: Operator, isOwn: bool)
    | DeleteOperatorUpdate(operatorId: OperatorId)
    | InsertValidatorUpdate(cluster: Cluster, validator: Metadata, ownShare: Option<Share>)
    | UpdateClusterStatus(clusterId: ClusterId, liquidated: bool)
    | DeleteValidatorUpdate(pubkey: Pubkey)
    | SetOwnerNonce(owner: Address, nonce: nat)
    | UpdateFeeRecipient(payer: Address, feeRecipient: Address)

  function ApplyInsert(st: State, cluster: Cluster, validator: Metadata, ownShare: Option<Share>): State {
    var v, c, owner, committee := validator.pubkey, cluster.id, cluster.owner, cluster.members;
    st.(ownClusters := if ownShare.Some? then st.ownClusters + {c} else st.ownClusters,
        shares := if ownShare.Some? then st.shares.Insert(v, c, owner, committee, ownShare.value) else st.shares,
        clusters := st.clusters.Insert(c, v, owner, committee, cluster),
        metadata := st.metadata.Insert(v, c, owner, committee, validator))
  }

  predicate Serves(m: ValidatorMap<Metadata>, c: ClusterId) {
    exists v | v in m.primary :: m.second.Points(c, v)
  }

  // None is the panic on missing metadata.
  function ApplyDelete(st: State, v: Pubkey): Option<State> {
    if v !in st.metadata.primary then None
    else
      var c, metadata := st.metadata.primary[v].cluster, st.metadata.Remove(v);
      var st1 := st.(shares := st.shares.Remove(v), metadata := metadata);
      if Serves(metadata, c) then Some(st1)
      else Some(st1.(clusters := st1.clusters.Remove(c), ownClusters := st1.ownClusters - {c}))
  }

  ghost function Apply(st: State, u: StateUpdate): Option<State> {
    match u
    case SetLastProcessedBlock(n) => Some(st.(lastBlock := n))
    case SetMaxOperatorIdSeen(n) => Some(st.(maxOperatorId := Some(n)))
    case InsertOperatorUpdate(op, isOwn) =>
      Some(st.(id := if st.id.None? && isOwn then Some(op.id) else st.id, operators := st.operators[op.id := op]))
    case DeleteOperatorUpdate(id) => Some(st.(operators := st.operators - {id}))
    case InsertValidatorUpdate(cluster, validator, ownShare) => Some(ApplyInsert(st, cluster, validator, ownShare))
    case UpdateClusterStatus(c, liquidated) =>
      Some(if c in st.clusters.primary
           then st.(clusters := st.clusters.Update(c, st.clusters.primary[c].(liquidated := liquidated))) else st)
    case DeleteValidatorUpdate(v) => ApplyDelete(st, v)
    case SetOwnerNonce(owner, n) => Some(st.(nonces := st.nonces[owner := n]))
    case UpdateFeeRecipient(owner, fee) =>
      Some(st.(clusters := st.clusters.ModifyThird(owner, (c: Cluster) => c.(feeRecipient := fee))))
  }

  // Replays updates in order, up to a panic if there is one.
  ghost function ApplyAll(st: State, us: seq<StateUpdate>): Option<State> {
    if us == [] then Some(st)
    else
      match ApplyAll(st, us[..|us|-1])
      case None => None
      case Some(s) => Apply(s, us[|us|-1])
  }

  lemma {:induction false} ApplyAllSplit(st: State, us: seq<StateUpdate>, ws: seq<StateUpdate>)
    ensures ApplyAll(st, us + ws) == match ApplyAll(st, us) case None => None case Some(s) => ApplyAll(s, ws)
    decreases |ws|
  {
    if ws == [] {
      assert us + ws == us;
    } else {
      ApplyAllSplit(st, us, ws[..|ws|-1]);
      assert (us + ws)[..|us + ws|-1] == us + ws[..|ws|-1];
    }
  }

  // ---------- agreement ----------

  function OwnId(own: PubkeyOrId, ops: Operators): Option<OperatorId>
    requires KeysUnique(ops)
  {
    match own
    case OwnKey(key) => ActiveByKey(ops, key)
    case OwnIdIs(id) => Some(id)
  }

  ghost predicate OperatorsAgree(ops: Operators, mem: map<OperatorId, Operator>) {
    && (forall id :: id in mem <==> Active(ops, id))
    && forall id | id in mem :: mem[id] == Operator(id, ops[id].key, ops[id].owner)
  }

  ghost predicate NoncesAgree(owners: Owners, mem: map<Address, nat>) {
    && (forall o :: o in mem <==> NonceOf(owners, o).Some?)
    && forall o | o in mem :: Some(mem[o]) == NonceOf(owners, o)
  }

  // All three indexes of a map by validator follow from the clusters the validators are in.
  ghost predicate Indexed<V>(m: ValidatorMap<V>, home: Validators) {
    && m.primary.Keys <= home.Keys && m.second.Shared? && m.third.Shared? && m.fourth.Shared?
    && (forall c, v :: (c, v) in m.second.pairs <==> v in m.primary && home[v] == c)
    && (forall a, v :: (a, v) in m.third.pairs <==> v in m.primary && home[v].owner == a)
    && (forall s, v :: (s, v) in m.fourth.pairs <==> v in m.primary && home[v].Members() == s)
  }

  ghost predicate MetadataAgrees(vs: Validators, m: ValidatorMap<Metadata>) {
    m.primary.Keys == vs.Keys && (forall v | v in vs :: m.primary[v] == Metadata(v, vs[v])) && Indexed(m, vs)
  }

  // The parts that agree after every block whatever the events were: counters, operators, nonces and
  // validator metadata.
  ghost predicate CoreAgrees(t: Tables, st: State) {
    && st.maxOperatorId == t.maxOperatorId
    && OperatorsAgree(t.operators, st.operators) && NoncesAgree(t.owners, st.nonces)
    && MetadataAgrees(t.validators, st.metadata)
  }

  // Every cluster, except for its liquidation flag.
  ghost predicate RowsAgree(
    clusters: map<ClusterId, ClusterRow>, members: Members, owners: Owners, mem: map<ClusterId, Cluster>)
  {
    && mem.Keys == clusters.Keys
    && forall c | c in clusters ::
      && mem[c].id == c && mem[c].owner == clusters[c].owner
      && mem[c].feeRecipient == FeeOf(owners, clusters[c].owner) && mem[c].members == MembersOf(members, c)
  }

  // Looking a cluster up by validator is promised for live validators only.
  ghost predicate ByValidator(vs: Validators, ix: Index<Pubkey, ClusterId>) {
    ix.Unique? && forall v | v in vs :: ix.Points(v, vs[v])
  }

  ghost predicate ByOwner(cs: set<ClusterId>, ix: Index<Address, ClusterId>) {
    ix.Shared? && forall a, c :: (a, c) in ix.pairs <==> c in cs && c.owner == a
  }

  ghost predicate ByCommittee(cs: set<ClusterId>, ix: Index<CommitteeId, ClusterId>) {
    ix.Shared? && forall s, c :: (s, c) in ix.pairs <==> c in cs && c.Members() == s
  }

  ghost predicate ClusterMapAgrees(t: Tables, m: ClusterMap) {
    && RowsAgree(t.clusters, t.members, t.owners, m.primary) && ByValidator(t.validators, m.second)
    && ByOwner(t.clusters.Keys, m.third) && ByCommittee(t.clusters.Keys, m.fourth)
  }

  ghost predicate ClustersAgree(t: Tables, st: State) {
    ClusterMapAgrees(t, st.clusters)
  }

  // The clusters whose liquidation flag in memory is not the one in the tables.
  function WrongFlags(clusters: map<ClusterId, ClusterRow>, mem: map<ClusterId, Cluster>): set<ClusterId> {
    set c | c in clusters && c in mem && mem[c].liquidated != clusters[c].liquidated
  }

  function Wrong(t: Tables, st: State): set<ClusterId> {
    WrongFlags(t.clusters, st.clusters.primary)
  }

  ghost predicate LiquidationsAgree(t: Tables, st: State) {
    Wrong(t, st) == {}
  }

  ghost predicate Holds(shares: ShareTable, id: Option<OperatorId>, v: Pubkey) {
    id.Some? && v in shares && id.value in shares[v]
  }

  // The shares held under an id, and the clusters they are in.
  ghost predicate HoldingsAgree(
    vs: Validators, shares: ShareTable, id: Option<OperatorId>, m: ValidatorMap<Share>, own: set<ClusterId>)
  {
    && (forall v :: v in m.primary <==> Holds(shares, id, v))
    && (forall v | v in m.primary :: m.primary[v] == Share(v, id.value, shares[v][id.value]))
    && Indexed(m, vs) && forall c :: c in own <==> exists v | v in m.primary :: vs[v] == c
  }

  ghost predicate OwnAgrees(own: PubkeyOrId, t: Tables, st: State)
    requires KeysUnique(t.operators)
  {
    st.id == OwnId(own, t.operators) && HoldingsAgree(t.validators, t.shares, st.id, st.shares, st.ownClusters)
  }

  ghost predicate Agrees(own: PubkeyOrId, t: Tables, st: State)
    requires KeysUnique(t.operators)
  {
    CoreAgrees(t, st) && ClustersAgree(t, st) && LiquidationsAgree(t, st) && OwnAgrees(own, t, st)
  }

  lemma IndexedDetermines<V>(home: Validators, a: ValidatorMap<V>, b: ValidatorMap<V>)
    requires Indexed(a, home) && Indexed(b, home) && a.primary == b.primary
    ensures a == b
  {
    forall kp
      ensures kp in a.second.pairs <==> kp in b.second.pairs
    {
      var (k, p) := kp;
      assert (k, p) in a.second.pairs <==> kp in a.second.pairs;
    }
    forall kp
      ensures kp in a.third.pairs <==> kp in b.third.pairs
    {
      var (k, p) := kp;
      assert (k, p) in a.third.pairs <==> kp in a.third.pairs;
    }
    forall kp
      ensures kp in a.fourth.pairs <==> kp in b.fourth.pairs
    {
      var (k, p) := kp;
      assert (k, p) in a.fourth.pairs <==> kp in a.fourth.pairs;
    }
  }

  lemma ClustersDetermined(t: Tables, a: State, b: State)
    requires ClustersAgree(t, a) && ClustersAgree(t, b) && LiquidationsAgree(t, a) && LiquidationsAgree(t, b)
    ensures a.clusters.(second := b.clusters.second) == b.clusters
    ensures forall v | v in t.validators :: a.clusters.second.one[v] == b.clusters.second.one[v]
  {
    var x, y := a.clusters, b.clusters;
    forall c | c in t.clusters
      ensures x.primary[c] == y.primary[c]
    {
      assert c !in Wrong(t, a) && c !in Wrong(t, b);
    }
    forall kp
      ensures kp in x.third.pairs <==> kp in y.third.pairs
    {
      var (k, p) := kp;
      assert (k, p) in x.third.pairs <==> kp in x.third.pairs;
    }
    forall kp
      ensures kp in x.fourth.pairs <==> kp in y.fourth.pairs
    {
      var (k, p) := kp;
      assert (k, p) in x.fourth.pairs <==> kp in x.fourth.pairs;
    }
  }

  // Agreement leaves nothing open except which cluster a dead validator's key still points to (the
  // block number is not in the tables).
  lemma AgreementDetermines(own: PubkeyOrId, t: Tables, a: State, b: State)
    requires KeysUnique(t.operators) && Agrees(own, t, a) && Agrees(own, t, b)
    ensures a.(clusters := b.clusters, lastBlock := b.lastBlock) == b
    ensures a.clusters.(second := b.clusters.second) == b.clusters
    ensures forall v | v in t.validators :: a.clusters.second.one[v] == b.clusters.second.one[v]
  {
    ClustersDetermined(t, a, b);
    CoreDetermined(t, a, b);
    HoldingsDetermined(t, a, b);
  }

  lemma HoldingsDetermined(t: Tables, a: State, b: State)
    requires a.id == b.id && HoldingsAgree(t.validators, t.shares, a.id, a.shares, a.ownClusters)
    requires HoldingsAgree(t.validators, t.shares, b.id, b.shares, b.ownClusters)
    ensures a.shares == b.shares && a.ownClusters == b.ownClusters
  {
    forall v
      ensures v in a.shares.primary <==> v in b.shares.primary
    {
      assert v in a.shares.primary <==> Holds(t.shares, a.id, v);
    }
    forall v | v in a.shares.primary
      ensures a.shares.primary[v] == b.shares.primary[v]
    {
    }
    IndexedDetermines(t.validators, a.shares, b.shares);
  }

  lemma CoreDetermined(t: Tables, a: State, b: State)
    requires CoreAgrees(t, a) && CoreAgrees(t, b)
    ensures a.operators == b.operators && a.nonces == b.nonces && a.metadata == b.metadata
  {
    forall o
      ensures o in a.nonces <==> o in b.nonces
    {
    }
    forall o | o in a.nonces
      ensures a.nonces[o] == b.nonces[o]
    {
      assert Some(a.nonces[o]) == Some(b.nonces[o]);
    }
    forall v | v in t.validators
      ensures a.metadata.primary[v] == b.metadata.primary[v]
    {
    }
    IndexedDetermines(t.validators, a.metadata, b.metadata);
  }
}
