/**
 What each event does to what the tables say, told without the handlers: operators, fee recipients and
 liquidation (eth/src/event_processor.rs).
 */
module EventEffects {
  import opened Wrappers
  import opened OperatorIds
  import opened NetworkTables
  import opened NetworkState
  import opened EventHandlers
  import opened EventMirror

  // ---------- operators ----------

  // The event registers an operator: its id is the next one and its key is new and readable.
  predicate AddsOperator(t: Tables, e: Event, id: OperatorId, key: RsaKey, owner: Address) {
    && e == OperatorAdded(id, owner, Some(key)) && t.maxOperatorId == Some(id - 1)
    && forall o | o in t.operators :: t.operators[o].key != key
  }

  predicate IsOperator(t: Tables, id: OperatorId, key: RsaKey, owner: Address) {
    Active(t.operators, id) && t.operators[id].key == key && t.operators[id].owner == owner
  }

  lemma AddedOperators(
    ok: ShareCheck, t: Tables, i: OperatorId, o: Address, k: Option<RsaKey>, own: PubkeyOrId, id: OperatorId,
    key: RsaKey, owner: Address)
    requires Sound(ok, t)
    ensures IsOperator(HandleOperatorAdded(t, i, o, k, own).t, id, key, owner)
            <==> AddsOperator(t, OperatorAdded(i, o, k), id, key, owner) || IsOperator(t, id, key, owner)
  {
    hide ClustersSound, MembersSound, SharesSound;
  }

  lemma RemovedValidatorOperators(t: Tables, o: Address, v: Option<Pubkey>, id: OperatorId, key: RsaKey, owner: Address)
    ensures IsOperator(HandleValidatorRemoved(t, o, v).t, id, key, owner) <==> IsOperator(t, id, key, owner)
  {
  }

  lemma RemovedOperators(t: Tables, i: OperatorId, id: OperatorId, key: RsaKey, owner: Address)
    requires (i in t.skipped ==> !Active(t.operators, i)) && !HandleOperatorRemoved(t, i).outcome.Aborted?
    ensures IsOperator(HandleOperatorRemoved(t, i).t, id, key, owner) <==> IsOperator(t, id, key, owner) && i != id
  {
  }

  lemma OthersKeepOperators(env: Env, published: Option<OperatorId>, t: Tables, e: Event)
    requires KeysUnique(t.operators) && !e.OperatorAdded? && !e.OperatorRemoved? && !e.ValidatorRemoved?
    ensures Handle(env, published, t, e).t.operators == t.operators
  {
    hide Accepted, ShareRows;
  }

  // Operators come by registration and go by removal, and by nothing else.
  lemma EventOperators(
    env: Env, published: Option<OperatorId>, t: Tables, e: Event, id: OperatorId, key: RsaKey, owner: Address)
    requires Sound(env.ok, t) && !AbortCause(t, e)
    ensures IsOperator(Handle(env, published, t, e).t, id, key, owner)
            <==> AddsOperator(t, e, id, key, owner) || (IsOperator(t, id, key, owner) && e != OperatorRemoved(id))
  {
    hide ClustersSound, MembersSound, SharesSound, HandleOperatorAdded, HandleValidatorAdded, HandleValidatorRemoved;
    match e
    case OperatorAdded(i, o, k) => AddedOperators(env.ok, t, i, o, k, env.own, id, key, owner);
    case OperatorRemoved(i) => RemovedOperators(t, i, id, key, owner);
    case ValidatorRemoved(o, _, v) => RemovedValidatorOperators(t, o, v, id, key, owner);
    case _ => OthersKeepOperators(env, published, t, e);
  }

  // The event takes up an operator id, with or without an operator row.
  predicate Takes(t: Tables, e: Event) {
    e.OperatorAdded? && !Active(t.operators, e.id) && (t.maxOperatorId.Some? ==> t.maxOperatorId.value + 1 == e.id)
  }

  lemma EventIds(env: Env, published: Option<OperatorId>, t: Tables, e: Event)
    requires Sound(env.ok, t)
    ensures var h := Handle(env, published, t, e);
            h.t.maxOperatorId == if Takes(t, e) then Some(e.id) else t.maxOperatorId
    ensures var h := Handle(env, published, t, e);
            Takes(t, e) ==> (e.id in h.t.operators <==> e.id !in h.t.skipped)
  {
    hide Accepted, ShareRows, Swept, IsMember, SharesSound, ClustersSound, MembersSound;
  }

  // A marker is set for an id that is taken up without an operator row, and goes with its removal.
  lemma EventSkipped(env: Env, published: Option<OperatorId>, t: Tables, e: Event, id: OperatorId)
    requires Sound(env.ok, t)
    ensures var usable := e.OperatorAdded? && e.key.Some?
            && forall o | o in t.operators :: t.operators[o].key != e.key.value;
            id in Handle(env, published, t, e).t.skipped
            <==> || (Takes(t, e) && e.id == id && !usable)
                 || (id in t.skipped && e != OperatorRemoved(id))
  {
    hide Accepted, ShareRows, Swept, IsMember, SharesSound, ClustersSound, MembersSound;
  }

  // The events that are carried out; the others are skipped or abort their block.
  ghost predicate CarriedOut(env: Env, t: Tables, e: Event) {
    match e
    case OperatorAdded(id, owner, key) =>
      key.Some? && AddsOperator(t, e, id, key.value, owner) && !Active(t.operators, id)
    case OperatorRemoved(id) => id !in t.skipped && Active(t.operators, id)
    case ValidatorAdded(owner, ids, pubkey, shares) =>
      !AbortCause(t, e) && (env.mode.KeySplit? || Joins(env, t, e))
    case ValidatorRemoved(owner, _, pubkey) =>
      pubkey.Some? && pubkey.value in t.validators && owner == t.validators[pubkey.value].owner
    case ClusterLiquidated(_, _) => true
    case ClusterReactivated(_, _) => true
    case FeeRecipientUpdated(_, _) => true
    case ValidatorExited => true
    case Undecodable => false
    case Unknown => false
  }

  lemma OutcomeExactly(env: Env, published: Option<OperatorId>, t: Tables, e: Event)
    requires Sound(env.ok, t)
    ensures var outcome := Handle(env, published, t, e).outcome;
            && (outcome.Done? <==> CarriedOut(env, t, e)) && (outcome.Aborted? <==> AbortCause(t, e))
  {
    hide Accepted, ShareRows, Swept, IsMember, SharesSound, MembersSound;
    HandleSound(env, published, t, e);
    if e.ValidatorRemoved? && e.pubkey.Some? && e.pubkey.value in t.validators {
      SoundHome(env.ok, t, e.pubkey.value);
    }
  }

  lemma SoundHome(ok: ShareCheck, t: Tables, v: Pubkey)
    requires Sound(ok, t) && v in t.validators
    ensures t.validators[v] in t.clusters && t.clusters[t.validators[v]].owner == t.validators[v].owner
  {
  }

  // ---------- owners ----------

  lemma AddedOwners(
    env: Env, published: Option<OperatorId>, t: Tables,
    owner: Address, ids: seq<OperatorId>, pubkey: Option<Pubkey>, shares: Option<SharePayload>)
    requires KeysUnique(t.operators)
    ensures var h := HandleValidatorAdded(env, published, t, owner, ids, pubkey, shares);
            h.t.owners == if h.outcome.Aborted? then t.owners else BumpNonce(t, owner).owners
  {
    hide Accepted, ShareRows;
  }

  lemma RemovedOwners(t: Tables, owner: Address, pubkey: Option<Pubkey>)
    ensures HandleValidatorRemoved(t, owner, pubkey).t.owners == t.owners
  {
    hide Swept, HasValidator;
  }

  lemma OperatorOwners(t: Tables, id: OperatorId, owner: Address, key: Option<RsaKey>, own: PubkeyOrId)
    ensures HandleOperatorAdded(t, id, owner, key, own).t.owners == t.owners
    ensures HandleOperatorRemoved(t, id).t.owners == t.owners
  {
  }

  // The owner rows an event leaves.
  function OwnersAfter(t: Tables, e: Event): Owners {
    if e.ValidatorAdded? then BumpNonce(t, e.owner).owners
    else if e.FeeRecipientUpdated? then SetFeeRecipient(t, e.owner, e.recipient).owners
    else t.owners
  }

  // Only registrations and fee updates touch an owner, and only the one they name.
  lemma EventOwners(env: Env, published: Option<OperatorId>, t: Tables, e: Event)
    requires KeysUnique(t.operators) && !Handle(env, published, t, e).outcome.Aborted?
    ensures Handle(env, published, t, e).t.owners == OwnersAfter(t, e)
  {
    hide HandleOperatorAdded, HandleOperatorRemoved, HandleValidatorAdded, HandleValidatorRemoved, BumpNonce;
    match e
    case OperatorAdded(id, owner, key) => OperatorOwners(t, id, owner, key, env.own);
    case OperatorRemoved(id) => OperatorOwners(t, id, 0, None, env.own);
    case ValidatorAdded(owner, ids, pubkey, shares) => AddedOwners(env, published, t, owner, ids, pubkey, shares);
    case ValidatorRemoved(owner, _, pubkey) => RemovedOwners(t, owner, pubkey);
    case _ =>
  }

  // ---------- fee recipients ----------

  function FeeAfter(e: Event, owner: Address, before: Address): Address {
    if e.FeeRecipientUpdated? && e.owner == owner then e.recipient else before
  }

  lemma EventFee(env: Env, published: Option<OperatorId>, t: Tables, e: Event, owner: Address)
    requires KeysUnique(t.operators) && !Handle(env, published, t, e).outcome.Aborted?
    ensures FeeOf(Handle(env, published, t, e).t.owners, owner) == FeeAfter(e, owner, FeeOf(t.owners, owner))
  {
    hide Handle;
    EventOwners(env, published, t, e);
  }

  // ---------- liquidation ----------

  predicate IsLiquidated(t: Tables, c: ClusterId) {
    c in t.clusters && t.clusters[c].liquidated
  }

  predicate SetsStatus(e: Event, c: ClusterId, liquidated: bool) {
    if liquidated then e.ClusterLiquidated? && Cid(e.owner, e.operators) == c
    else e.ClusterReactivated? && Cid(e.owner, e.operators) == c
  }

  lemma InsertLiquidation(t: Tables, d: ClusterId, v: Pubkey, rows: map<OperatorId, ShareRow>, c: ClusterId)
    ensures IsLiquidated(InsertValidator(t, d, v, rows), c) <==> IsLiquidated(t, c)
  {
  }

  lemma AddedLiquidation(
    env: Env, published: Option<OperatorId>, t: Tables, owner: Address, ids: seq<OperatorId>, pubkey: Option<Pubkey>,
    shares: Option<SharePayload>, c: ClusterId)
    requires KeysUnique(t.operators)
    ensures IsLiquidated(HandleValidatorAdded(env, published, t, owner, ids, pubkey, shares).t, c)
            <==> IsLiquidated(t, c)
  {
    hide ValidOperators, ShareRows, InsertValidator, OwnIdTx, IsLiquidated;
    var t1 := BumpNonce(t, owner);
    BumpLiquidation(t, owner, c);
    if Accepted(env, t1, BumpedNonce(t.owners, owner), owner, ids, pubkey, shares) {
      var d := Cid(owner, ids);
      InsertLiquidation(t1, d, pubkey.value, ShareRows(d, ids, shares.value.keys), c);
    }
  }

  lemma BumpLiquidation(t: Tables, owner: Address, c: ClusterId)
    ensures IsLiquidated(BumpNonce(t, owner), c) <==> IsLiquidated(t, c)
  {
  }

  lemma RemovedLiquidation(t: Tables, owner: Address, pubkey: Option<Pubkey>, c: ClusterId)
    ensures var t' := HandleValidatorRemoved(t, owner, pubkey).t;
            IsLiquidated(t', c) <==> c in t'.clusters && IsLiquidated(t, c)
  {
    hide Swept;
  }

  lemma StatusLiquidation(t: Tables, d: ClusterId, liquidated: bool, c: ClusterId)
    ensures var t' := SetLiquidated(t, d, liquidated);
            (c in t'.clusters <==> c in t.clusters)
            && (IsLiquidated(t', c) <==> if c == d then c in t.clusters && liquidated else IsLiquidated(t, c))
  {
  }

  // A stored cluster is liquidated by its liquidation alone, until its reactivation; a cluster that
  // is stored anew is not.
  lemma EventLiquidation(env: Env, published: Option<OperatorId>, t: Tables, e: Event, c: ClusterId)
    requires KeysUnique(t.operators) && !Handle(env, published, t, e).outcome.Aborted?
    ensures var t' := Handle(env, published, t, e).t;
            IsLiquidated(t', c)
            <==> c in t'.clusters && (SetsStatus(e, c, true) || (IsLiquidated(t, c) && !SetsStatus(e, c, false)))
  {
    hide HandleOperatorAdded, HandleOperatorRemoved, HandleValidatorAdded, HandleValidatorRemoved, SetLiquidated;
    match e
    case OperatorAdded(id, owner, key) => AddedClusters(t, id, owner, key, env.own);
    case OperatorRemoved(id) => RemovedClusters(t, id);
    case ValidatorAdded(owner, ids, pubkey, shares) =>
      AddedLiquidation(env, published, t, owner, ids, pubkey, shares, c);
    case ValidatorRemoved(owner, _, pubkey) => RemovedLiquidation(t, owner, pubkey, c);
    case ClusterLiquidated(owner, ids) => StatusLiquidation(t, Cid(owner, ids), true, c);
    case ClusterReactivated(owner, ids) => StatusLiquidation(t, Cid(owner, ids), false, c);
    case _ =>
  }

  lemma AddedClusters(t: Tables, id: OperatorId, owner: Address, key: Option<RsaKey>, own: PubkeyOrId)
    ensures HandleOperatorAdded(t, id, owner, key, own).t.clusters == t.clusters
  {
  }

  lemma RemovedClusters(t: Tables, id: OperatorId)
    ensures HandleOperatorRemoved(t, id).t.clusters == t.clusters
  {
  }
}
