/**
 One event at a time: replaying its updates keeps the in-memory state in agreement with the tables,
 except for liquidation flags and our own identity, for which it is stated exactly what becomes of them.
 */
module EventMirror {
  import opened Wrappers
  import opened OperatorIds
  import opened NetworkTables
  import opened NetworkState
  import opened MirrorSteps
  import opened EventHandlers

  // What holds whatever the events: only the liquidation flags and our own identity can go wrong.
  ghost predicate BaseAgrees(t: Tables, st: State) {
    CoreAgrees(t, st) && ClustersAgree(t, st)
  }

  // The base holds again; the flags that are wrong are the ones told; the identity, if right before,
  // is right exactly when told.
  ghost predicate Follows(
    own: PubkeyOrId, t: Tables, st: State, t': Tables, st': State, wrong: set<ClusterId>, identity: bool)
  {
    && BaseAgrees(t', st') && KeysUnique(t.operators) && KeysUnique(t'.operators) && Wrong(t', st') == wrong
    && (OwnAgrees(own, t, st) ==> (OwnAgrees(own, t', st') <==> identity))
  }

  lemma OneUpdate(st: State, u: StateUpdate)
    ensures ApplyAll(st, [u]) == Apply(st, u)
  {
    assert [u][..0] == [];
  }

  lemma TwoUpdates(st: State, u: StateUpdate, w: StateUpdate)
    requires Apply(st, u).Some?
    ensures ApplyAll(st, [u, w]) == Apply(Apply(st, u).value, w)
  {
    assert [u, w][..1] == [u];
    OneUpdate(st, u);
  }

  lemma FollowsSelf(own: PubkeyOrId, t: Tables, st: State)
    requires KeysUnique(t.operators) && BaseAgrees(t, st)
    ensures ApplyAll(st, []) == Some(st) && Follows(own, t, st, t, st, Wrong(t, st), true)
  {
  }

  lemma FollowsOne(own: PubkeyOrId, t: Tables, st: State, t': Tables, u: StateUpdate, wrong: set<ClusterId>)
    requires Apply(st, u).Some? && Follows(own, t, st, t', Apply(st, u).value, wrong, true)
    ensures ApplyAll(st, [u]).Some? && Follows(own, t, st, t', ApplyAll(st, [u]).value, wrong, true)
  {
    assert [u][..0] == [];
  }

  lemma FollowsTwice(
    own: PubkeyOrId, t: Tables, st: State, t1: Tables, st1: State, t2: Tables, st2: State,
    wrong: set<ClusterId>, wrong': set<ClusterId>)
    requires Follows(own, t, st, t1, st1, wrong, true) && Follows(own, t1, st1, t2, st2, wrong', true)
    ensures Follows(own, t, st, t2, st2, wrong', true)
  {
    hide BaseAgrees, OwnAgrees;
  }

  // ---------- operators ----------

  lemma InsertOperatorFollows(env: Env, t: Tables, st: State, id: OperatorId, key: RsaKey, owner: Address)
    requires Sound(env.ok, t) && BaseAgrees(t, st) && id !in t.operators && !KeyTaken(t.operators, key)
    ensures var u := InsertOperatorUpdate(Operator(id, key, owner), IsOwn(env.own, id, key));
            Follows(env.own, t, st, InsertOperator(t, id, key, owner), Apply(st, u).value, Wrong(t, st), true)
  {
    InsertOperatorCore(t, st, id, key, owner, IsOwn(env.own, id, key));
    InsertOperatorOwnId(env.own, t.operators, id, OperatorRow(key, owner, false));
    if OwnAgrees(env.own, t, st) {
      InsertOperatorOwn(env.own, env.ok, t, st, id, key, owner);
    }
  }

  lemma SetMaxFollows(env: Env, t: Tables, st: State, id: OperatorId)
    requires Sound(env.ok, t) && BaseAgrees(t, st) && t.maxOperatorId.value <= id
    ensures var t1 := t.(maxOperatorId := Some(id));
            && Sound(env.ok, t1)
            && Follows(env.own, t, st, t1, Apply(st, SetMaxOperatorIdSeen(id)).value, Wrong(t, st), true)
  {
    hide ClustersSound, MembersSound, SharesSound, OperatorsAgree, NoncesAgree, MetadataAgrees;
  }

  lemma OperatorAddedFollows(env: Env, t: Tables, st: State, id: OperatorId, owner: Address, key: Option<RsaKey>)
    requires Sound(env.ok, t) && BaseAgrees(t, st)
    ensures var h := HandleOperatorAdded(t, id, owner, key, env.own);
            && ApplyAll(st, h.us).Some?
            && Follows(env.own, t, st, h.t, ApplyAll(st, h.us).value, Wrong(t, st), true)
  {
    if !Active(t.operators, id) && t.maxOperatorId.value + 1 == id {
      var t1, st1 := t.(maxOperatorId := Some(id)), Apply(st, SetMaxOperatorIdSeen(id)).value;
      SetMaxFollows(env, t, st, id);
      if key.None? || KeyTaken(t.operators, key.value) {
        OneUpdate(st, SetMaxOperatorIdSeen(id));
      } else {
        var u := InsertOperatorUpdate(Operator(id, key.value, owner), IsOwn(env.own, id, key.value));
        var t2, st2 := InsertOperator(t1, id, key.value, owner), Apply(st1, u).value;
        TwoUpdates(st, SetMaxOperatorIdSeen(id), u);
        InsertOperatorFollows(env, t1, st1, id, key.value, owner);
        FollowsTwice(env.own, t, st, t1, st1, t2, st2, Wrong(t, st), Wrong(t, st));
      }
    }
  }

  predicate RemovesOwn(own: PubkeyOrId, t: Tables, e: Event) {
    e.OperatorRemoved? && e.id !in t.skipped && Active(t.operators, e.id) && own == OwnKey(t.operators[e.id].key)
  }

  lemma DeleteOperatorFollows(own: PubkeyOrId, t: Tables, st: State, id: OperatorId)
    requires KeysUnique(t.operators) && BaseAgrees(t, st) && Active(t.operators, id)
    ensures Follows(own, t, st, DeleteOperator(t, id), Apply(st, DeleteOperatorUpdate(id)).value,
                    Wrong(t, st), own != OwnKey(t.operators[id].key))
  {
    DeleteOperatorCore(t, st, id);
    if OwnAgrees(own, t, st) {
      DeleteOperatorOwn(own, t, st, id);
    }
  }

  lemma OperatorRemovedFollows(env: Env, t: Tables, st: State, id: OperatorId)
    requires KeysUnique(t.operators) && BaseAgrees(t, st)
    ensures var h := HandleOperatorRemoved(t, id);
            && ApplyAll(st, h.us).Some?
            && Follows(env.own, t, st, h.t, ApplyAll(st, h.us).value,
                       Wrong(t, st), !RemovesOwn(env.own, t, OperatorRemoved(id)))
  {
    if id !in t.skipped && Active(t.operators, id) {
      OneUpdate(st, DeleteOperatorUpdate(id));
      DeleteOperatorFollows(env.own, t, st, id);
    }
  }

  // ---------- validators ----------

  lemma BumpFollows(env: Env, t: Tables, st: State, owner: Address)
    requires KeysUnique(t.operators) && BaseAgrees(t, st)
    ensures var u := SetOwnerNonce(owner, BumpedNonce(t.owners, owner));
            && ApplyAll(st, [u]) == Apply(st, u)
            && Follows(env.own, t, st, BumpNonce(t, owner), Apply(st, u).value, Wrong(t, st), true)
  {
    hide CoreAgrees, ClusterMapAgrees, HoldingsAgree;
    OneUpdate(st, SetOwnerNonce(owner, BumpedNonce(t.owners, owner)));
    BumpNonceCore(t, st, owner);
    BumpNonceClusters(t, st, owner);
  }

  lemma InsertFollows(
    env: Env, id: Option<OperatorId>, t: Tables, st: State, c: ClusterId, v: Pubkey, rows: map<OperatorId, ShareRow>)
    requires Sound(env.ok, t) && BaseAgrees(t, st) && Insertable(env.ok, t, c, v, rows) && c.owner in t.owners
    requires OwnAgrees(env.own, t, st) ==> id == st.id
    ensures Follows(env.own, t, st, InsertValidator(t, c, v, rows), Apply(st, InsertUpdate(t, id, c, v, rows)).value,
                    WrongAfterJoin(t, c, Wrong(t, st)), true)
  {
    assert MembersOf(t.members, c) + rows.Keys == c.Members();
    InsertValidatorCore(t, st, id, c, v, rows);
    InsertValidatorClustersAgree(t, st, id, c, v, rows);
    InsertValidatorFlags(t, st, id, c, v, rows);
    if OwnAgrees(env.own, t, st) {
      InsertValidatorOwn(env.own, t, st, c, v, rows);
    }
  }

  function WrongAfterRegister(
    env: Env, t: Tables, nonce: nat, owner: Address, ids: seq<OperatorId>, pubkey: Option<Pubkey>,
    shares: Option<SharePayload>, wrong: set<ClusterId>): set<ClusterId>
  {
    if env.mode.Node? && Accepted(env, t, nonce, owner, ids, pubkey, shares)
    then WrongAfterJoin(t, Cid(owner, ids), wrong) else wrong
  }

  lemma AcceptedFollows(
    env: Env, published: Option<OperatorId>, t: Tables, st: State, nonce: nat,
    owner: Address, ids: seq<OperatorId>, pubkey: Option<Pubkey>, shares: Option<SharePayload>)
    requires Sound(env.ok, t) && BaseAgrees(t, st) && owner in t.owners
    requires Accepted(env, t, nonce, owner, ids, pubkey, shares) && (published.Some? ==> st.id == published)
    ensures var c, id := Cid(owner, ids), OwnIdTx(env.own, published, t.operators);
            var rows := ShareRows(c, ids, shares.value.keys);
            var u := InsertUpdate(t, id, c, pubkey.value, rows);
            Follows(env.own, t, st, InsertValidator(t, c, pubkey.value, rows), Apply(st, u).value,
                    WrongAfterJoin(t, c, Wrong(t, st)), true)
  {
    hide Follows, BaseAgrees, ClustersSound, MembersSound, SharesSound, HoldingsAgree, Insertable;
    var c, id := Cid(owner, ids), OwnIdTx(env.own, published, t.operators);
    AcceptedInsertable(env, t, nonce, owner, ids, pubkey, shares);
    InsertFollows(env, id, t, st, c, pubkey.value, ShareRows(c, ids, shares.value.keys));
  }

  lemma RegisterFollows(
    env: Env, published: Option<OperatorId>, t: Tables, st: State, nonce: nat,
    owner: Address, ids: seq<OperatorId>, pubkey: Option<Pubkey>, shares: Option<SharePayload>)
    requires Sound(env.ok, t) && BaseAgrees(t, st) && owner in t.owners
    requires published.Some? ==> st.id == published
    ensures var h := Register(env, published, t, nonce, owner, ids, pubkey, shares);
            && ApplyAll(st, h.us).Some?
            && Follows(env.own, t, st, h.t, ApplyAll(st, h.us).value,
                       WrongAfterRegister(env, t, nonce, owner, ids, pubkey, shares, Wrong(t, st)), true)
  {
    hide Follows, BaseAgrees, ClustersSound, MembersSound, SharesSound, WrongAfterJoin, Wrong;
    if env.mode.Node? && Accepted(env, t, nonce, owner, ids, pubkey, shares) {
      var h := Register(env, published, t, nonce, owner, ids, pubkey, shares);
      AcceptedFollows(env, published, t, st, nonce, owner, ids, pubkey, shares);
      FollowsOne(env.own, t, st, h.t, h.us[0], WrongAfterJoin(t, Cid(owner, ids), Wrong(t, st)));
    } else {
      FollowsSelf(env.own, t, st);
    }
  }

  // The event registers a validator: it passes every check and the node is not splitting keys.
  predicate Joins(env: Env, t: Tables, e: Event) {
    && e.ValidatorAdded? && env.mode.Node?
    && Accepted(env, BumpNonce(t, e.owner), BumpedNonce(t.owners, e.owner), e.owner, e.operators, e.pubkey, e.shares)
  }

  lemma ValidatorAddedFollows(env: Env, published: Option<OperatorId>, t: Tables, st: State, e: Event)
    requires Sound(env.ok, t) && BaseAgrees(t, st) && e.ValidatorAdded? && !AbortCause(t, e)
    requires published.Some? ==> st.id == published
    ensures var h := Handle(env, published, t, e);
            && ApplyAll(st, h.us).Some?
            && Follows(env.own, t, st, h.t, ApplyAll(st, h.us).value, WrongAfter(env, t, e, Wrong(t, st)), true)
  {
    hide CoreAgrees, ClustersAgree, OwnAgrees, ClustersSound, MembersSound, SharesSound, Accepted, Register, WrongFlags;
    var nonce, t1 := BumpedNonce(t.owners, e.owner), BumpNonce(t, e.owner);
    var u := SetOwnerNonce(e.owner, nonce);
    var st1 := Apply(st, u).value;
    BumpFollows(env, t, st, e.owner);
    BumpSound(env.ok, t, e.owner);
    RegisterFollows(env, published, t1, st1, nonce, e.owner, e.operators, e.pubkey, e.shares);
    var h := Register(env, published, t1, nonce, e.owner, e.operators, e.pubkey, e.shares);
    ApplyAllSplit(st, [u], h.us);
    FollowsTwice(env.own, t, st, t1, st1, h.t, ApplyAll(st1, h.us).value, Wrong(t, st),
      WrongAfter(env, t, e, Wrong(t, st)));
  }

  lemma DeleteFollows(env: Env, t: Tables, st: State, v: Pubkey)
    requires Sound(env.ok, t) && BaseAgrees(t, st) && v in t.validators
    ensures var u := DeleteValidatorUpdate(v);
            && Apply(st, u).Some?
            && Follows(env.own, t, st, DeleteValidator(t, v), Apply(st, u).value,
                       Wrong(t, st) * DeleteValidator(t, v).clusters.Keys, true)
  {
    hide CoreAgrees, ClusterMapAgrees, SharesSound, MembersSound, Apply, HoldingsAgree, WrongFlags;
    DeleteValidatorCore(t, st, v);
    DeleteValidatorClustersAgree(t, st, v);
    SweptOwnId(env.own, t.operators, t.members, t.validators[v]);
    if OwnAgrees(env.own, t, st) {
      DeleteValidatorOwn(env.own, env.ok, t, st, v);
    }
  }

  lemma ValidatorRemovedFollows(env: Env, t: Tables, st: State, owner: Address, pubkey: Option<Pubkey>)
    requires Sound(env.ok, t) && BaseAgrees(t, st)
    ensures var h := HandleValidatorRemoved(t, owner, pubkey);
            && ApplyAll(st, h.us).Some?
            && Follows(env.own, t, st, h.t, ApplyAll(st, h.us).value, Wrong(t, st) * h.t.clusters.Keys, true)
  {
    hide BaseAgrees, Follows, ClustersSound, MembersSound, SharesSound;
    var h := HandleValidatorRemoved(t, owner, pubkey);
    if h.outcome.Done? {
      OneUpdate(st, DeleteValidatorUpdate(pubkey.value));
      DeleteFollows(env, t, st, pubkey.value);
    } else {
      assert Wrong(t, st) * t.clusters.Keys == Wrong(t, st);
      FollowsSelf(env.own, t, st);
    }
  }

  // ---------- clusters ----------

  lemma StatusFollows(env: Env, t: Tables, st: State, c: ClusterId, liquidated: bool)
    requires KeysUnique(t.operators) && BaseAgrees(t, st)
    ensures var u := UpdateClusterStatus(c, liquidated);
            && ApplyAll(st, [u]) == Apply(st, u)
            && Follows(env.own, t, st, SetLiquidated(t, c, liquidated), Apply(st, u).value, Wrong(t, st) - {c}, true)
  {
    hide CoreAgrees, ClusterMapAgrees, HoldingsAgree, WrongFlags;
    OneUpdate(st, UpdateClusterStatus(c, liquidated));
    SetLiquidatedCore(t, st, c, liquidated);
    SetLiquidatedClusters(t, st, c, liquidated);
  }

  lemma FeeFollows(env: Env, t: Tables, st: State, owner: Address, fee: Address)
    requires Sound(env.ok, t) && BaseAgrees(t, st)
    ensures var u := UpdateFeeRecipient(owner, fee);
            && ApplyAll(st, [u]) == Apply(st, u)
            && Follows(env.own, t, st, SetFeeRecipient(t, owner, fee), Apply(st, u).value, Wrong(t, st), true)
  {
    hide CoreAgrees, ClusterMapAgrees, HoldingsAgree, WrongFlags, MembersSound, SharesSound, HasValidator;
    OneUpdate(st, UpdateFeeRecipient(owner, fee));
    SetFeeRecipientCore(t, st, owner, fee);
    SetFeeRecipientClusters(t, st, owner, fee);
  }

  // ---------- all events ----------

  // The clusters with a wrong flag after an event, told without looking at the state in memory.
  function WrongAfter(env: Env, t: Tables, e: Event, wrong: set<ClusterId>): set<ClusterId> {
    match e
    case ValidatorAdded(owner, ids, _, _) =>
      if Joins(env, t, e) then WrongAfterJoin(t, Cid(owner, ids), wrong) else wrong
    case ValidatorRemoved(owner, _, pubkey) => wrong * HandleValidatorRemoved(t, owner, pubkey).t.clusters.Keys
    case ClusterLiquidated(owner, ids) => wrong - {Cid(owner, ids)}
    case ClusterReactivated(owner, ids) => wrong - {Cid(owner, ids)}
    case _ => wrong
  }

  // Replaying the updates of any event that does not abort never panics and keeps the base. Flags go
  // wrong only where a validator joins a liquidated cluster, and our identity exactly when the operator
  // with our key is removed.
  lemma EventFollows(env: Env, published: Option<OperatorId>, t: Tables, st: State, e: Event)
    requires Sound(env.ok, t) && BaseAgrees(t, st) && !AbortCause(t, e)
    requires published.Some? ==> st.id == published
    ensures var h := Handle(env, published, t, e);
            && ApplyAll(st, h.us).Some?
            && Follows(env.own, t, st, h.t, ApplyAll(st, h.us).value,
                       WrongAfter(env, t, e, Wrong(t, st)), !RemovesOwn(env.own, t, e))
  {
    hide Follows, BaseAgrees, Wrong, WrongAfterJoin, ClustersSound, MembersSound, SharesSound;
    hide HandleOperatorAdded, HandleOperatorRemoved, HandleValidatorAdded, HandleValidatorRemoved;
    match e
    case OperatorAdded(id, owner, key) => OperatorAddedFollows(env, t, st, id, owner, key);
    case OperatorRemoved(id) => OperatorRemovedFollows(env, t, st, id);
    case ValidatorAdded(_, _, _, _) => ValidatorAddedFollows(env, published, t, st, e);
    case ValidatorRemoved(owner, _, pubkey) => ValidatorRemovedFollows(env, t, st, owner, pubkey);
    case ClusterLiquidated(owner, ids) => StatusFollows(env, t, st, Cid(owner, ids), true);
    case ClusterReactivated(owner, ids) => StatusFollows(env, t, st, Cid(owner, ids), false);
    case FeeRecipientUpdated(owner, fee) => FeeFollows(env, t, st, owner, fee);
    case _ => FollowsSelf(env.own, t, st);
  }
}
