/**
 The handlers of contract events (eth/src/event_processor.rs): each reads the transaction's tables,
 changes them, and queues the updates to replay on the in-memory state after the commit.
 Cryptographic checks and decoding are parameters: an event carries what decoding makes of its bytes.
 */
module EventHandlers {
  import opened Wrappers
  import opened OperatorIds
  import opened NetworkTables
  import opened NetworkState
  import opened MirrorSteps

  datatype Mode = Node | KeySplit

  // Who we are, what we are running for, and the checks of signatures and of share keys.
  datatype Env = Env(own: PubkeyOrId, mode: Mode, ok: ShareCheck, signed: (int, nat, Address, Pubkey) -> bool)

  datatype ShareKey = ShareKey(pubkey: Pubkey, encrypted: int)
  datatype SharePayload = SharePayload(signature: int, keys: seq<ShareKey>)

  datatype Event =
    | OperatorAdded(id: OperatorId, owner: Address, key: Option<RsaKey>)
    | OperatorRemoved(id: OperatorId)
    | ValidatorAdded(owner: Address, operators: seq<OperatorId>, pubkey: Option<Pubkey>, shares: Option<SharePayload>)
    | ValidatorRemoved(owner: Address, operators: seq<OperatorId>, pubkey: Option<Pubkey>)
    | ClusterLiquidated(owner: Address, operators: seq<OperatorId>)
    | ClusterReactivated(owner: Address, operators: seq<OperatorId>)
    | FeeRecipientUpdated(owner: Address, recipient: Address)
    | ValidatorExited
    | Undecodable
    | Unknown

  // A skipped event may have changed the tables; an abort undoes the whole block.
  datatype Outcome = Done | Skipped | Aborted

  datatype Handled = Handled(t: Tables, us: seq<StateUpdate>, outcome: Outcome)

  function Cid(owner: Address, operators: seq<OperatorId>): ClusterId {
    ClusterId(owner, multiset(operators))
  }

  // ---------- operators ----------

  function HandleOperatorAdded(
    t: Tables, id: OperatorId, owner: Address, key: Option<RsaKey>, own: PubkeyOrId): Handled
  {
    if Active(t.operators, id) then Handled(t, [], Skipped)
    else if t.maxOperatorId.Some? && t.maxOperatorId.value + 1 != id then Handled(t, [], Skipped)
    else
      var t1 := t.(maxOperatorId := Some(id));
      if key.None? || KeyTaken(t.operators, key.value) then
        Handled(t1.(skipped := t.skipped + {id}), [SetMaxOperatorIdSeen(id)], Skipped)
      else if id in t.operators then Handled(t, [], Aborted)
      else
        Handled(InsertOperator(t1, id, key.value, owner),
                [SetMaxOperatorIdSeen(id),
                  InsertOperatorUpdate(Operator(id, key.value, owner), IsOwn(own, id, key.value))], Done)
  }

  function HandleOperatorRemoved(t: Tables, id: OperatorId): Handled {
    if id in t.skipped then Handled(t.(skipped := t.skipped - {id}), [], Skipped)
    else if !Active(t.operators, id) then Handled(t, [], Aborted)
    else Handled(DeleteOperator(t, id), [DeleteOperatorUpdate(id)], Done)
  }

  // ---------- validators ----------

  predicate ValidOperators(ops: Operators, ids: seq<OperatorId>) {
    |ids| in {4, 7, 10, 13} && Distinct(ids) && forall i :: 0 <= i < |ids| ==> Active(ops, ids[i])
  }

  function ShareRows(c: ClusterId, ids: seq<OperatorId>, keys: seq<ShareKey>): map<OperatorId, ShareRow>
    requires |ids| == |keys|
  {
    if ids == [] then map[]
    else
      var n := |ids| - 1;
      ShareRows(c, ids[..n], keys[..n])[ids[n] := ShareRow(c, keys[n].pubkey, keys[n].encrypted)]
  }

  // What the checks leave to insert; the nonce is the one the event itself consumed.
  predicate Accepted(
    env: Env, t: Tables, nonce: nat, owner: Address, ids: seq<OperatorId>, pubkey: Option<Pubkey>,
    shares: Option<SharePayload>)
  {
    && pubkey.Some? && ValidOperators(t.operators, ids)
    && shares.Some? && |shares.value.keys| == |ids| && env.signed(shares.value.signature, nonce, owner, pubkey.value)
    && env.ok(pubkey.value, ShareRows(Cid(owner, ids), ids, shares.value.keys))
    && pubkey.value !in t.validators
  }

  // The published state's own id, or what the transaction says it is.
  function OwnIdTx(own: PubkeyOrId, published: Option<OperatorId>, ops: Operators): Option<OperatorId>
    requires KeysUnique(ops)
  {
    if published.Some? then published else OwnId(own, ops)
  }

  // What happens after the nonce is taken. Splitting keys needs the nonces only.
  function Register(
    env: Env, published: Option<OperatorId>, t: Tables, nonce: nat,
    owner: Address, ids: seq<OperatorId>, pubkey: Option<Pubkey>, shares: Option<SharePayload>): Handled
    requires KeysUnique(t.operators)
  {
    if env.mode.KeySplit? then Handled(t, [], Done)
    else if !Accepted(env, t, nonce, owner, ids, pubkey, shares) then Handled(t, [], Skipped)
    else
      var c := Cid(owner, ids);
      var rows := ShareRows(c, ids, shares.value.keys);
      Handled(InsertValidator(t, c, pubkey.value, rows),
              [InsertUpdate(t, OwnIdTx(env.own, published, t.operators), c, pubkey.value, rows)], Done)
  }

  function HandleValidatorAdded(
    env: Env, published: Option<OperatorId>, t: Tables,
    owner: Address, ids: seq<OperatorId>, pubkey: Option<Pubkey>, shares: Option<SharePayload>): Handled
    requires KeysUnique(t.operators)
  {
    var nonce := BumpedNonce(t.owners, owner);
    if nonce > MAX_NONCE then Handled(t, [], Aborted)
    else
      var h := Register(env, published, BumpNonce(t, owner), nonce, owner, ids, pubkey, shares);
      h.(us := [SetOwnerNonce(owner, nonce)] + h.us)
  }

  function HandleValidatorRemoved(t: Tables, owner: Address, pubkey: Option<Pubkey>): Handled {
    if pubkey.None? || pubkey.value !in t.validators || t.validators[pubkey.value] !in t.clusters
    then Handled(t, [], Skipped)
    else if owner != t.clusters[t.validators[pubkey.value]].owner then Handled(t, [], Skipped)
    else Handled(DeleteValidator(t, pubkey.value), [DeleteValidatorUpdate(pubkey.value)], Done)
  }

  // ---------- all events ----------

  function Handle(env: Env, published: Option<OperatorId>, t: Tables, e: Event): Handled
    requires KeysUnique(t.operators)
  {
    match e
    case OperatorAdded(id, owner, key) => HandleOperatorAdded(t, id, owner, key, env.own)
    case OperatorRemoved(id) => HandleOperatorRemoved(t, id)
    case ValidatorAdded(owner, ids, pubkey, shares) =>
      HandleValidatorAdded(env, published, t, owner, ids, pubkey, shares)
    case ValidatorRemoved(owner, _, pubkey) => HandleValidatorRemoved(t, owner, pubkey)
    case ClusterLiquidated(owner, ids) =>
      Handled(SetLiquidated(t, Cid(owner, ids), true), [UpdateClusterStatus(Cid(owner, ids), true)], Done)
    case ClusterReactivated(owner, ids) =>
      Handled(SetLiquidated(t, Cid(owner, ids), false), [UpdateClusterStatus(Cid(owner, ids), false)], Done)
    case FeeRecipientUpdated(owner, fee) =>
      Handled(SetFeeRecipient(t, owner, fee), [UpdateFeeRecipient(owner, fee)], Done)
    case ValidatorExited => Handled(t, [], Done)
    case Undecodable => Handled(t, [], Skipped)
    case Unknown => Handled(t, [], Skipped)
  }

  // ---------- what every handler keeps ----------

  lemma {:induction false} ShareRowsKeys(c: ClusterId, ids: seq<OperatorId>, keys: seq<ShareKey>)
    requires |ids| == |keys|
    ensures forall o :: o in ShareRows(c, ids, keys) <==> o in ids
    ensures forall o | o in ShareRows(c, ids, keys) :: ShareRows(c, ids, keys)[o].cluster == c
    decreases |ids|
  {
    if ids != [] {
      var n := |ids| - 1;
      ShareRowsKeys(c, ids[..n], keys[..n]);
      assert ids == ids[..n] + [ids[n]];
    }
  }

  // The i-th operator gets the i-th key, and there is no other row.
  ghost predicate Paired(c: ClusterId, ids: seq<OperatorId>, keys: seq<ShareKey>, rows: map<OperatorId, ShareRow>) {
    && |ids| == |keys| && (forall o :: o in rows <==> o in ids)
    && forall i :: 0 <= i < |ids| && ids[i] in rows ==> rows[ids[i]] == ShareRow(c, keys[i].pubkey, keys[i].encrypted)
  }

  lemma {:induction false} ShareRowsPaired(c: ClusterId, ids: seq<OperatorId>, keys: seq<ShareKey>)
    requires |ids| == |keys| && Distinct(ids)
    ensures Paired(c, ids, keys, ShareRows(c, ids, keys))
    decreases |ids|
  {
    ShareRowsKeys(c, ids, keys);
    if ids != [] {
      var n := |ids| - 1;
      ShareRowsPaired(c, ids[..n], keys[..n]);
      var rows, before := ShareRows(c, ids, keys), ShareRows(c, ids[..n], keys[..n]);
      forall i | 0 <= i < |ids|
        ensures rows[ids[i]] == ShareRow(c, keys[i].pubkey, keys[i].encrypted)
      {
        if i < n {
          assert ids[..n][i] in before;
        }
      }
    }
  }

  lemma PairedUnique(
    c: ClusterId, ids: seq<OperatorId>, keys: seq<ShareKey>, a: map<OperatorId, ShareRow>, b: map<OperatorId, ShareRow>)
    requires Paired(c, ids, keys, a) && Paired(c, ids, keys, b)
    ensures a == b
  {
    forall o | o in a
      ensures o in b && a[o] == b[o]
    {
      var i :| 0 <= i < |ids| && ids[i] == o;
    }
  }

  // An accepted event fits the schema: its shares are one per member of its cluster.
  lemma AcceptedInsertable(
    env: Env, t: Tables, nonce: nat, owner: Address, ids: seq<OperatorId>, pubkey: Option<Pubkey>,
    shares: Option<SharePayload>)
    requires Accepted(env, t, nonce, owner, ids, pubkey, shares)
    ensures var c := Cid(owner, ids); Insertable(env.ok, t, c, pubkey.value, ShareRows(c, ids, shares.value.keys))
  {
    var c := Cid(owner, ids);
    var rows := ShareRows(c, ids, shares.value.keys);
    ShareRowsKeys(c, ids, shares.value.keys);
    forall o
      ensures o in c.Members() <==> o in ids
    {
      assert o in multiset(ids) <==> o in ids;
    }
    assert rows.Keys == c.Members();
    assert ids[0] in c.Members();
    forall o | o in c.Members()
      ensures o in t.operators
    {
      var i :| 0 <= i < |ids| && ids[i] == o;
    }
  }

  lemma OperatorAddedSound(
    ok: ShareCheck, t: Tables, id: OperatorId, owner: Address, key: Option<RsaKey>, own: PubkeyOrId)
    requires Sound(ok, t)
    ensures var h := HandleOperatorAdded(t, id, owner, key, own); !h.outcome.Aborted? && Sound(ok, h.t)
  {
    if !Active(t.operators, id) && t.maxOperatorId.value + 1 == id {
      var t1 := t.(maxOperatorId := Some(id));
      assert Sound(ok, t1);
      assert id !in t.operators && id !in t.skipped;
      if key.Some? && !KeyTaken(t.operators, key.value) {
        InsertOperatorSound(ok, t1, id, key.value, owner);
      }
    }
  }

  lemma OperatorRemovedSound(ok: ShareCheck, t: Tables, id: OperatorId)
    requires Sound(ok, t)
    ensures Sound(ok, HandleOperatorRemoved(t, id).t)
  {
    if id !in t.skipped && Active(t.operators, id) {
      DeleteOperatorSound(ok, t, id);
    }
  }

  lemma BumpSound(ok: ShareCheck, t: Tables, owner: Address)
    requires Sound(ok, t)
    ensures Sound(ok, BumpNonce(t, owner)) && owner in BumpNonce(t, owner).owners
  {
  }

  lemma RegisterSound(
    env: Env, published: Option<OperatorId>, t: Tables, nonce: nat,
    owner: Address, ids: seq<OperatorId>, pubkey: Option<Pubkey>, shares: Option<SharePayload>)
    requires Sound(env.ok, t)
    ensures Sound(env.ok, Register(env, published, t, nonce, owner, ids, pubkey, shares).t)
  {
    hide ClustersSound, MembersSound, SharesSound, Insertable;
    if Accepted(env, t, nonce, owner, ids, pubkey, shares) {
      AcceptedInsertable(env, t, nonce, owner, ids, pubkey, shares);
      InsertValidatorSound(env.ok, t, Cid(owner, ids), pubkey.value,
        ShareRows(Cid(owner, ids), ids, shares.value.keys));
    }
  }

  lemma ValidatorAddedSound(
    env: Env, published: Option<OperatorId>, t: Tables,
    owner: Address, ids: seq<OperatorId>, pubkey: Option<Pubkey>, shares: Option<SharePayload>)
    requires Sound(env.ok, t)
    ensures Sound(env.ok, HandleValidatorAdded(env, published, t, owner, ids, pubkey, shares).t)
  {
    BumpSound(env.ok, t, owner);
    RegisterSound(env, published, BumpNonce(t, owner), BumpedNonce(t.owners, owner), owner, ids, pubkey, shares);
    hide ClustersSound, MembersSound, SharesSound, Register;
  }

  lemma ValidatorRemovedSound(ok: ShareCheck, t: Tables, owner: Address, pubkey: Option<Pubkey>)
    requires Sound(ok, t)
    ensures Sound(ok, HandleValidatorRemoved(t, owner, pubkey).t)
  {
    if pubkey.Some? && pubkey.value in t.validators {
      DeleteValidatorSound(ok, t, pubkey.value);
    }
  }

  // What makes an event abort its block: the removal of an operator that is not there, or an owner
  // that has used up its nonces.
  predicate AbortCause(t: Tables, e: Event) {
    match e
    case OperatorRemoved(id) => id !in t.skipped && !Active(t.operators, id)
    case ValidatorAdded(owner, _, _, _) => NonceOf(t.owners, owner).Some? && NonceOf(t.owners, owner).value >= MAX_NONCE
    case _ => false
  }

  // Every event keeps the tables sound, and no constraint of the schema ever aborts a block.
  lemma HandleSound(env: Env, published: Option<OperatorId>, t: Tables, e: Event)
    requires Sound(env.ok, t)
    ensures var h := Handle(env, published, t, e); Sound(env.ok, h.t) && (h.outcome.Aborted? <==> AbortCause(t, e))
  {
    hide ClustersSound, MembersSound, SharesSound, Accepted, ShareRows, Swept, InsertValidator;
    match e
    case OperatorAdded(id, owner, key) => OperatorAddedSound(env.ok, t, id, owner, key, env.own);
    case OperatorRemoved(id) => OperatorRemovedSound(env.ok, t, id);
    case ValidatorAdded(owner, ids, pubkey, shares) =>
      ValidatorAddedSound(env, published, t, owner, ids, pubkey, shares);
    case ValidatorRemoved(owner, _, pubkey) => ValidatorRemovedSound(env.ok, t, owner, pubkey);
    case ClusterLiquidated(owner, ids) => SetLiquidatedSound(env.ok, t, Cid(owner, ids), true);
    case ClusterReactivated(owner, ids) => SetLiquidatedSound(env.ok, t, Cid(owner, ids), false);
    case _ =>
  }
}
