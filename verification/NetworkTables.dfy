/**
 The relational state of the SSV network (database/src): one map or set per table, one function per
 statement, with the cascades and triggers of the schema written out. A table with a composite key is
 a map of maps, grouped by the first part of the key. The number of the last processed block is kept
 beside the tables.
 Addresses, keys and share material are identifiers compared for equality. A cluster id stands for its
 hash preimage, owner and operator ids, so distinct preimages are distinct ids.
 */
module NetworkTables {
  import opened Wrappers
  import opened OperatorIds

  type Address = int
  type Pubkey = int
  type RsaKey = int

  datatype ClusterId = ClusterId(owner: Address, operators: multiset<OperatorId>)
  {
    function Members(): set<OperatorId> {
      set o | o in operators
    }
  }

  datatype OwnerRow = OwnerRow(feeRecipient: Option<Address>, nonce: Option<nat>)
  datatype OperatorRow = OperatorRow(key: RsaKey, owner: Address, removed: bool)
  datatype ClusterRow = ClusterRow(owner: Address, liquidated: bool)
  datatype ShareRow = ShareRow(cluster: ClusterId, pubkey: Pubkey, encrypted: int)

  type Operators = map<OperatorId, OperatorRow>
  type Owners = map<Address, OwnerRow>
  type Members = map<ClusterId, set<OperatorId>>
  type Validators = map<Pubkey, ClusterId>
  type ShareTable = map<Pubkey, map<OperatorId, ShareRow>>

  datatype Tables = Tables(
    maxOperatorId: Option<nat>,
    owners: Owners, operators: Operators, skipped: set<OperatorId>,
    clusters: map<ClusterId, ClusterRow>, members: Members, validators: Validators, shares: ShareTable)

  const EmptyTables := Tables(Some(0), map[], map[], {}, map[], map[], map[], map[])

  const MAX_NONCE: nat := 65535

  lemma SomeElement(s: set<int>)
    requires s != {}
    ensures exists x :: x in s
  {
    assert (forall x :: x !in s) ==> s == {};
  }

  // ---------- queries ----------

  predicate Active(ops: Operators, id: OperatorId) {
    id in ops && !ops[id].removed
  }

  predicate KeyTaken(ops: Operators, key: RsaKey) {
    exists id | id in ops :: ops[id].key == key
  }

  // The schema's UNIQUE constraint on operator public keys.
  ghost predicate KeysUnique(ops: Operators) {
    forall a, b | a in ops && b in ops && ops[a].key == ops[b].key :: a == b
  }

  function ActiveByKey(ops: Operators, key: RsaKey): (r: Option<OperatorId>)
    requires KeysUnique(ops)
    ensures forall id :: r == Some(id) <==> Active(ops, id) && ops[id].key == key
  {
    var ids := set id | id in ops && ops[id].key == key && !ops[id].removed;
    if ids == {} then
      assert forall id | Active(ops, id) && ops[id].key == key :: id in ids;
      None
    else
      var id :| id in ids;
      Some(id)
  }

  predicate IsMember(members: Members, id: OperatorId) {
    exists c | c in members :: id in members[c]
  }

  function MembersOf(members: Members, c: ClusterId): set<OperatorId> {
    if c in members then members[c] else {}
  }

  // A NULL or missing fee recipient reads as the owner.
  function FeeOf(owners: Owners, owner: Address): Address {
    if owner in owners && owners[owner].feeRecipient.Some? then owners[owner].feeRecipient.value else owner
  }

  function NonceOf(owners: Owners, owner: Address): Option<nat> {
    if owner in owners then owners[owner].nonce else None
  }

  predicate HasValidator(vs: Validators, c: ClusterId) {
    exists v | v in vs :: vs[v] == c
  }

  // ---------- statements ----------

  function InsertOperator(t: Tables, id: OperatorId, key: RsaKey, owner: Address): Tables {
    t.(operators := t.operators[id := OperatorRow(key, owner, false)])
  }

  // The row is deleted, or only marked while a membership still refers to it.
  function DeleteOperator(t: Tables, id: OperatorId): Tables
    requires id in t.operators
  {
    t.(operators := if IsMember(t.members, id) then t.operators[id := t.operators[id].(removed := true)]
                    else t.operators - {id})
  }

  function BumpedNonce(owners: Owners, owner: Address): nat {
    match NonceOf(owners, owner) case Some(n) => n + 1 case None => 0
  }

  function BumpNonce(t: Tables, owner: Address): Tables {
    var fee := if owner in t.owners then t.owners[owner].feeRecipient else None;
    t.(owners := t.owners[owner := OwnerRow(fee, Some(BumpedNonce(t.owners, owner)))])
  }

  function SetFeeRecipient(t: Tables, owner: Address, fee: Address): Tables {
    t.(owners := t.owners[owner := OwnerRow(Some(fee), NonceOf(t.owners, owner))])
  }

  // The cluster row, its members and the owner row are inserted only if missing.
  function InsertValidator(t: Tables, c: ClusterId, v: Pubkey, rows: map<OperatorId, ShareRow>): Tables {
    t.(
      clusters := if c in t.clusters then t.clusters else t.clusters[c := ClusterRow(c.owner, false)],
      validators := t.validators[v := c],
      owners := if c.owner in t.owners then t.owners else t.owners[c.owner := OwnerRow(Some(c.owner), None)],
      members := t.members[c := MembersOf(t.members, c) + rows.Keys],
      shares := t.shares[v := if v in t.shares then t.shares[v] + rows else rows])
  }

  function SetLiquidated(t: Tables, c: ClusterId, liquidated: bool): Tables {
    if c in t.clusters then t.(clusters := t.clusters[c := t.clusters[c].(liquidated := liquidated)]) else t
  }

  // Deleting a validator deletes its shares. Deleting the last validator of a cluster deletes the
  // cluster and its members, and with them every operator marked as removed that was a member of no
  // other cluster.
  function DeleteValidator(t: Tables, v: Pubkey): Tables
    requires v in t.validators
  {
    var c, rest := t.validators[v], t.validators - {v};
    var t1 := t.(validators := rest, shares := t.shares - {v});
    if HasValidator(rest, c) then t1
    else t1.(clusters := t.clusters - {c}, members := t.members - {c}, operators := Swept(t.operators, t.members, c))
  }

  function Swept(ops: Operators, members: Members, c: ClusterId): Operators {
    ops - set id | id in ops && ops[id].removed && id in MembersOf(members, c) && !IsMember(members - {c}, id)
  }

  // ---------- what every reachable database satisfies ----------

  // Operator ids and skip markers are disjoint subsets of the ids seen so far; keys are distinct.
  ghost predicate OperatorsSound(max: Option<nat>, ops: Operators, skipped: set<OperatorId>) {
    && max.Some? && KeysUnique(ops)
    && (forall id | id in ops :: 1 <= id <= max.value && id !in skipped)
    && (forall id | id in skipped :: 1 <= id <= max.value)
  }

  // Clusters are exactly those with a validator, and members exactly the operators of their ids.
  ghost predicate ClustersSound(clusters: map<ClusterId, ClusterRow>, members: Members, vs: Validators) {
    && (forall c | c in clusters :: clusters[c].owner == c.owner && c.Members() != {} && HasValidator(vs, c))
    && (forall v | v in vs :: vs[v] in clusters)
    && members.Keys == clusters.Keys && (forall c | c in members :: members[c] == c.Members())
  }

  // Every member has an operator row, and a removed operator's row lives exactly as long as it is a
  // member somewhere.
  ghost predicate MembersSound(members: Members, ops: Operators) {
    && (forall id :: IsMember(members, id) ==> id in ops)
    && (forall id | id in ops && ops[id].removed :: IsMember(members, id))
  }

  // Whether share public keys interpolate to the validator's.
  type ShareCheck = (Pubkey, map<OperatorId, ShareRow>) -> bool

  // Every validator has exactly one share per member of its cluster, and its shares interpolate.
  ghost predicate SharesSound(ok: ShareCheck, vs: Validators, shares: ShareTable) {
    shares.Keys == vs.Keys && forall v | v in vs :: ValidatorShares(ok, v, vs[v], shares[v])
  }

  ghost predicate ValidatorShares(ok: ShareCheck, v: Pubkey, c: ClusterId, rows: map<OperatorId, ShareRow>) {
    rows.Keys == c.Members() && ok(v, rows) && forall o | o in rows :: rows[o].cluster == c
  }

  ghost predicate Sound(ok: ShareCheck, t: Tables) {
    && OperatorsSound(t.maxOperatorId, t.operators, t.skipped) && ClustersSound(t.clusters, t.members, t.validators)
    && MembersSound(t.members, t.operators) && SharesSound(ok, t.validators, t.shares)
  }

  lemma EmptySound(ok: ShareCheck)
    ensures Sound(ok, EmptyTables)
  {
  }

  lemma InsertOperatorSound(ok: ShareCheck, t: Tables, id: OperatorId, key: RsaKey, owner: Address)
    requires Sound(ok, t) && id !in t.operators && id !in t.skipped && !KeyTaken(t.operators, key)
    requires 1 <= id <= t.maxOperatorId.value
    ensures Sound(ok, InsertOperator(t, id, key, owner))
  {
  }

  lemma DeleteOperatorSound(ok: ShareCheck, t: Tables, id: OperatorId)
    requires Sound(ok, t) && id in t.operators
    ensures Sound(ok, DeleteOperator(t, id))
  {
    assert MembersSound(t.members, DeleteOperator(t, id).operators);
  }

  lemma SetLiquidatedSound(ok: ShareCheck, t: Tables, c: ClusterId, liquidated: bool)
    requires Sound(ok, t)
    ensures Sound(ok, SetLiquidated(t, c, liquidated))
  {
  }

  // What the handler has established before it inserts a validator.
  ghost predicate Insertable(ok: ShareCheck, t: Tables, c: ClusterId, v: Pubkey, rows: map<OperatorId, ShareRow>) {
    && v !in t.validators && c.Members() != {} && (forall o | o in c.Members() :: o in t.operators)
    && ValidatorShares(ok, v, c, rows)
  }

  lemma InsertValidatorMembers(t: Tables, c: ClusterId, v: Pubkey, rows: map<OperatorId, ShareRow>, id: OperatorId)
    ensures IsMember(InsertValidator(t, c, v, rows).members, id) <==> IsMember(t.members, id) || id in rows
  {
    var ms := InsertValidator(t, c, v, rows).members;
    if IsMember(t.members, id) {
      var d :| d in t.members && id in t.members[d];
      assert d in ms && id in ms[d];
    }
    if id in rows {
      assert id in ms[c];
    }
  }

  lemma InsertValidatorHas(vs: Validators, v: Pubkey, c: ClusterId, d: ClusterId)
    requires v !in vs
    ensures HasValidator(vs[v := c], d) <==> HasValidator(vs, d) || d == c
  {
    if HasValidator(vs, d) {
      var w :| w in vs && vs[w] == d;
      assert vs[v := c][w] == d;
    }
    assert vs[v := c][v] == c;
  }

  lemma InsertValidatorClusters(t: Tables, c: ClusterId, v: Pubkey, rows: map<OperatorId, ShareRow>)
    requires ClustersSound(t.clusters, t.members, t.validators) && v !in t.validators && rows.Keys == c.Members()
    requires c.Members() != {}
    ensures var t' := InsertValidator(t, c, v, rows);
            ClustersSound(t'.clusters, t'.members, t'.validators) && t'.members == t.members[c := c.Members()]
  {
    var t' := InsertValidator(t, c, v, rows);
    assert MembersOf(t.members, c) + rows.Keys == c.Members();
    assert t'.members.Keys == t'.clusters.Keys;
    forall d
      ensures HasValidator(t'.validators, d) <==> HasValidator(t.validators, d) || d == c
    {
      InsertValidatorHas(t.validators, v, c, d);
    }
  }

  lemma InsertValidatorShares(
    ok: ShareCheck, vs: Validators, shares: ShareTable, c: ClusterId, v: Pubkey, rows: map<OperatorId, ShareRow>)
    requires SharesSound(ok, vs, shares) && v !in vs && ValidatorShares(ok, v, c, rows)
    ensures SharesSound(ok, vs[v := c], shares[v := rows])
  {
  }

  lemma InsertValidatorSound(ok: ShareCheck, t: Tables, c: ClusterId, v: Pubkey, rows: map<OperatorId, ShareRow>)
    requires Sound(ok, t) && Insertable(ok, t, c, v, rows)
    ensures Sound(ok, InsertValidator(t, c, v, rows))
  {
    var t' := InsertValidator(t, c, v, rows);
    assert ClustersSound(t'.clusters, t'.members, t'.validators) by { InsertValidatorClusters(t, c, v, rows); }
    assert SharesSound(ok, t'.validators, t'.shares) by {
      InsertValidatorShares(ok, t.validators, t.shares, c, v, rows);
    }
    assert MembersSound(t'.members, t'.operators) by {
      forall id { InsertValidatorMembers(t, c, v, rows, id); }
    }
  }

  lemma SweptMembers(members: Members, ops: Operators, c: ClusterId)
    requires MembersSound(members, ops)
    ensures MembersSound(members - {c}, Swept(ops, members, c))
  {
    forall id | IsMember(members - {c}, id)
      ensures id in Swept(ops, members, c)
    {
      var d :| d in members - {c} && id in (members - {c})[d];
      assert id in members[d];
    }
    forall id | id in Swept(ops, members, c) && ops[id].removed
      ensures IsMember(members - {c}, id)
    {
      var d :| d in members && id in members[d];
      if d != c {
        assert d in members - {c} && id in (members - {c})[d];
      }
    }
  }

  lemma DeleteValidatorHas(vs: Validators, v: Pubkey, d: ClusterId)
    requires v in vs && d != vs[v]
    ensures HasValidator(vs - {v}, d) == HasValidator(vs, d)
  {
    if HasValidator(vs, d) {
      var w :| w in vs && vs[w] == d;
      assert w in vs - {v} && (vs - {v})[w] == d;
    }
  }

  lemma DeleteValidatorClusters(t: Tables, v: Pubkey)
    requires ClustersSound(t.clusters, t.members, t.validators) && v in t.validators
    ensures var t' := DeleteValidator(t, v); ClustersSound(t'.clusters, t'.members, t'.validators)
  {
    var t', c, rest := DeleteValidator(t, v), t.validators[v], t.validators - {v};
    forall d | d != c { DeleteValidatorHas(t.validators, v, d); }
    forall w | w in rest
      ensures rest[w] in t'.clusters
    {
      assert rest[w] == c ==> HasValidator(rest, c);
    }
  }

  lemma DeleteValidatorSound(ok: ShareCheck, t: Tables, v: Pubkey)
    requires Sound(ok, t) && v in t.validators
    ensures Sound(ok, DeleteValidator(t, v))
  {
    var t' := DeleteValidator(t, v);
    assert ClustersSound(t'.clusters, t'.members, t'.validators) by { DeleteValidatorClusters(t, v); }
    assert MembersSound(t'.members, t'.operators) by { SweptMembers(t.members, t.operators, t.validators[v]); }
  }
}
