/**
 Each table statement keeps the in-memory copy in agreement with the tables when its pending update is
 replayed (database/src/operator_operations.rs, cluster_operations.rs, validator_operations.rs).
 */
module MirrorSteps {
  import opened Wrappers
  import opened OperatorIds
  import opened MultiIndex
  import opened NetworkTables
  import opened NetworkState

  // ---------- operators ----------

  predicate IsOwn(own: PubkeyOrId, id: OperatorId, key: RsaKey) {
    match own case OwnKey(k) => key == k case OwnIdIs(i) => id == i
  }

  lemma InsertOperatorCore(t: Tables, st: State, id: OperatorId, key: RsaKey, owner: Address, isOwn: bool)
    requires CoreAgrees(t, st)
    ensures CoreAgrees(InsertOperator(t, id, key, owner),
              Apply(st, InsertOperatorUpdate(Operator(id, key, owner), isOwn)).value)
  {
  }

  lemma InsertOperatorOwnId(own: PubkeyOrId, ops: Operators, id: OperatorId, row: OperatorRow)
    requires KeysUnique(ops) && id !in ops && !KeyTaken(ops, row.key) && !row.removed
    ensures KeysUnique(ops[id := row])
    ensures OwnId(own, ops[id := row])
            == if OwnId(own, ops).None? && IsOwn(own, id, row.key) then Some(id) else OwnId(own, ops)
  {
    var ops' := ops[id := row];
    if own.OwnKey? {
      var a, b := ActiveByKey(ops, own.key), ActiveByKey(ops', own.key);
      assert forall o: OperatorId | Active(ops', o) :: o == id || Active(ops, o);
      if a.Some? {
        assert Active(ops', a.value) && ops'[a.value].key == own.key;
      } else if row.key == own.key {
        assert Active(ops', id) && ops'[id].key == own.key;
      }
    }
  }

  // Nobody holds a share for an operator without a row.
  lemma NoSharesOfUnknown(ok: ShareCheck, t: Tables, id: OperatorId, v: Pubkey)
    requires Sound(ok, t) && id !in t.operators
    ensures !Holds(t.shares, Some(id), v)
  {
    if v in t.shares {
      var c := t.validators[v];
      assert ValidatorShares(ok, v, c, t.shares[v]) && t.members[c] == c.Members();
      assert id in t.members[c] ==> IsMember(t.members, id);
    }
  }

  lemma InsertOperatorOwn(
    own: PubkeyOrId, ok: ShareCheck, t: Tables, st: State, id: OperatorId, key: RsaKey, owner: Address)
    requires Sound(ok, t) && id !in t.operators && !KeyTaken(t.operators, key) && OwnAgrees(own, t, st)
    ensures KeysUnique(InsertOperator(t, id, key, owner).operators)
    ensures OwnAgrees(own, InsertOperator(t, id, key, owner),
              Apply(st, InsertOperatorUpdate(Operator(id, key, owner), IsOwn(own, id, key))).value)
  {
    InsertOperatorOwnId(own, t.operators, id, OperatorRow(key, owner, false));
    forall v { NoSharesOfUnknown(ok, t, id, v); }
  }

  lemma DeleteOperatorCore(t: Tables, st: State, id: OperatorId)
    requires CoreAgrees(t, st) && id in t.operators
    ensures CoreAgrees(DeleteOperator(t, id), Apply(st, DeleteOperatorUpdate(id)).value)
  {
  }

  // Removing an operator leaves our own identity right exactly when it is not the key holder itself:
  // the state goes on using the id of an operator that is gone.
  lemma DeleteOperatorOwn(own: PubkeyOrId, t: Tables, st: State, id: OperatorId)
    requires KeysUnique(t.operators) && Active(t.operators, id) && OwnAgrees(own, t, st)
    ensures KeysUnique(DeleteOperator(t, id).operators)
    ensures OwnAgrees(own, DeleteOperator(t, id), Apply(st, DeleteOperatorUpdate(id)).value)
            <==> own != OwnKey(t.operators[id].key)
  {
    var ops, ops' := t.operators, DeleteOperator(t, id).operators;
    if own.OwnKey? {
      var a, b := ActiveByKey(ops, own.key), ActiveByKey(ops', own.key);
      assert forall o: OperatorId | Active(ops', o) :: Active(ops, o) && ops[o].key == ops'[o].key;
      if own.key == ops[id].key {
        assert a == Some(id) && b != Some(id);
      } else if a.Some? {
        assert Active(ops', a.value) && ops'[a.value].key == own.key;
      }
    }
  }

  // ---------- owners ----------

  lemma BumpNonceCore(t: Tables, st: State, owner: Address)
    requires CoreAgrees(t, st)
    ensures CoreAgrees(BumpNonce(t, owner), Apply(st, SetOwnerNonce(owner, BumpedNonce(t.owners, owner))).value)
  {
    var owners' := BumpNonce(t, owner).owners;
    assert forall o | o != owner :: NonceOf(owners', o) == NonceOf(t.owners, o);
  }

  lemma BumpNonceClusters(t: Tables, st: State, owner: Address)
    requires ClustersAgree(t, st)
    ensures ClustersAgree(BumpNonce(t, owner), st)
  {
    assert forall o :: FeeOf(BumpNonce(t, owner).owners, o) == FeeOf(t.owners, o);
  }

  lemma SetFeeRecipientCore(t: Tables, st: State, owner: Address, fee: Address)
    requires CoreAgrees(t, st)
    ensures CoreAgrees(SetFeeRecipient(t, owner, fee), Apply(st, UpdateFeeRecipient(owner, fee)).value)
  {
    assert forall o :: NonceOf(SetFeeRecipient(t, owner, fee).owners, o) == NonceOf(t.owners, o);
  }

  lemma FeeRows(t: Tables, mem: map<ClusterId, Cluster>, owner: Address, fee: Address, mem': map<ClusterId, Cluster>)
    requires RowsAgree(t.clusters, t.members, t.owners, mem)
    requires forall c | c in t.clusters :: t.clusters[c].owner == c.owner
    requires mem'.Keys == mem.Keys
    requires forall c | c in mem :: mem'[c] == if c.owner == owner then mem[c].(feeRecipient := fee) else mem[c]
    ensures RowsAgree(t.clusters, t.members, SetFeeRecipient(t, owner, fee).owners, mem')
    ensures WrongFlags(t.clusters, mem') == WrongFlags(t.clusters, mem)
  {
  }

  // All clusters of the owner, and no others, get the new recipient.
  lemma SetFeeRecipientClusters(t: Tables, st: State, owner: Address, fee: Address)
    requires ClustersAgree(t, st) && forall c | c in t.clusters :: t.clusters[c].owner == c.owner
    ensures var t', st' := SetFeeRecipient(t, owner, fee), Apply(st, UpdateFeeRecipient(owner, fee)).value;
            ClustersAgree(t', st') && Wrong(t', st') == Wrong(t, st)
  {
    var mem, mem' := st.clusters.primary, Apply(st, UpdateFeeRecipient(owner, fee)).value.clusters.primary;
    forall c | c in mem
      ensures mem'[c] == if c.owner == owner then mem[c].(feeRecipient := fee) else mem[c]
    {
      assert st.clusters.third.Points(owner, c) <==> c.owner == owner;
    }
    FeeRows(t, mem, owner, fee, mem');
  }

  // ---------- liquidation ----------

  lemma SetLiquidatedCore(t: Tables, st: State, c: ClusterId, liquidated: bool)
    requires CoreAgrees(t, st)
    ensures CoreAgrees(SetLiquidated(t, c, liquidated), Apply(st, UpdateClusterStatus(c, liquidated)).value)
  {
  }

  lemma LiquidatedRows(t: Tables, mem: map<ClusterId, Cluster>, c: ClusterId, liquidated: bool)
    requires RowsAgree(t.clusters, t.members, t.owners, mem) && c in mem
    ensures var rows, mem' := SetLiquidated(t, c, liquidated).clusters, mem[c := mem[c].(liquidated := liquidated)];
            RowsAgree(rows, t.members, t.owners, mem')
  {
  }

  lemma LiquidatedFlags(
    clusters: map<ClusterId, ClusterRow>, mem: map<ClusterId, Cluster>, c: ClusterId, liquidated: bool)
    requires c in clusters && c in mem
    ensures WrongFlags(clusters[c := clusters[c].(liquidated := liquidated)],
              mem[c := mem[c].(liquidated := liquidated)])
            == WrongFlags(clusters, mem) - {c}
  {
  }

  // Both sides take the flag that the event names.
  lemma SetLiquidatedClusters(t: Tables, st: State, c: ClusterId, liquidated: bool)
    requires ClustersAgree(t, st)
    ensures var t', st' := SetLiquidated(t, c, liquidated), Apply(st, UpdateClusterStatus(c, liquidated)).value;
            ClustersAgree(t', st') && Wrong(t', st') == Wrong(t, st) - {c}
  {
    if c in st.clusters.primary {
      LiquidatedRows(t, st.clusters.primary, c, liquidated);
      LiquidatedFlags(t.clusters, st.clusters.primary, c, liquidated);
      assert SetLiquidated(t, c, liquidated).clusters.Keys == t.clusters.Keys;
    }
  }

  // ---------- inserting a validator ----------

  // The cluster value the handler builds: always active.
  function NewCluster(t: Tables, c: ClusterId): Cluster {
    Cluster(c, c.owner, FeeOf(t.owners, c.owner), false, c.Members())
  }

  function OwnShare(id: Option<OperatorId>, v: Pubkey, rows: map<OperatorId, ShareRow>): Option<Share> {
    if id.Some? && id.value in rows then Some(Share(v, id.value, rows[id.value])) else None
  }

  function InsertUpdate(
    t: Tables, id: Option<OperatorId>, c: ClusterId, v: Pubkey, rows: map<OperatorId, ShareRow>): StateUpdate
  {
    InsertValidatorUpdate(NewCluster(t, c), Metadata(v, c), OwnShare(id, v, rows))
  }

  lemma IndexedInsert<V>(m: ValidatorMap<V>, home: Validators, v: Pubkey, c: ClusterId, x: V)
    requires Indexed(m, home) && v !in home
    ensures Indexed(m, home[v := c]) && Indexed(m.Insert(v, c, c.owner, c.Members(), x), home[v := c])
  {
  }

  lemma InsertValidatorCore(
    t: Tables, st: State, id: Option<OperatorId>, c: ClusterId, v: Pubkey, rows: map<OperatorId, ShareRow>)
    requires CoreAgrees(t, st) && v !in t.validators && c.owner in t.owners
    ensures CoreAgrees(InsertValidator(t, c, v, rows), Apply(st, InsertUpdate(t, id, c, v, rows)).value)
  {
    IndexedInsert(st.metadata, t.validators, v, c, Metadata(v, c));
  }

  lemma InsertRows(t: Tables, mem: map<ClusterId, Cluster>, c: ClusterId, v: Pubkey, rows: map<OperatorId, ShareRow>)
    requires RowsAgree(t.clusters, t.members, t.owners, mem) && c.owner in t.owners
    requires c in t.clusters ==> t.clusters[c].owner == c.owner
    requires MembersOf(t.members, c) + rows.Keys == c.Members()
    ensures var t' := InsertValidator(t, c, v, rows);
            RowsAgree(t'.clusters, t'.members, t'.owners, mem[c := NewCluster(t, c)])
  {
  }

  lemma InsertIndexes(
    cs: set<ClusterId>, third: Index<Address, ClusterId>, fourth: Index<CommitteeId, ClusterId>, c: ClusterId)
    requires ByOwner(cs, third) && ByCommittee(cs, fourth)
    ensures ByOwner(cs + {c}, third.Link(c.owner, c)) && ByCommittee(cs + {c}, fourth.Link(c.Members(), c))
  {
  }

  lemma InsertByValidator(vs: Validators, ix: Index<Pubkey, ClusterId>, c: ClusterId, v: Pubkey)
    requires ByValidator(vs, ix) && v !in vs
    ensures ByValidator(vs[v := c], ix.Link(v, c))
  {
  }

  lemma InsertClusterMap(t: Tables, m: ClusterMap, c: ClusterId, v: Pubkey, rows: map<OperatorId, ShareRow>)
    requires ClusterMapAgrees(t, m) && v !in t.validators && c.owner in t.owners
    requires c in t.clusters ==> t.clusters[c].owner == c.owner
    requires MembersOf(t.members, c) + rows.Keys == c.Members()
    ensures ClusterMapAgrees(InsertValidator(t, c, v, rows), m.Insert(c, v, c.owner, c.Members(), NewCluster(t, c)))
  {
    InsertRows(t, m.primary, c, v, rows);
    InsertIndexes(t.clusters.Keys, m.third, m.fourth, c);
    InsertByValidator(t.validators, m.second, c, v);
    assert InsertValidator(t, c, v, rows).clusters.Keys == t.clusters.Keys + {c};
  }

  // The clusters with a wrong flag after a validator joins `c`.
  function WrongAfterJoin(t: Tables, c: ClusterId, wrong: set<ClusterId>): set<ClusterId> {
    if c in t.clusters && t.clusters[c].liquidated then wrong + {c} else wrong - {c}
  }

  // The flag of the cluster joined is wrong exactly when the cluster is liquidated.
  lemma InsertFlags(t: Tables, mem: map<ClusterId, Cluster>, c: ClusterId, v: Pubkey, rows: map<OperatorId, ShareRow>)
    requires mem.Keys == t.clusters.Keys
    ensures WrongFlags(InsertValidator(t, c, v, rows).clusters, mem[c := NewCluster(t, c)])
            == WrongAfterJoin(t, c, WrongFlags(t.clusters, mem))
  {
  }

  lemma InsertValidatorClustersAgree(
    t: Tables, st: State, id: Option<OperatorId>, c: ClusterId, v: Pubkey, rows: map<OperatorId, ShareRow>)
    requires ClustersAgree(t, st) && v !in t.validators && c.owner in t.owners
    requires c in t.clusters ==> t.clusters[c].owner == c.owner
    requires MembersOf(t.members, c) + rows.Keys == c.Members()
    ensures ClustersAgree(InsertValidator(t, c, v, rows), Apply(st, InsertUpdate(t, id, c, v, rows)).value)
  {
    InsertClusterMap(t, st.clusters, c, v, rows);
  }

  lemma InsertValidatorFlags(
    t: Tables, st: State, id: Option<OperatorId>, c: ClusterId, v: Pubkey, rows: map<OperatorId, ShareRow>)
    requires st.clusters.primary.Keys == t.clusters.Keys
    ensures Wrong(InsertValidator(t, c, v, rows), Apply(st, InsertUpdate(t, id, c, v, rows)).value)
            == WrongAfterJoin(t, c, Wrong(t, st))
  {
    InsertFlags(t, st.clusters.primary, c, v, rows);
  }

  lemma InsertHoldings(
    vs: Validators, shares: ShareTable, id: Option<OperatorId>, m: ValidatorMap<Share>, own: set<ClusterId>,
    c: ClusterId, v: Pubkey, rows: map<OperatorId, ShareRow>)
    requires HoldingsAgree(vs, shares, id, m, own) && v !in vs && v !in shares
    ensures var share := OwnShare(id, v, rows);
            if share.None? then HoldingsAgree(vs[v := c], shares[v := rows], id, m, own)
            else HoldingsAgree(vs[v := c], shares[v := rows], id,
                               m.Insert(v, c, c.owner, c.Members(), share.value), own + {c})
  {
    var share := OwnShare(id, v, rows);
    if share.None? {
      assert forall w | w in m.primary :: vs[v := c][w] == vs[w];
    } else {
      var m' := m.Insert(v, c, c.owner, c.Members(), share.value);
      IndexedInsert(m, vs, v, c, share.value);
      assert forall w | w in m.primary :: w in m'.primary && vs[v := c][w] == vs[w];
      assert v in m'.primary && vs[v := c][v] == c;
    }
  }

  lemma InsertValidatorOwn(
    own: PubkeyOrId, t: Tables, st: State, c: ClusterId, v: Pubkey, rows: map<OperatorId, ShareRow>)
    requires KeysUnique(t.operators) && OwnAgrees(own, t, st) && v !in t.validators && v !in t.shares
    ensures OwnAgrees(own, InsertValidator(t, c, v, rows), Apply(st, InsertUpdate(t, st.id, c, v, rows)).value)
  {
    InsertHoldings(t.validators, t.shares, st.id, st.shares, st.ownClusters, c, v, rows);
  }

  // ---------- deleting a validator ----------

  lemma IndexedRemove<V>(m: ValidatorMap<V>, home: Validators, v: Pubkey)
    requires Indexed(m, home)
    ensures Indexed(m.Remove(v), home - {v})
  {
  }

  // What the in-memory code asks of its index is what the trigger asks of the table.
  lemma LastOfCluster(vs: Validators, m: ValidatorMap<Metadata>, c: ClusterId)
    requires MetadataAgrees(vs, m)
    ensures Serves(m, c) <==> HasValidator(vs, c)
  {
    if HasValidator(vs, c) {
      var w :| w in vs && vs[w] == c;
      assert w in m.primary && m.second.Points(c, w);
    }
    if Serves(m, c) {
      var w :| w in m.primary && m.second.Points(c, w);
      assert vs[w] == c;
    }
  }

  lemma DeleteMetadata(vs: Validators, m: ValidatorMap<Metadata>, v: Pubkey)
    requires MetadataAgrees(vs, m) && v in vs
    ensures MetadataAgrees(vs - {v}, m.Remove(v))
  {
    IndexedRemove(m, vs, v);
  }

  lemma DeleteIndexes(
    cs: set<ClusterId>, third: Index<Address, ClusterId>, fourth: Index<CommitteeId, ClusterId>, c: ClusterId)
    requires ByOwner(cs, third) && ByCommittee(cs, fourth)
    ensures ByOwner(cs - {c}, third.Unlink(c)) && ByCommittee(cs - {c}, fourth.Unlink(c))
  {
  }

  lemma DeleteByValidator(vs: Validators, v: Pubkey, ix: Index<Pubkey, ClusterId>)
    requires v in vs && ByValidator(vs, ix) && !HasValidator(vs - {v}, vs[v])
    ensures ByValidator(vs - {v}, ix.Unlink(vs[v]))
  {
    var rest := vs - {v};
    assert forall w | w in rest :: rest[w] != vs[v];
  }

  lemma DeleteFlags(clusters: map<ClusterId, ClusterRow>, mem: map<ClusterId, Cluster>, c: ClusterId)
    ensures WrongFlags(clusters - {c}, mem - {c}) == WrongFlags(clusters, mem) * (clusters - {c}).Keys
    ensures WrongFlags(clusters, mem) == WrongFlags(clusters, mem) * clusters.Keys
  {
  }

  // What the replay of a removal does: it never meets missing metadata, and it drops the cluster
  // exactly when the trigger does.
  lemma DeleteValidatorShape(t: Tables, st: State, v: Pubkey)
    requires CoreAgrees(t, st) && v in t.validators
    ensures Apply(st, DeleteValidatorUpdate(v)) == Some(
              var st1 := st.(shares := st.shares.Remove(v), metadata := st.metadata.Remove(v));
              if HasValidator(t.validators - {v}, t.validators[v]) then st1
              else st1.(clusters := st.clusters.Remove(t.validators[v]),
                ownClusters := st.ownClusters - {t.validators[v]}))
  {
    DeleteMetadata(t.validators, st.metadata, v);
    LastOfCluster(t.validators - {v}, st.metadata.Remove(v), t.validators[v]);
  }

  // The sweep only ever deletes operators that are marked as removed.
  lemma SweptOperators(ops: Operators, members: Members, c: ClusterId, mem: map<OperatorId, Operator>)
    requires OperatorsAgree(ops, mem)
    ensures OperatorsAgree(Swept(ops, members, c), mem)
  {
    hide IsMember;
    assert forall id :: Active(Swept(ops, members, c), id) <==> Active(ops, id);
  }

  lemma DeleteValidatorCore(t: Tables, st: State, v: Pubkey)
    requires CoreAgrees(t, st) && v in t.validators
    ensures Apply(st, DeleteValidatorUpdate(v)).Some?
    ensures CoreAgrees(DeleteValidator(t, v), Apply(st, DeleteValidatorUpdate(v)).value)
  {
    hide Apply, MetadataAgrees, NoncesAgree, OperatorsAgree, HasValidator, Swept;
    DeleteValidatorShape(t, st, v);
    DeleteMetadata(t.validators, st.metadata, v);
    SweptOperators(t.operators, t.members, t.validators[v], st.operators);
  }

  lemma DeleteValidatorClustersAgree(t: Tables, st: State, v: Pubkey)
    requires CoreAgrees(t, st) && ClustersAgree(t, st) && v in t.validators && t.validators[v] in t.clusters
    ensures Apply(st, DeleteValidatorUpdate(v)).Some?
    ensures var t', st' := DeleteValidator(t, v), Apply(st, DeleteValidatorUpdate(v)).value;
            ClustersAgree(t', st') && Wrong(t', st') == Wrong(t, st) * t'.clusters.Keys
  {
    hide CoreAgrees, Swept, HasValidator, Apply;
    var c := t.validators[v];
    DeleteValidatorShape(t, st, v);
    DeleteFlags(t.clusters, st.clusters.primary, c);
    if !HasValidator(t.validators - {v}, c) {
      DeleteIndexes(t.clusters.Keys, st.clusters.third, st.clusters.fourth, c);
      DeleteByValidator(t.validators, v, st.clusters.second);
      assert (t.clusters - {c}).Keys == t.clusters.Keys - {c};
    }
  }

  lemma SweptOwnId(own: PubkeyOrId, ops: Operators, members: Members, c: ClusterId)
    requires KeysUnique(ops)
    ensures KeysUnique(Swept(ops, members, c)) && OwnId(own, Swept(ops, members, c)) == OwnId(own, ops)
  {
    var ops' := Swept(ops, members, c);
    if own.OwnKey? {
      var a, b := ActiveByKey(ops, own.key), ActiveByKey(ops', own.key);
      assert forall o :: Active(ops', o) <==> Active(ops, o);
      if a.Some? {
        assert Active(ops', a.value) && ops'[a.value].key == own.key;
      }
    }
  }

  // We hold a share of exactly the validators of the clusters we are a member of.
  lemma HeldAreMemberships(ok: ShareCheck, vs: Validators, shares: ShareTable, id: Option<OperatorId>, w: Pubkey)
    requires SharesSound(ok, vs, shares)
    ensures Holds(shares, id, w) <==> w in vs && id.Some? && id.value in vs[w].Members()
  {
    if w in vs {
      assert ValidatorShares(ok, w, vs[w], shares[w]);
    }
  }

  // We are in a cluster exactly as long as it has a validator: as long as one remains, we hold a share
  // of that one too.
  lemma DeleteHoldings(
    ok: ShareCheck, vs: Validators, shares: ShareTable, id: Option<OperatorId>, m: ValidatorMap<Share>,
    own: set<ClusterId>, v: Pubkey)
    requires SharesSound(ok, vs, shares) && HoldingsAgree(vs, shares, id, m, own) && v in vs
    ensures HoldingsAgree(vs - {v}, shares - {v}, id, m.Remove(v),
              if HasValidator(vs - {v}, vs[v]) then own else own - {vs[v]})
  {
    var m', rest, c := m.Remove(v), vs - {v}, vs[v];
    IndexedRemove(m, vs, v);
    forall w { HeldAreMemberships(ok, vs, shares, id, w); }
    forall d
      ensures (exists w | w in m'.primary :: rest[w] == d) <==> d in own && (d != c || HasValidator(rest, c))
    {
      if w :| w in m'.primary && rest[w] == d {
        assert w in m.primary && vs[w] == d;
      }
      if d in own && (d != c || HasValidator(rest, c)) {
        var w :| w in m.primary && vs[w] == d;
        if w != v {
          assert w in m'.primary && rest[w] == d;
        } else {
          var x :| x in rest && rest[x] == c;
          assert Holds(shares, id, x) && x in m'.primary && rest[x] == d;
        }
      }
    }
  }

  lemma DeleteValidatorOwn(own: PubkeyOrId, ok: ShareCheck, t: Tables, st: State, v: Pubkey)
    requires KeysUnique(t.operators) && SharesSound(ok, t.validators, t.shares) && v in t.validators
    requires CoreAgrees(t, st) && OwnAgrees(own, t, st)
    ensures KeysUnique(DeleteValidator(t, v).operators)
    ensures Apply(st, DeleteValidatorUpdate(v)).Some?
    ensures OwnAgrees(own, DeleteValidator(t, v), Apply(st, DeleteValidatorUpdate(v)).value)
  {
    DeleteValidatorShape(t, st, v);
    SweptOwnId(own, t.operators, t.members, t.validators[v]);
    DeleteHoldings(ok, t.validators, t.shares, st.id, st.shares, st.ownClusters, v);
  }
}
