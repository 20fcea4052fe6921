/**
 The event processor as it works (eth/src/event_processor.rs): handlers change a transaction step by
 step, a block's transaction is committed and published as a whole, and a call buffers logs block by
 block.
 */
module EventProcessor {
  import opened Wrappers
  import opened OperatorIds
  import opened NetworkTables
  import opened NetworkState
  import opened MirrorSteps
  import opened EventHandlers
  import opened EventMirror
  import opened EventEffects
  import opened BlockEvents
  import opened ChainFold
  import opened StateReplay

  // ---------- checks with loops ----------

  method ValidateOperators(ops: Operators, ids: seq<OperatorId>) returns (ok: bool)
    ensures ok <==> ValidOperators(ops, ids)
  {
    if |ids| > 13 || |ids| == 0 || |ids| !in {4, 7, 10, 13} {
      return false;
    }
    var seen := {};
    for i := 0 to |ids|
      invariant forall x :: x in seen <==> x in ids[..i]
      invariant Distinct(ids[..i])
    {
      assert ids[..i + 1] == ids[..i] + [ids[i]];
      if ids[i] in seen {
        var j :| 0 <= j < i && ids[j] == ids[i];
        return false;
      }
      seen := seen + {ids[i]};
    }
    assert ids[..|ids|] == ids;
    for i := 0 to |ids|
      invariant forall j :: 0 <= j < i ==> Active(ops, ids[j])
    {
      if !Active(ops, ids[i]) {
        return false;
      }
    }
    ok := true;
  }

  method CollectRows(c: ClusterId, ids: seq<OperatorId>, keys: seq<ShareKey>) returns (rows: map<OperatorId, ShareRow>)
    requires |ids| == |keys|
    ensures Distinct(ids) ==> Paired(c, ids, keys, rows)
    ensures rows == ShareRows(c, ids, keys)
  {
    rows := map[];
    for i := 0 to |ids|
      invariant rows == ShareRows(c, ids[..i], keys[..i])
    {
      assert ids[..i + 1][..i] == ids[..i] && keys[..i + 1][..i] == keys[..i];
      rows := rows[ids[i] := ShareRow(c, keys[i].pubkey, keys[i].encrypted)];
    }
    assert ids[..|ids|] == ids && keys[..|keys|] == keys;
    if Distinct(ids) {
      ShareRowsPaired(c, ids, keys);
    }
  }

  // ---------- one transaction ----------

  function StatusHandled(t: Tables, c: ClusterId, liquidated: bool): Handled {
    Handled(SetLiquidated(t, c, liquidated), [UpdateClusterStatus(c, liquidated)], Done)
  }

  class Transaction {
    const env: Env
    const published: Option<OperatorId>
    var tables: Tables
    var updates: seq<StateUpdate>

    constructor (env: Env, published: Option<OperatorId>, tables: Tables)
      ensures this.env == env && this.published == published && this.tables == tables && updates == []
    {
      this.env, this.published, this.tables, updates := env, published, tables, [];
    }

    // The transaction has done what the handler's specification says, unless it is to be dropped.
    twostate predicate Did(h: Handled, outcome: Outcome)
      reads this
    {
      outcome == h.outcome && (!outcome.Aborted? ==> tables == h.t && updates == old(updates) + h.us)
    }

    method OperatorAddedLog(id: OperatorId, owner: Address, key: Option<RsaKey>) returns (outcome: Outcome)
      modifies this
      ensures Did(HandleOperatorAdded(old(tables), id, owner, key, env.own), outcome)
    {
      if Active(tables.operators, id) {
        return Skipped;
      }
      if tables.maxOperatorId.Some? && tables.maxOperatorId.value + 1 != id {
        return Skipped;
      }
      tables := tables.(maxOperatorId := Some(id));
      updates := updates + [SetMaxOperatorIdSeen(id)];
      if key.None? || KeyTaken(tables.operators, key.value) {
        tables := tables.(skipped := tables.skipped + {id});
        return Skipped;
      }
      if id in tables.operators {
        return Aborted;
      }
      tables := InsertOperator(tables, id, key.value, owner);
      updates := updates + [InsertOperatorUpdate(Operator(id, key.value, owner), IsOwn(env.own, id, key.value))];
      return Done;
    }

    method OperatorRemovedLog(id: OperatorId) returns (outcome: Outcome)
      modifies this
      ensures Did(HandleOperatorRemoved(old(tables), id), outcome)
    {
      if id in tables.skipped {
        tables := tables.(skipped := tables.skipped - {id});
        return Skipped;
      }
      if !Active(tables.operators, id) {
        return Aborted;
      }
      tables := DeleteOperator(tables, id);
      updates := updates + [DeleteOperatorUpdate(id)];
      return Done;
    }

    method ValidatorAddedLog(
      owner: Address, ids: seq<OperatorId>, pubkey: Option<Pubkey>, shares: Option<SharePayload>)
      returns (outcome: Outcome)
      requires KeysUnique(tables.operators)
      modifies this
      ensures Did(HandleValidatorAdded(env, published, old(tables), owner, ids, pubkey, shares), outcome)
    {
      var nonce := BumpedNonce(tables.owners, owner);
      if nonce > MAX_NONCE {
        return Aborted;
      }
      tables := BumpNonce(tables, owner);
      updates := updates + [SetOwnerNonce(owner, nonce)];
      outcome := RegisterValidator(nonce, owner, ids, pubkey, shares);
    }

    method RegisterValidator(
      nonce: nat, owner: Address, ids: seq<OperatorId>, pubkey: Option<Pubkey>, shares: Option<SharePayload>)
      returns (outcome: Outcome)
      requires KeysUnique(tables.operators)
      modifies this
      ensures Did(Register(env, published, old(tables), nonce, owner, ids, pubkey, shares), outcome)
    {
      if env.mode.KeySplit? {
        return Done;
      }
      if pubkey.None? {
        return Skipped;
      }
      var v, c := pubkey.value, Cid(owner, ids);
      var valid := ValidateOperators(tables.operators, ids);
      if !valid || shares.None? || |shares.value.keys| != |ids|
         || !env.signed(shares.value.signature, nonce, owner, v) {
        return Skipped;
      }
      var rows := CollectRows(c, ids, shares.value.keys);
      if !env.ok(v, rows) || v in tables.validators {
        return Skipped;
      }
      assert Accepted(env, tables, nonce, owner, ids, pubkey, shares);
      var own := OwnIdTx(env.own, published, tables.operators);
      updates := updates + [InsertUpdate(tables, own, c, v, rows)];
      tables := InsertValidator(tables, c, v, rows);
      return Done;
    }

    method ValidatorRemovedLog(owner: Address, pubkey: Option<Pubkey>) returns (outcome: Outcome)
      modifies this
      ensures Did(HandleValidatorRemoved(old(tables), owner, pubkey), outcome)
    {
      if pubkey.None? || pubkey.value !in tables.validators {
        return Skipped;
      }
      var c := tables.validators[pubkey.value];
      if c !in tables.clusters || owner != tables.clusters[c].owner {
        return Skipped;
      }
      tables := DeleteValidator(tables, pubkey.value);
      updates := updates + [DeleteValidatorUpdate(pubkey.value)];
      return Done;
    }

    // The cluster named, if stored, takes the status and no other cluster changes; the queued update
    // then makes any state that mirrors the clusters mirror them again, with this flag right.
    method StatusLog(owner: Address, ids: seq<OperatorId>, liquidated: bool) returns (outcome: Outcome)
      modifies this
      ensures outcome.Done? && tables.clusters.Keys == old(tables).clusters.Keys
      ensures tables == old(tables).(clusters := tables.clusters)
      ensures forall c | c in tables.clusters ::
        && tables.clusters[c].owner == old(tables).clusters[c].owner
        && (IsLiquidated(tables, c) <==> if c == Cid(owner, ids) then liquidated else IsLiquidated(old(tables), c))
      ensures |updates| == |old(updates)| + 1 && updates[..|old(updates)|] == old(updates)
      ensures forall st: State | ClustersAgree(old(tables), st) ::
        var st' := Apply(st, updates[|old(updates)|]);
        st'.Some? && ClustersAgree(tables, st'.value)
        && Wrong(tables, st'.value) == Wrong(old(tables), st) - {Cid(owner, ids)}
      ensures Did(StatusHandled(old(tables), Cid(owner, ids), liquidated), outcome)
    {
      hide ClusterMapAgrees, Wrong;
      var c := Cid(owner, ids);
      if c in tables.clusters {
        tables := tables.(clusters := tables.clusters[c := tables.clusters[c].(liquidated := liquidated)]);
      }
      updates := updates + [UpdateClusterStatus(c, liquidated)];
      forall st: State | ClustersAgree(old(tables), st)
        ensures Apply(st, UpdateClusterStatus(c, liquidated)).Some?
        ensures var st' := Apply(st, UpdateClusterStatus(c, liquidated)).value;
                ClustersAgree(tables, st') && Wrong(tables, st') == Wrong(old(tables), st) - {c}
      {
        SetLiquidatedClusters(old(tables), st, c, liquidated);
      }
      return Done;
    }

    method ProcessEvent(e: Event) returns (outcome: Outcome)
      requires KeysUnique(tables.operators)
      modifies this
      ensures Did(Handle(env, published, old(tables), e), outcome)
    {
      match e
      case OperatorAdded(id, owner, key) => outcome := OperatorAddedLog(id, owner, key);
      case OperatorRemoved(id) => outcome := OperatorRemovedLog(id);
      case ValidatorAdded(owner, ids, pubkey, shares) => outcome := ValidatorAddedLog(owner, ids, pubkey, shares);
      case ValidatorRemoved(owner, _, pubkey) => outcome := ValidatorRemovedLog(owner, pubkey);
      case ClusterLiquidated(owner, ids) => outcome := StatusLog(owner, ids, true);
      case ClusterReactivated(owner, ids) => outcome := StatusLog(owner, ids, false);
      case FeeRecipientUpdated(owner, fee) =>
        tables := SetFeeRecipient(tables, owner, fee);
        updates := updates + [UpdateFeeRecipient(owner, fee)];
        outcome := Done;
      case ValidatorExited => outcome := Done;
      case Undecodable => outcome := Skipped;
      case Unknown => outcome := Skipped;
    }
  }

  // ---------- the processor ----------

  // A longer list of flushes does not get past a failure in a shorter one.
  lemma {:induction false} StuckFlushes(env: Env, w: World, fs: seq<Flush>, k: nat, fails: nat -> bool)
    requires Healthy(env, w) && k <= |fs| && !RunFlushes(env, w, fs[..k], fails).ok
    ensures RunFlushes(env, w, fs, fails) == RunFlushes(env, w, fs[..k], fails)
    decreases |fs|
  {
    hide Healthy, Commit;
    if k == |fs| {
      assert fs[..k] == fs;
    } else {
      assert fs[..|fs|-1][..k] == fs[..k];
      StuckFlushes(env, w, fs[..|fs|-1], k, fails);
    }
  }

  lemma FlushStep(env: Env, w: World, fs: seq<Flush>, f: Flush, fails: nat -> bool)
    requires Healthy(env, w) && RunFlushes(env, w, fs, fails).ok
    ensures var w1 := RunFlushes(env, w, fs, fails).world;
            var r := Commit(env, w1, f.block, f.events);
            RunFlushes(env, w, fs + [f], fails)
            == if !fails(f.block) && r.Some? then Progress(r.value, true) else Progress(w1, false)
  {
    hide Healthy, Commit;
    assert (fs + [f])[..|fs|] == fs;
  }

  lemma StuckAfter(env: Env, w: World, fs: seq<Flush>, gs: seq<Flush>, fails: nat -> bool)
    requires Healthy(env, w) && fs <= gs && !RunFlushes(env, w, fs, fails).ok
    ensures RunFlushes(env, w, gs, fails) == RunFlushes(env, w, fs, fails)
  {
    hide Healthy, RunFlushes;
    assert gs[..|fs|] == fs;
    StuckFlushes(env, w, gs, |fs|, fails);
  }

  lemma {:induction false} FlushedPrefix(logs: seq<Log>, end: nat, j: nat)
    requires j <= |logs|
    ensures Buffered(logs[..j], end).flushed <= Buffered(logs, end).flushed <= Flushes(logs, end)
    ensures j < |logs| ==>
              Buffered(logs[..j + 1], end) == Push(Buffered(logs[..j], end), BlockOf(logs[j], end), logs[j].event)
    decreases |logs|
  {
    if j == |logs| {
      assert logs[..j] == logs;
    } else {
      var before := logs[..|logs|-1];
      assert before[..j] == logs[..j];
      FlushedPrefix(before, end, j);
      assert logs[..j + 1][..j] == logs[..j];
    }
  }

  lemma BufferedNothing(env: Env, logs: seq<Log>, end: nat, w: World, fails: nat -> bool)
    requires Healthy(env, w)
    ensures Buffered(logs[..0], end) == Buffer([], None) && Buffered(logs[..|logs|], end) == Buffered(logs, end)
    ensures RunFlushes(env, w, [], fails) == Progress(w, true)
  {
    hide Healthy;
    assert logs[..0] == [] && logs[..|logs|] == logs;
  }

  lemma AgreeingBase(own: PubkeyOrId, ok: ShareCheck, t: Tables, st: State)
    requires Sound(ok, t) && Agrees(own, t, st)
    ensures BaseAgrees(t, st)
  {
    hide Sound;
  }

  class Processor {
    const env: Env
    const state: StateStore
    var block: nat
    var db: Tables

    ghost function World(): World
      reads this, state, state.shares, state.metadata, state.clusters
    {
      ChainFold.World(block, db, state.View())
    }

    ghost predicate Valid()
      reads this, state, state.shares, state.metadata, state.clusters
    {
      state.Valid() && Healthy(env, World())
    }

    // Opens the database: whatever ran before, the state is rebuilt from the tables.
    constructor (env: Env, block: nat, db: Tables)
      requires Loadable(db)
      ensures this.env == env && this.block == block && this.db == db
      ensures Rebuilt(env.own, env.ok, db, state.View())
      ensures Sound(env.ok, db) ==> Valid() && Agrees(env.own, db, state.View())
    {
      hide Sound, Rebuilt, Agrees;
      this.env, this.block, this.db := env, block, db;
      state := new StateStore(env.own, env.ok, block, db);
      new;
      if Sound(env.ok, db) {
        RebuiltAgrees(env.own, env.ok, db, state.View());
        AgreeingBase(env.own, env.ok, db, state.View());
      }
    }

    // One block, all or nothing. A database failure is only one more reason for nothing.
    method ProcessBlockLogs(n: nat, events: seq<Event>, fails: bool) returns (ok: bool)
      requires Valid()
      modifies this, state, state.shares, state.metadata, state.clusters
      ensures Valid() && ok == (!fails && Commit(env, old(World()), n, events).Some?)
      ensures World() == if ok then Commit(env, old(World()), n, events).value else old(World())
    {
      hide Sound, BaseAgrees, Handle, Apply;
      var tx := new Transaction(env, state.id, db);
      assert events[..0] == [];
      for i := 0 to |events|
        invariant tx.env == env && tx.published == state.id && fresh(tx) && World() == old(World()) && Valid()
        invariant var h := RunEvents(env, state.id, db, events[..i]);
                  !h.outcome.Aborted? && tx.tables == h.t && tx.updates == h.us
      {
        assert events[..i + 1][..i] == events[..i];
        EventAborts(env, state.id, db, events, i);
        var outcome := tx.ProcessEvent(events[i]);
        if outcome.Aborted? {
          return false;
        }
      }
      assert events[..|events|] == events;
      CommitHealthy(env, World(), n, events);
      if fails {
        return false;
      }
      db, block := tx.tables, n;
      ok := state.Publish(tx.updates + [SetLastProcessedBlock(n)]);
    }

    // The logs of a call, in order: each block is flushed when the next one begins, the last one at
    // the end, and then the end block if it had no logs.
    method ProcessLogs(logs: seq<Log>, end: nat, fails: nat -> bool) returns (ok: bool)
      requires Valid()
      modifies this, state, state.shares, state.metadata, state.clusters
      ensures Valid()
      ensures Progress(World(), ok) == RunFlushes(env, old(World()), Flushes(logs, end), fails)
    {
      hide Healthy, RunFlushes, Commit, Flushes, Buffered;
      ghost var start, fs := World(), Flushes(logs, end);
      var current: Option<nat>, events: seq<Event> := None, [];
      BufferedNothing(env, logs, end, start, fails);
      for i := 0 to |logs|
        invariant Valid() && RunFlushes(env, start, Buffered(logs[..i], end).flushed, fails) == Progress(World(), true)
        invariant Buffered(logs[..i], end).current == if current.Some? then Some(Flush(current.value, events)) else None
        invariant current.None? ==> events == []
      {
        var n := BlockOf(logs[i], end);
        ghost var b := Buffered(logs[..i], end);
        FlushedPrefix(logs, end, i);
        FlushedPrefix(logs, end, i + 1);
        if current.Some? && current.value != n {
          FlushStep(env, start, b.flushed, Flush(current.value, events), fails);
          var flushed := ProcessBlockLogs(current.value, events, fails(current.value));
          if !flushed {
            StuckAfter(env, start, b.flushed + [Flush(current.value, events)], fs, fails);
            return false;
          }
          events := [];
        }
        assert [] + [logs[i].event] == [logs[i].event];
        current, events := Some(n), events + [logs[i].event];
      }
      ok := FlushRest(logs, end, fails, current, events, start);
    }

    method FlushRest(
      logs: seq<Log>, end: nat, fails: nat -> bool, current: Option<nat>, events: seq<Event>, ghost start: World)
      returns (ok: bool)
      requires Valid() && Healthy(env, start)
      requires RunFlushes(env, start, Buffered(logs, end).flushed, fails) == Progress(World(), true)
      requires Buffered(logs, end).current == if current.Some? then Some(Flush(current.value, events)) else None
      modifies this, state, state.shares, state.metadata, state.clusters
      ensures Valid() && Progress(World(), ok) == RunFlushes(env, start, Flushes(logs, end), fails)
    {
      hide Healthy, RunFlushes, Commit, Buffered;
      ghost var b, fs := Buffered(logs, end), Flushes(logs, end);
      if current.Some? {
        FlushStep(env, start, b.flushed, Flush(current.value, events), fails);
        ok := ProcessBlockLogs(current.value, events, fails(current.value));
        if !ok {
          StuckAfter(env, start, b.All(), fs, fails);
          return;
        }
      }
      if current != Some(end) {
        assert b.flushed + [] == b.flushed;
        FlushStep(env, start, b.All(), Flush(end, []), fails);
        ok := ProcessBlockLogs(end, [], fails(end));
      }
    }
  }

  lemma {:induction false} EventAborts(env: Env, published: Option<OperatorId>, t: Tables, es: seq<Event>, i: nat)
    requires Sound(env.ok, t) && i < |es|
    ensures var h := RunEvents(env, published, t, es[..i]);
            && KeysUnique(h.t.operators)
            && (!h.outcome.Aborted? && Handle(env, published, h.t, es[i]).outcome.Aborted? ==>
                  RunEvents(env, published, t, es).outcome.Aborted?)
    decreases |es|
  {
    hide Handle;
    if i == |es| - 1 {
      assert es[..|es|-1] == es[..i];
    } else {
      assert es[..|es|-1][..i] == es[..i];
      EventAborts(env, published, t, es[..|es|-1], i);
    }
  }
}
