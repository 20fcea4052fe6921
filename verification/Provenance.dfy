/**
 Where stored validators come from (eth/src/event_processor.rs, the validator handlers): every one was
 registered by an event of the chain that passed all checks, and only its owner removes it.
 */
module Provenance {
  import opened Wrappers
  import opened OperatorIds
  import opened NetworkTables
  import opened EventHandlers
  import opened BlockEvents
  import opened ChainFold
  import opened Nonces

  // The event registers the validator in the cluster with these shares, and its signature is over its
  // owner and this nonce.
  ghost predicate Registers(env: Env, e: Event, nonce: nat, v: Pubkey, c: ClusterId, rows: map<OperatorId, ShareRow>) {
    && env.mode.Node? && e.ValidatorAdded? && e.pubkey == Some(v) && e.shares.Some?
    && c == Cid(e.owner, e.operators) && |e.operators| in {4, 7, 10, 13} && Distinct(e.operators)
    && Paired(c, e.operators, e.shares.value.keys, rows)
    && env.signed(e.shares.value.signature, nonce, e.owner, v) && env.ok(v, rows)
  }

  // The validator is new and its operators are all there.
  predicate Admits(t: Tables, e: Event, v: Pubkey) {
    && e.ValidatorAdded? && v !in t.validators
    && forall i :: 0 <= i < |e.operators| ==> Active(t.operators, e.operators[i])
  }

  // The nonce a registration consumes.
  function NonceFor(t: Tables, e: Event): nat {
    if e.ValidatorAdded? then BumpedNonce(t.owners, e.owner) else 0
  }

  // The stored registration of a validator.
  predicate Stored(t: Tables, v: Pubkey, c: ClusterId, rows: map<OperatorId, ShareRow>) {
    v in t.validators && t.validators[v] == c && v in t.shares && t.shares[v] == rows
  }

  predicate RemovedBy(t: Tables, e: Event, v: Pubkey) {
    v in t.validators && e.ValidatorRemoved? && e.pubkey == Some(v) && e.owner == t.validators[v].owner
  }

  lemma InsertStored(
    t: Tables, c: ClusterId, v: Pubkey, rows: map<OperatorId, ShareRow>, w: Pubkey, d: ClusterId,
    rs: map<OperatorId, ShareRow>)
    requires v !in t.validators && v !in t.shares
    ensures Stored(InsertValidator(t, c, v, rows), w, d, rs)
            <==> (w != v && Stored(t, w, d, rs)) || (w == v && d == c && rs == rows)
  {
  }

  // A stored registration is exactly one that was there and whose owner does not remove it, or one
  // that the event makes and the tables admit.
  lemma EventStored(
    env: Env, published: Option<OperatorId>, t: Tables, e: Event, v: Pubkey, c: ClusterId,
    rows: map<OperatorId, ShareRow>)
    requires Sound(env.ok, t) && !AbortCause(t, e)
    ensures var h := Handle(env, published, t, e);
            Stored(h.t, v, c, rows)
            <==> || (Stored(t, v, c, rows) && !RemovedBy(t, e, v))
                 || (Registers(env, e, NonceFor(t, e), v, c, rows) && Admits(t, e, v))
  {
    match e
    case ValidatorAdded(owner, ids, pubkey, shares) => AddedStored(env, published, t, e, v, c, rows);
    case ValidatorRemoved(owner, _, pubkey) => RemovedStored(env.ok, t, owner, pubkey, v, c, rows);
    case _ => OthersStored(env, published, t, e, v, c, rows);
  }

  lemma OthersStored(
    env: Env, published: Option<OperatorId>, t: Tables, e: Event, v: Pubkey, c: ClusterId,
    rows: map<OperatorId, ShareRow>)
    requires KeysUnique(t.operators) && !e.ValidatorAdded? && !e.ValidatorRemoved?
    ensures Stored(Handle(env, published, t, e).t, v, c, rows) <==> Stored(t, v, c, rows)
  {
    hide IsMember, KeyTaken, KeysUnique, HandleValidatorAdded, HandleValidatorRemoved, ActiveByKey;
  }

  lemma RemovedStored(
    ok: ShareCheck, t: Tables, owner: Address, pubkey: Option<Pubkey>, v: Pubkey, c: ClusterId,
    rows: map<OperatorId, ShareRow>)
    requires Sound(ok, t)
    ensures Stored(HandleValidatorRemoved(t, owner, pubkey).t, v, c, rows)
            <==> Stored(t, v, c, rows) && !(pubkey == Some(v) && owner == c.owner)
  {
    hide MembersSound, SharesSound, OperatorsSound, Swept;
  }

  lemma RegisterStored(
    env: Env, published: Option<OperatorId>, t: Tables, nonce: nat, e: Event, v: Pubkey, c: ClusterId,
    rows: map<OperatorId, ShareRow>)
    requires KeysUnique(t.operators) && t.shares.Keys == t.validators.Keys && e.ValidatorAdded?
    ensures var h := Register(env, published, t, nonce, e.owner, e.operators, e.pubkey, e.shares);
            Stored(h.t, v, c, rows)
            <==> Stored(t, v, c, rows) || (Registers(env, e, nonce, v, c, rows) && Admits(t, e, v))
  {
    hide ShareRows, InsertValidator, Stored, Paired;
    AcceptedExactly(env, t, nonce, e, v, c, rows);
    if env.mode.Node? && Accepted(env, t, nonce, e.owner, e.operators, e.pubkey, e.shares) {
      var d := Cid(e.owner, e.operators);
      var w, rs := e.pubkey.value, ShareRows(d, e.operators, e.shares.value.keys);
      InsertStored(t, d, w, rs, v, c, rows);
      StoredKey(t, v, c, rows);
    }
  }

  // The checks pass for exactly these registrations, of 4, 7, 10 or 13 operators.
  lemma AcceptedExactly(
    env: Env, t: Tables, nonce: nat, e: Event, v: Pubkey, c: ClusterId, rows: map<OperatorId, ShareRow>)
    requires e.ValidatorAdded?
    ensures Registers(env, e, nonce, v, c, rows) && Admits(t, e, v)
            <==> && env.mode.Node? && Accepted(env, t, nonce, e.owner, e.operators, e.pubkey, e.shares)
                 && e.pubkey == Some(v) && c == Cid(e.owner, e.operators)
                 && rows == ShareRows(c, e.operators, e.shares.value.keys)
  {
    hide ShareRows, Paired;
    if e.shares.Some? && |e.shares.value.keys| == |e.operators| && Distinct(e.operators) {
      ShareRowsPaired(c, e.operators, e.shares.value.keys);
      if Paired(c, e.operators, e.shares.value.keys, rows) {
        PairedUnique(c, e.operators, e.shares.value.keys, rows, ShareRows(c, e.operators, e.shares.value.keys));
      }
    } else if e.shares.Some? {
      PairedLength(c, e.operators, e.shares.value.keys, rows);
    }
  }

  lemma PairedLength(c: ClusterId, ids: seq<OperatorId>, keys: seq<ShareKey>, rows: map<OperatorId, ShareRow>)
    ensures Paired(c, ids, keys, rows) ==> |ids| == |keys|
  {
  }

  lemma StoredKey(t: Tables, v: Pubkey, c: ClusterId, rows: map<OperatorId, ShareRow>)
    ensures Stored(t, v, c, rows) ==> v in t.validators
  {
  }

  lemma AddedStored(
    env: Env, published: Option<OperatorId>, t: Tables, e: Event, v: Pubkey, c: ClusterId,
    rows: map<OperatorId, ShareRow>)
    requires Sound(env.ok, t) && e.ValidatorAdded? && !AbortCause(t, e)
    ensures var h := Handle(env, published, t, e);
            Stored(h.t, v, c, rows)
            <==> Stored(t, v, c, rows) || (Registers(env, e, NonceFor(t, e), v, c, rows) && Admits(t, e, v))
  {
    hide MembersSound, ClustersSound, Register, Registers, ValidatorShares;
    RegisterStored(env, published, BumpNonce(t, e.owner), BumpedNonce(t.owners, e.owner), e, v, c, rows);
  }

  // The event at position `i` of block `n` made the registration.
  ghost predicate MadeAt(
    env: Env, chain: Chain, n: nat, i: nat, v: Pubkey, c: ClusterId, rows: map<OperatorId, ShareRow>)
  {
    n > 0 && i < |chain(n)| && Registers(env, chain(n)[i], Earlier(chain, n, i, c.owner), v, c, rows)
  }

  ghost predicate MadeBefore(
    env: Env, chain: Chain, n: nat, i: nat, v: Pubkey, c: ClusterId, rows: map<OperatorId, ShareRow>)
  {
    exists b: nat, j: nat :: (b < n || (b == n && j < i)) && MadeAt(env, chain, b, j, v, c, rows)
  }

  lemma {:induction false} StoredWithin(
    env: Env, chain: Chain, n: nat, i: nat, v: Pubkey, c: ClusterId, rows: map<OperatorId, ShareRow>)
    requires n > 0 && i <= |chain(n)| && FoldTo(env, chain, n - 1).Some?
    requires !RunEvents(env, None, FoldTo(env, chain, n - 1).value, chain(n)[..i]).outcome.Aborted?
    requires Stored(TablesAt(env, chain, n, i), v, c, rows)
    ensures MadeBefore(env, chain, n, i, v, c, rows)
    decreases n, i
  {
    hide Sound, Handle, Registers, Stored, Earlier, MadeAt;
    var t0, es := FoldTo(env, chain, n - 1).value, chain(n);
    if i == 0 {
      assert es[..0] == [];
      StoredWasRegistered(env, chain, n - 1, v, c, rows);
      var b: nat, j: nat :| (b < n - 1 || (b == n - 1 && j < |chain(n - 1)|)) && MadeAt(env, chain, b, j, v, c, rows);
      assert b < n && MadeAt(env, chain, b, j, v, c, rows);
    } else {
      var e, t := es[i - 1], TablesAt(env, chain, n, i - 1);
      assert es[..i][..i-1] == es[..i-1] && es[..i][i-1] == e;
      HandleSound(env, None, t, e);
      EventStored(env, None, t, e, v, c, rows);
      if Stored(t, v, c, rows) {
        StoredWithin(env, chain, n, i - 1, v, c, rows);
        var b: nat, j: nat :| (b < n || (b == n && j < i - 1)) && MadeAt(env, chain, b, j, v, c, rows);
        assert (b < n || (b == n && j < i)) && MadeAt(env, chain, b, j, v, c, rows);
      } else {
        RegisteredOwner(env, e, NonceFor(t, e), v, c, rows);
        CheckedNonce(env, chain, n, i - 1, c.owner);
        MadeHere(env, chain, n, i - 1, v, c, rows);
      }
    }
  }

  lemma RegisteredOwner(env: Env, e: Event, nonce: nat, v: Pubkey, c: ClusterId, rows: map<OperatorId, ShareRow>)
    requires Registers(env, e, nonce, v, c, rows)
    ensures e.ValidatorAdded? && c.owner == e.owner
  {
  }

  lemma MadeHere(env: Env, chain: Chain, n: nat, i: nat, v: Pubkey, c: ClusterId, rows: map<OperatorId, ShareRow>)
    requires n > 0 && i < |chain(n)| && Registers(env, chain(n)[i], Earlier(chain, n, i, c.owner), v, c, rows)
    ensures MadeBefore(env, chain, n, i + 1, v, c, rows)
  {
    hide Registers, Earlier;
    assert MadeAt(env, chain, n, i, v, c, rows);
  }

  // Every validator in the tables was registered by an event of the chain, with exactly the shares
  // that are stored, and signed for the number of registrations its owner had made before.
  lemma {:induction false} StoredWasRegistered(
    env: Env, chain: Chain, n: nat, v: Pubkey, c: ClusterId, rows: map<OperatorId, ShareRow>)
    requires FoldTo(env, chain, n).Some? && Stored(FoldTo(env, chain, n).value, v, c, rows)
    ensures n > 0 && MadeBefore(env, chain, n, |chain(n)|, v, c, rows)
    decreases n, |chain(n)| + 1
  {
    hide Sound, RunEvents, MadeBefore;
    if n > 0 {
      assert chain(n)[..|chain(n)|] == chain(n);
      StoredWithin(env, chain, n, |chain(n)|, v, c, rows);
    }
  }

  // ---------- exactly what is stored ----------

  // The event at `k` makes the registration: it is signed for the number of registrations its owner had
  // made before it, and the tables it meets admit it.
  ghost predicate MakesAt(
    env: Env, es: seq<Event>, k: nat, v: Pubkey, c: ClusterId, rows: map<OperatorId, ShareRow>)
    requires Sound(env.ok, EmptyTables)
  {
    && k < |es| && Registers(env, es[k], Registrations(es[..k], c.owner), v, c, rows)
    && Admits(After(env, EmptyTables, es[..k]), es[k], v)
  }

  // The owner of the cluster removes the validator.
  predicate RemovesAt(es: seq<Event>, j: nat, v: Pubkey, c: ClusterId) {
    j < |es| && es[j].ValidatorRemoved? && es[j].pubkey == Some(v) && es[j].owner == c.owner
  }

  ghost predicate MadeAndKept(
    env: Env, es: seq<Event>, k: nat, v: Pubkey, c: ClusterId, rows: map<OperatorId, ShareRow>)
    requires Sound(env.ok, EmptyTables)
  {
    MakesAt(env, es, k, v, c, rows) && forall j: nat | k < j :: !RemovesAt(es, j, v, c)
  }

  lemma MadeAndKeptStep(
    env: Env, es: seq<Event>, k: nat, v: Pubkey, c: ClusterId, rows: map<OperatorId, ShareRow>)
    requires Sound(env.ok, EmptyTables) && es != []
    ensures var n := |es| - 1;
            MadeAndKept(env, es, k, v, c, rows)
            <==> if k == n then MakesAt(env, es, n, v, c, rows)
                 else MadeAndKept(env, es[..n], k, v, c, rows) && !RemovesAt(es, n, v, c)
  {
    hide Sound, Registers, Admits, After;
    var n := |es| - 1;
    assert k < n ==> es[..n][..k] == es[..k];
    forall j: nat
      ensures RemovesAt(es[..n], j, v, c) <==> j < n && RemovesAt(es, j, v, c)
    {
    }
  }

  lemma NonceIsCount(env: Env, es: seq<Event>, owner: Address)
    requires Sound(env.ok, EmptyTables) && NoneAborts(env, EmptyTables, es)
    ensures BumpedNonce(After(env, EmptyTables, es).owners, owner) == Registrations(es, owner)
  {
    hide Sound, RunEvents;
    RunNonce(env, None, EmptyTables, es, owner, 0);
  }

  // From an empty database, a validator is stored in a cluster with these shares exactly when some event
  // made that registration and the cluster's owner has not removed the validator since.
  lemma {:induction false} StoredExactly(
    env: Env, es: seq<Event>, v: Pubkey, c: ClusterId, rows: map<OperatorId, ShareRow>)
    requires Sound(env.ok, EmptyTables) && NoneAborts(env, EmptyTables, es)
    ensures Stored(After(env, EmptyTables, es), v, c, rows) <==> exists k: nat :: MadeAndKept(env, es, k, v, c, rows)
    decreases |es|
  {
    hide Sound, Registers, Admits, Stored, Handle, AbortCause;
    if es == [] {
      NothingStored(v, c, rows);
    } else {
      hide After, NoneAborts, MadeAndKept;
      var n := |es| - 1;
      var e, t := es[n], After(env, EmptyTables, es[..n]);
      AfterLast(env, EmptyTables, es);
      StoredExactly(env, es[..n], v, c, rows);
      EventStored(env, None, t, e, v, c, rows);
      MakesHere(env, es, v, c, rows);
      MadeAndKeptStep(env, es, n, v, c, rows);
      if Stored(t, v, c, rows) {
        var k: nat :| MadeAndKept(env, es[..n], k, v, c, rows);
        StoredRemoval(t, e, v, c, rows);
        MadeAndKeptStep(env, es, k, v, c, rows);
        MadeBeforeEnd(env, es[..n], k, v, c, rows);
      }
      forall k: nat | MadeAndKept(env, es, k, v, c, rows)
        ensures Stored(After(env, EmptyTables, es), v, c, rows)
      {
        MadeAndKeptStep(env, es, k, v, c, rows);
      }
    }
  }

  lemma NothingStored(v: Pubkey, c: ClusterId, rows: map<OperatorId, ShareRow>)
    ensures !Stored(EmptyTables, v, c, rows)
  {
  }

  lemma MadeBeforeEnd(
    env: Env, es: seq<Event>, k: nat, v: Pubkey, c: ClusterId, rows: map<OperatorId, ShareRow>)
    requires Sound(env.ok, EmptyTables) && MadeAndKept(env, es, k, v, c, rows)
    ensures k < |es|
  {
  }

  lemma StoredRemoval(t: Tables, e: Event, v: Pubkey, c: ClusterId, rows: map<OperatorId, ShareRow>)
    requires Stored(t, v, c, rows)
    ensures RemovedBy(t, e, v) <==> e.ValidatorRemoved? && e.pubkey == Some(v) && e.owner == c.owner
  {
  }

  lemma MakesHere(env: Env, es: seq<Event>, v: Pubkey, c: ClusterId, rows: map<OperatorId, ShareRow>)
    requires Sound(env.ok, EmptyTables) && es != [] && NoneAborts(env, EmptyTables, es[..|es|-1])
    ensures var n := |es| - 1;
            var t := After(env, EmptyTables, es[..n]);
            MakesAt(env, es, n, v, c, rows)
            <==> Registers(env, es[n], NonceFor(t, es[n]), v, c, rows) && Admits(t, es[n], v)
  {
    hide Sound, After, NoneAborts, Paired, Admits;
    NonceIsCount(env, es[..|es|-1], c.owner);
  }

  // The same of the chain's fold.
  lemma FoldStoredExactly(env: Env, chain: Chain, n: nat, v: Pubkey, c: ClusterId, rows: map<OperatorId, ShareRow>)
    requires FoldTo(env, chain, n).Some?
    ensures Sound(env.ok, EmptyTables)
    ensures Stored(FoldTo(env, chain, n).value, v, c, rows)
            <==> exists k: nat :: MadeAndKept(env, Between(chain, 0, n), k, v, c, rows)
  {
    EmptySound(env.ok);
    hide Sound, FoldTo, Stored, MadeAndKept, Between;
    FoldIsAfter(env, chain, n);
    StoredExactly(env, Between(chain, 0, n), v, c, rows);
  }
}
