/**
 Registration nonces and operator ids over the event fold (database/src/cluster_operations.rs,
 eth/src/event_processor.rs) and the nonces a key split assigns (keysplit/src/split.rs).
 */
module Nonces {
  import opened Wrappers
  import opened OperatorIds
  import opened NetworkTables
  import opened EventHandlers
  import opened EventEffects
  import opened BlockEvents
  import opened ChainFold

  // ---------- counting registrations ----------

  function RegistersFor(e: Event, owner: Address): nat {
    if e.ValidatorAdded? && e.owner == owner then 1 else 0
  }

  // The decodable registrations of an owner among events, whatever becomes of them.
  function Registrations(es: seq<Event>, owner: Address): nat {
    if es == [] then 0 else Registrations(es[..|es|-1], owner) + RegistersFor(es[|es|-1], owner)
  }

  function RegistrationsTo(chain: Chain, owner: Address, n: nat): nat {
    if n == 0 then 0 else RegistrationsTo(chain, owner, n - 1) + Registrations(chain(n), owner)
  }

  // After `k` registrations the stored nonce is that of the last one.
  predicate NonceIs(t: Tables, owner: Address, k: nat) {
    NonceOf(t.owners, owner) == if k == 0 then None else Some(k - 1)
  }

  lemma EventNonce(env: Env, published: Option<OperatorId>, t: Tables, e: Event, owner: Address, k: nat)
    requires KeysUnique(t.operators) && NonceIs(t, owner, k) && !Handle(env, published, t, e).outcome.Aborted?
    ensures NonceIs(Handle(env, published, t, e).t, owner, k + RegistersFor(e, owner))
  {
    hide Handle;
    EventOwners(env, published, t, e);
  }

  lemma {:induction false} RunNonce(
    env: Env, published: Option<OperatorId>, t: Tables, es: seq<Event>, owner: Address, k: nat)
    requires Sound(env.ok, t) && NonceIs(t, owner, k) && !RunEvents(env, published, t, es).outcome.Aborted?
    ensures NonceIs(RunEvents(env, published, t, es).t, owner, k + Registrations(es, owner))
    decreases |es|
  {
    hide Handle, NonceIs, SharesSound, ClustersSound, MembersSound;
    if es != [] {
      RunNonce(env, published, t, es[..|es|-1], owner, k);
      EventNonce(env, published, RunEvents(env, published, t, es[..|es|-1]).t, es[|es|-1], owner,
        k + Registrations(es[..|es|-1], owner));
    }
  }

  lemma {:induction false} FoldNonce(env: Env, chain: Chain, n: nat, owner: Address)
    requires FoldTo(env, chain, n).Some?
    ensures NonceIs(FoldTo(env, chain, n).value, owner, RegistrationsTo(chain, owner, n))
    decreases n
  {
    hide Sound, RunEvents;
    if n > 0 {
      FoldNonce(env, chain, n - 1, owner);
      RunNonce(env, None, FoldTo(env, chain, n - 1).value, chain(n), owner, RegistrationsTo(chain, owner, n - 1));
    }
  }

  // The tables in which the event at position `i` of block `n` is handled.
  ghost function TablesAt(env: Env, chain: Chain, n: nat, i: nat): Tables
    requires n > 0 && i <= |chain(n)| && FoldTo(env, chain, n - 1).Some?
  {
    RunEvents(env, None, FoldTo(env, chain, n - 1).value, chain(n)[..i]).t
  }

  // How many registrations of the owner come before that event.
  function Earlier(chain: Chain, n: nat, i: nat, owner: Address): nat
    requires n > 0 && i <= |chain(n)|
  {
    RegistrationsTo(chain, owner, n - 1) + Registrations(chain(n)[..i], owner)
  }

  // The k-th registration of an owner is checked against nonce k-1, in both modes, whatever other
  // events there are and whatever became of the earlier registrations.
  lemma CheckedNonce(env: Env, chain: Chain, n: nat, i: nat, owner: Address)
    requires n > 0 && i <= |chain(n)| && FoldTo(env, chain, n - 1).Some?
    requires !RunEvents(env, None, FoldTo(env, chain, n - 1).value, chain(n)[..i]).outcome.Aborted?
    ensures BumpedNonce(TablesAt(env, chain, n, i).owners, owner) == Earlier(chain, n, i, owner)
  {
    hide Sound, RunEvents;
    FoldNonce(env, chain, n - 1, owner);
    RunNonce(env, None, FoldTo(env, chain, n - 1).value, chain(n)[..i], owner, RegistrationsTo(chain, owner, n - 1));
  }

  // A registration aborts its block exactly when its owner has made 65536 before: nonces are 16 bits wide.
  lemma RegistrationAborts(env: Env, chain: Chain, n: nat, i: nat)
    requires n > 0 && i < |chain(n)| && FoldTo(env, chain, n - 1).Some? && chain(n)[i].ValidatorAdded?
    requires !RunEvents(env, None, FoldTo(env, chain, n - 1).value, chain(n)[..i]).outcome.Aborted?
    ensures AbortCause(TablesAt(env, chain, n, i), chain(n)[i]) <==> Earlier(chain, n, i, chain(n)[i].owner) >= 65536
  {
    hide Sound, RunEvents, FoldTo, Earlier, TablesAt;
    CheckedNonce(env, chain, n, i, chain(n)[i].owner);
  }

  // ---------- the nonces of a key split ----------

  // A key splitter follows registrations of operators and validators only.
  function SplitEvents(es: seq<Event>): seq<Event> {
    if es == [] then []
    else
      var e := es[|es|-1];
      SplitEvents(es[..|es|-1]) + if e.OperatorAdded? || e.ValidatorAdded? then [e] else []
  }

  function SplitChain(chain: Chain): Chain {
    (n: nat) => SplitEvents(chain(n))
  }

  // The i-th key of a split made on the tables `t` carries this nonce.
  function SplitNonce(t: Tables, owner: Address, i: nat): nat {
    (match NonceOf(t.owners, owner) case Some(n) => n + 1 case None => 0) + i
  }

  lemma {:induction false} SplitRegistrations(es: seq<Event>, owner: Address)
    ensures Registrations(SplitEvents(es), owner) == Registrations(es, owner)
    decreases |es|
  {
    if es != [] {
      var before, e := SplitEvents(es[..|es|-1]), es[|es|-1];
      SplitRegistrations(es[..|es|-1], owner);
      if e.OperatorAdded? || e.ValidatorAdded? {
        assert (before + [e])[..|before|] == before;
      } else {
        assert before + [] == before;
      }
    }
  }

  lemma {:induction false} SplitRegistrationsTo(chain: Chain, owner: Address, n: nat)
    ensures RegistrationsTo(SplitChain(chain), owner, n) == RegistrationsTo(chain, owner, n)
    decreases n
  {
    if n > 0 {
      SplitRegistrationsTo(chain, owner, n - 1);
      SplitRegistrations(chain(n), owner);
    }
  }

  // If the splitter has followed the chain to block `m`, the registration with `k` others of the owner
  // between block `m` and itself is checked against the nonce of the split's k-th key.
  lemma SplitNonceIsChecked(node: Env, splitter: Env, chain: Chain, m: nat, n: nat, i: nat, owner: Address, k: nat)
    requires m < n && i <= |chain(n)| && FoldTo(node, chain, n - 1).Some?
    requires FoldTo(splitter, SplitChain(chain), m).Some?
    requires !RunEvents(node, None, FoldTo(node, chain, n - 1).value, chain(n)[..i]).outcome.Aborted?
    requires Earlier(chain, n, i, owner) == RegistrationsTo(chain, owner, m) + k
    ensures BumpedNonce(TablesAt(node, chain, n, i).owners, owner)
            == SplitNonce(FoldTo(splitter, SplitChain(chain), m).value, owner, k)
  {
    hide Sound, RunEvents, FoldTo;
    CheckedNonce(node, chain, n, i, owner);
    FoldNonce(splitter, SplitChain(chain), m, owner);
    SplitRegistrationsTo(chain, owner, m);
  }

  // ---------- fee recipients ----------

  // The recipient named last, or else the owner itself.
  function LastFee(es: seq<Event>, owner: Address, before: Address): Address {
    if es == [] then before else FeeAfter(es[|es|-1], owner, LastFee(es[..|es|-1], owner, before))
  }

  function LastFeeTo(chain: Chain, owner: Address, n: nat): Address {
    if n == 0 then owner else LastFee(chain(n), owner, LastFeeTo(chain, owner, n - 1))
  }

  lemma {:induction false} RunFee(env: Env, published: Option<OperatorId>, t: Tables, es: seq<Event>, owner: Address)
    requires Sound(env.ok, t) && !RunEvents(env, published, t, es).outcome.Aborted?
    ensures FeeOf(RunEvents(env, published, t, es).t.owners, owner) == LastFee(es, owner, FeeOf(t.owners, owner))
    decreases |es|
  {
    hide Handle, FeeOf, SharesSound, ClustersSound, MembersSound;
    if es != [] {
      RunFee(env, published, t, es[..|es|-1], owner);
      EventFee(env, published, RunEvents(env, published, t, es[..|es|-1]).t, es[|es|-1], owner);
    }
  }

  // In every run the fee recipient of an owner is the one its last update named.
  lemma {:induction false} FoldFee(env: Env, chain: Chain, n: nat, owner: Address)
    requires FoldTo(env, chain, n).Some?
    ensures FeeOf(FoldTo(env, chain, n).value.owners, owner) == LastFeeTo(chain, owner, n)
    decreases n
  {
    hide Sound, RunEvents;
    if n > 0 {
      FoldFee(env, chain, n - 1, owner);
      RunFee(env, None, FoldTo(env, chain, n - 1).value, chain(n), owner);
    }
  }

  // ---------- operator ids ----------

  // The ids whose registration was taken up, with or without an operator row.
  function Consumed(env: Env, published: Option<OperatorId>, t: Tables, es: seq<Event>): seq<OperatorId>
    requires Sound(env.ok, t)
  {
    if es == [] then []
    else
      var before, e := es[..|es|-1], es[|es|-1];
      var h := RunEvents(env, published, t, before);
      Consumed(env, published, t, before) + if !h.outcome.Aborted? && Takes(h.t, e) then [e.id] else []
  }

  // The ids consumed are the consecutive numbers up to the highest seen.
  lemma {:induction false} IdsConsecutive(env: Env, published: Option<OperatorId>, t: Tables, es: seq<Event>)
    requires Sound(env.ok, t)
    ensures var ids, t' := Consumed(env, published, t, es), RunEvents(env, published, t, es).t;
            && t'.maxOperatorId == Some(t.maxOperatorId.value + |ids|)
            && forall j :: 0 <= j < |ids| ==> ids[j] == t.maxOperatorId.value + 1 + j
    decreases |es|
  {
    hide Handle, SharesSound, ClustersSound, MembersSound;
    if es != [] {
      var before := es[..|es|-1];
      IdsConsecutive(env, published, t, before);
      EventIds(env, published, RunEvents(env, published, t, before).t, es[|es|-1]);
    }
  }

  // The ids consumed by the blocks up to `n`, in order.
  ghost function ConsumedTo(env: Env, chain: Chain, n: nat): seq<OperatorId> {
    if n == 0 || FoldTo(env, chain, n - 1).None? then []
    else ConsumedTo(env, chain, n - 1) + Consumed(env, None, FoldTo(env, chain, n - 1).value, chain(n))
  }

  // Over the whole chain the ids consumed are 1, 2, 3 and so on up to the highest seen, each exactly
  // once, and every operator row and every skip marker carries one of them, never both.
  lemma {:induction false} FoldIds(env: Env, chain: Chain, n: nat)
    requires FoldTo(env, chain, n).Some?
    ensures var ids, t := ConsumedTo(env, chain, n), FoldTo(env, chain, n).value;
            && t.maxOperatorId == Some(|ids|) && (forall j :: 0 <= j < |ids| ==> ids[j] == j + 1)
            && (forall id | id in t.operators || id in t.skipped :: id in ids)
            && (forall id | id in t.operators :: id !in t.skipped)
    decreases n
  {
    hide ClustersSound, MembersSound, SharesSound, RunEvents;
    if n > 0 {
      FoldIds(env, chain, n - 1);
      IdsConsecutive(env, None, FoldTo(env, chain, n - 1).value, chain(n));
    }
    var ids, t := ConsumedTo(env, chain, n), FoldTo(env, chain, n).value;
    forall id | id in t.operators || id in t.skipped
      ensures id in ids
    {
      assert ids[id - 1] == id;
    }
  }
}
