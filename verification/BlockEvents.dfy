/**
 The events of one block inside its transaction (eth/src/event_processor.rs, process_block_logs), and the
 replay of what they queue.
 */
module BlockEvents {
  import opened Wrappers
  import opened OperatorIds
  import opened NetworkTables
  import opened NetworkState
  import opened EventHandlers
  import opened EventMirror

  // The events of one block inside its transaction, up to the first that aborts it.
  function RunEvents(env: Env, published: Option<OperatorId>, t: Tables, es: seq<Event>): (h: Handled)
    requires Sound(env.ok, t)
    ensures Sound(env.ok, h.t)
  {
    if es == [] then Handled(t, [], Done)
    else
      var h := RunEvents(env, published, t, es[..|es|-1]);
      if h.outcome.Aborted? then h
      else
        HandleSound(env, published, h.t, es[|es|-1]);
        var g := Handle(env, published, h.t, es[|es|-1]);
        Handled(g.t, h.us + g.us, if g.outcome.Aborted? then Aborted else Done)
  }

  // The last event of a block that is not aborted, met where the ones before it have led.
  lemma LastEvent(env: Env, published: Option<OperatorId>, t: Tables, es: seq<Event>)
    requires Sound(env.ok, t) && es != [] && !RunEvents(env, published, t, es).outcome.Aborted?
    ensures var h, e := RunEvents(env, published, t, es[..|es|-1]), es[|es|-1];
            var g := Handle(env, published, h.t, e);
            && !h.outcome.Aborted? && !AbortCause(h.t, e)
            && RunEvents(env, published, t, es).t == g.t && RunEvents(env, published, t, es).us == h.us + g.us
  {
    hide OperatorsSound, ClustersSound, MembersSound, SharesSound, Handle, AbortCause;
    HandleSound(env, published, RunEvents(env, published, t, es[..|es|-1]).t, es[|es|-1]);
  }

  // What the tables become does not depend on the state in memory.
  lemma HandleTables(env: Env, p: Option<OperatorId>, q: Option<OperatorId>, t: Tables, e: Event)
    requires KeysUnique(t.operators)
    ensures Handle(env, p, t, e).t == Handle(env, q, t, e).t
    ensures Handle(env, p, t, e).outcome == Handle(env, q, t, e).outcome
  {
    hide Accepted, ShareRows, HandleOperatorAdded, HandleOperatorRemoved, HandleValidatorRemoved, InsertValidator;
  }

  lemma {:induction false} RunTables(
    env: Env, p: Option<OperatorId>, q: Option<OperatorId>, t: Tables, es: seq<Event>)
    requires Sound(env.ok, t)
    ensures RunEvents(env, p, t, es).t == RunEvents(env, q, t, es).t
    ensures RunEvents(env, p, t, es).outcome == RunEvents(env, q, t, es).outcome
    decreases |es|
  {
    hide ClustersSound, MembersSound, SharesSound, Handle;
    if es != [] {
      RunTables(env, p, q, t, es[..|es|-1]);
      HandleTables(env, p, q, RunEvents(env, p, t, es[..|es|-1]).t, es[|es|-1]);
    }
  }

  // ---------- tables alone ----------

  // The tables that events lead to.
  function After(env: Env, t: Tables, es: seq<Event>): (t': Tables)
    requires Sound(env.ok, t)
    ensures Sound(env.ok, t')
  {
    RunEvents(env, None, t, es).t
  }

  predicate NoneAborts(env: Env, t: Tables, es: seq<Event>)
    requires Sound(env.ok, t)
  {
    !RunEvents(env, None, t, es).outcome.Aborted?
  }

  lemma AfterLast(env: Env, t: Tables, es: seq<Event>)
    requires Sound(env.ok, t) && es != [] && NoneAborts(env, t, es)
    ensures var before, e := es[..|es|-1], es[|es|-1];
            && NoneAborts(env, t, before) && !AbortCause(After(env, t, before), e)
            && After(env, t, es) == Handle(env, None, After(env, t, before), e).t
  {
    hide Sound, Handle, AbortCause;
    LastEvent(env, None, t, es);
  }

  lemma {:induction false} AfterSplit(env: Env, t: Tables, es: seq<Event>, fs: seq<Event>)
    requires Sound(env.ok, t) && NoneAborts(env, t, es)
    ensures After(env, t, es + fs) == After(env, After(env, t, es), fs)
    ensures NoneAborts(env, t, es + fs) <==> NoneAborts(env, After(env, t, es), fs)
    decreases |fs|
  {
    hide Sound, Handle;
    if fs == [] {
      assert es + fs == es;
    } else {
      AfterSplit(env, t, es, fs[..|fs|-1]);
      assert (es + fs)[..|es + fs|-1] == es + fs[..|fs|-1];
    }
  }

  lemma {:induction false} PrefixRuns(env: Env, t: Tables, es: seq<Event>, k: nat)
    requires Sound(env.ok, t) && NoneAborts(env, t, es) && k <= |es|
    ensures NoneAborts(env, t, es[..k])
    decreases |es|
  {
    hide Sound, NoneAborts;
    if k == |es| {
      assert es[..k] == es;
    } else {
      AfterLast(env, t, es);
      PrefixRuns(env, t, es[..|es|-1], k);
      assert es[..|es|-1][..k] == es[..k];
    }
  }

  // ---------- the replay ----------

  // The state after replaying what the events so far have queued.
  ghost function Replayed(env: Env, t: Tables, st: State, es: seq<Event>): Option<State>
    requires Sound(env.ok, t)
  {
    ApplyAll(st, RunEvents(env, st.id, t, es).us)
  }

  lemma IdKept(st: State, u: StateUpdate)
    requires st.id.Some? && Apply(st, u).Some?
    ensures Apply(st, u).value.id == st.id
  {
  }

  lemma {:induction false} IdsKept(st: State, us: seq<StateUpdate>)
    requires st.id.Some? && ApplyAll(st, us).Some?
    ensures ApplyAll(st, us).value.id == st.id
    decreases |us|
  {
    hide Apply;
    if us != [] {
      IdsKept(st, us[..|us|-1]);
      IdKept(ApplyAll(st, us[..|us|-1]).value, us[|us|-1]);
    }
  }

  // The last event of a block, replayed on where the ones before it have led.
  lemma ReplayLast(env: Env, t: Tables, st: State, es: seq<Event>)
    requires Sound(env.ok, t) && es != [] && !RunEvents(env, st.id, t, es).outcome.Aborted?
    requires Replayed(env, t, st, es[..|es|-1]).Some?
    ensures var st1, e := Replayed(env, t, st, es[..|es|-1]).value, es[|es|-1];
            var g := Handle(env, st.id, RunEvents(env, st.id, t, es[..|es|-1]).t, e);
            Replayed(env, t, st, es) == ApplyAll(st1, g.us) && (st.id.Some? ==> st1.id == st.id)
  {
    hide ClustersSound, MembersSound, SharesSound, Handle, RunEvents, ApplyAll;
    LastEvent(env, st.id, t, es);
    var h := RunEvents(env, st.id, t, es[..|es|-1]);
    ApplyAllSplit(st, h.us, Handle(env, st.id, h.t, es[|es|-1]).us);
    if st.id.Some? {
      IdsKept(st, h.us);
    }
  }

  // Replaying the updates of a whole block never panics and restores the base.
  lemma {:induction false} EventsFollow(env: Env, t: Tables, st: State, es: seq<Event>)
    requires Sound(env.ok, t) && BaseAgrees(t, st) && !RunEvents(env, st.id, t, es).outcome.Aborted?
    ensures Replayed(env, t, st, es).Some?
    ensures BaseAgrees(RunEvents(env, st.id, t, es).t, Replayed(env, t, st, es).value)
    decreases |es|
  {
    hide Sound, BaseAgrees, Handle, ApplyAll, RunEvents, AbortCause;
    if es == [] {
      NothingReplayed(env, t, st);
    } else {
      hide Replayed;
      var before, e := es[..|es|-1], es[|es|-1];
      LastEvent(env, st.id, t, es);
      EventsFollow(env, t, st, before);
      ReplayLast(env, t, st, es);
      EventFollows(env, st.id, RunEvents(env, st.id, t, before).t, Replayed(env, t, st, before).value, e);
    }
  }

  lemma NothingReplayed(env: Env, t: Tables, st: State)
    requires Sound(env.ok, t)
    ensures RunEvents(env, st.id, t, []) == Handled(t, [], Done) && Replayed(env, t, st, []) == Some(st)
  {
  }
}
