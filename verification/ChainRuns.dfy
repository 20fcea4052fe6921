/**
 Whole runs of the event processor: calls that resume where the last one stopped, failures and restarts
 in any order (eth/src/event_processor.rs, eth/src/sync.rs).
 */
module ChainRuns {
  import opened Wrappers
  import opened BlockRanges
  import opened MultiIndex
  import opened NetworkTables
  import opened NetworkState
  import opened EventHandlers
  import opened EventMirror
  import opened Agreement
  import opened ChainFold

  // ---------- the start ----------

  function FirstState(own: PubkeyOrId): State {
    State(if own.OwnIdIs? then Some(own.id) else None, 0, Some(0), map[], map[], {},
          EmptyMultiMap(false, false, false), EmptyMultiMap(false, false, false), EmptyMultiMap(true, false, false))
  }

  function FirstWorld(own: PubkeyOrId): World {
    World(0, EmptyTables, FirstState(own))
  }

  lemma FirstOnFold(env: Env, chain: Chain)
    ensures OnFold(env, chain, FirstWorld(env.own), FirstWorld(env.own))
  {
    EmptySound(env.ok);
    assert Agrees(env.own, EmptyTables, FirstState(env.own));
  }

  // ---------- steps ----------

  // A call to process the blocks after the last one processed, up to `end`, during which the database
  // fails at some blocks; or a restart, which rebuilds the state in memory from the tables.
  datatype Step = Call(end: nat, fails: nat -> bool) | Restart(mem: State)

  ghost predicate Possible(env: Env, w: World, s: Step) {
    match s
    case Call(end, fails) => w.block < end
    case Restart(mem) => KeysUnique(w.db.operators) && Agrees(env.own, w.db, mem) && mem.lastBlock == w.block
  }

  ghost function Take(env: Env, chain: Chain, w: World, s: Step): World
    requires Healthy(env, w)
  {
    match s
    case Call(end, fails) => RunFlushes(env, w, Flushes(LogsOf(Tagged(chain), w.block + 1, end + 1), end), fails).world
    case Restart(mem) => World(w.block, w.db, mem)
  }

  // A sequence of worlds in which each follows from the one before by a possible step.
  ghost predicate IsRun(env: Env, chain: Chain, ws: seq<World>, steps: seq<Step>) {
    && |ws| == |steps| + 1 && ws[0] == FirstWorld(env.own)
    && forall i: nat | i < |steps| :: Leads(env, chain, ws[i], steps[i], ws[i + 1])
  }

  ghost predicate Leads(env: Env, chain: Chain, w: World, s: Step, w': World) {
    Healthy(env, w) ==> Possible(env, w, s) && w' == Take(env, chain, w, s)
  }

  // The world after the last restart among the first `k` steps, or the first world.
  ghost function LastRestart(ws: seq<World>, steps: seq<Step>, k: nat): World
    requires k <= |steps| && |ws| == |steps| + 1
  {
    if k == 0 || steps[k - 1].Restart? then ws[k] else LastRestart(ws, steps, k - 1)
  }

  lemma RestartOnFold(env: Env, chain: Chain, start: World, w: World, mem: State)
    requires OnFold(env, chain, start, w) && Possible(env, w, Restart(mem))
    ensures var w' := World(w.block, w.db, mem); OnFold(env, chain, w', w')
  {
    hide Sound, FoldTo, CoreAgrees, ClustersAgree;
  }

  lemma TakeOnFold(env: Env, chain: Chain, start: World, w: World, s: Step)
    requires OnFold(env, chain, start, w) && Possible(env, w, s)
    ensures var w' := Take(env, chain, w, s);
            OnFold(env, chain, if s.Restart? then w' else start, w') && w.block <= w'.block
  {
    hide Sound, BaseAgrees, FoldTo, FoldWorld, RunFlushes, Flushes, Agrees;
    match s
    case Call(end, fails) => CallOnFold(env, chain, start, w, w.block + 1, end, fails);
    case Restart(mem) => RestartOnFold(env, chain, start, w, mem);
  }

  // In every run the tables are the fold of all blocks up to the last one processed, each applied once
  // and in order, and tables and state together are the fold of the blocks since the last restart,
  // however the calls were cut and wherever they failed; the last processed block never goes back.
  lemma {:induction false} RunOnFold(env: Env, chain: Chain, ws: seq<World>, steps: seq<Step>, k: nat)
    requires IsRun(env, chain, ws, steps) && k <= |steps|
    ensures OnFold(env, chain, LastRestart(ws, steps, k), ws[k]) && (k > 0 ==> ws[k - 1].block <= ws[k].block)
    decreases k
  {
    hide OnFold, Take, Possible;
    if k == 0 {
      FirstOnFold(env, chain);
    } else {
      RunOnFold(env, chain, ws, steps, k - 1);
      var i := k - 1;
      OnFoldHealthy(env, chain, LastRestart(ws, steps, i), ws[i]);
      assert Leads(env, chain, ws[i], steps[i], ws[i + 1]);
      TakeOnFold(env, chain, LastRestart(ws, steps, i), ws[i], steps[i]);
    }
  }

  lemma OnFoldHealthy(env: Env, chain: Chain, start: World, w: World)
    requires OnFold(env, chain, start, w)
    ensures Healthy(env, w)
  {
  }

  // In every run the state agrees with the tables exactly when, since the last restart, no event has
  // removed the operator with our key and every join of a liquidated cluster has been followed by a
  // status event for that cluster or by its deletion.
  lemma RunAgreesExactly(env: Env, chain: Chain, ws: seq<World>, steps: seq<Step>, k: nat)
    requires IsRun(env, chain, ws, steps) && k <= |steps|
    ensures var start, w := LastRestart(ws, steps, k), ws[k];
            && Sound(env.ok, start.db) && Sound(env.ok, w.db)
            && (Agrees(env.own, w.db, w.mem) <==> Consistent(env, start.db, Between(chain, start.block, w.block)))
  {
    hide BaseAgrees, FoldTo, FoldWorld, Agrees, Leads, LastRestart;
    RunOnFold(env, chain, ws, steps, k);
    FoldAgreesExactly(env, chain, LastRestart(ws, steps, k), ws[k]);
  }

  // Two runs that have processed the same blocks have the same tables, and the same state too if they
  // go back to the same restart.
  lemma RunsMeet(env: Env, chain: Chain, ws: seq<World>, steps: seq<Step>, ws': seq<World>, steps': seq<Step>)
    requires IsRun(env, chain, ws, steps) && IsRun(env, chain, ws', steps')
    requires ws[|steps|].block == ws'[|steps'|].block
    ensures ws[|steps|].db == ws'[|steps'|].db
    ensures LastRestart(ws, steps, |steps|) == LastRestart(ws', steps', |steps'|) ==> ws[|steps|] == ws'[|steps'|]
  {
    hide Sound, BaseAgrees, FoldTo, FoldWorld, Agrees, Take, Possible, LastRestart;
    RunOnFold(env, chain, ws, steps, |steps|);
    RunOnFold(env, chain, ws', steps', |steps'|);
  }

  lemma {:induction false} NeverRestarted(ws: seq<World>, steps: seq<Step>, k: nat)
    requires k <= |steps| && |ws| == |steps| + 1 && forall i | 0 <= i < k :: steps[i].Call?
    ensures LastRestart(ws, steps, k) == ws[0]
    decreases k
  {
    if k > 0 {
      NeverRestarted(ws, steps, k - 1);
    }
  }

  // However a run without restarts is cut into calls, and wherever these fail, it leads to the same
  // tables and the same state.
  lemma CutsMeet(env: Env, chain: Chain, ws: seq<World>, steps: seq<Step>, ws': seq<World>, steps': seq<Step>)
    requires IsRun(env, chain, ws, steps) && IsRun(env, chain, ws', steps')
    requires (forall i | 0 <= i < |steps| :: steps[i].Call?) && (forall i | 0 <= i < |steps'| :: steps'[i].Call?)
    requires ws[|steps|].block == ws'[|steps'|].block
    ensures ws[|steps|] == ws'[|steps'|]
  {
    hide LastRestart, Leads;
    NeverRestarted(ws, steps, |steps|);
    NeverRestarted(ws', steps', |steps'|);
    RunsMeet(env, chain, ws, steps, ws', steps');
  }

  // The state in memory is the one a restart would build, up to the clusters that keys of removed
  // validators still point to.
  lemma RunMatchesRebuild(env: Env, chain: Chain, ws: seq<World>, steps: seq<Step>, rebuilt: State)
    requires IsRun(env, chain, ws, steps)
    requires var start, w := LastRestart(ws, steps, |steps|), ws[|steps|];
             && Sound(env.ok, start.db) && Consistent(env, start.db, Between(chain, start.block, w.block))
             && Possible(env, w, Restart(rebuilt))
    ensures var w := ws[|steps|];
            && w.mem.(clusters := rebuilt.clusters) == rebuilt
            && w.mem.clusters.(second := rebuilt.clusters.second) == rebuilt.clusters
            && forall v | v in w.db.validators ::
                 w.mem.clusters.second.Points(v, w.db.validators[v])
                 && rebuilt.clusters.second.Points(v, w.db.validators[v])
  {
    hide Sound, FoldTo, FoldWorld, Take, Consistent, LastRestart;
    var w := ws[|steps|];
    RunOnFold(env, chain, ws, steps, |steps|);
    FoldAgreesExactly(env, chain, LastRestart(ws, steps, |steps|), w);
    AgreementDetermines(env.own, w.db, w.mem, rebuilt);
  }
}
