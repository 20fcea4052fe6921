/**
 The event fold (eth/src/event_processor.rs, process_logs): which tables and which in-memory state a
 chain of blocks leads to, and that every way of cutting the chain into calls, with failures anywhere,
 leads to the same.
 */
module ChainFold {
  import opened Wrappers
  import opened OperatorIds
  import opened BlockRanges
  import opened NetworkTables
  import opened NetworkState
  import opened EventHandlers
  import opened EventMirror
  import opened BlockEvents
  import opened Agreement

  type Chain = nat -> seq<Event>

  // ---------- the committed world ----------

  // The number of the last processed block, the tables, and the published state.
  datatype World = World(block: nat, db: Tables, mem: State)

  ghost predicate Healthy(env: Env, w: World) {
    Sound(env.ok, w.db) && BaseAgrees(w.db, w.mem) && w.mem.lastBlock == w.block
  }

  // One block, all or nothing: None when an event aborts it or the replay panics.
  ghost function Commit(env: Env, w: World, n: nat, es: seq<Event>): Option<World>
    requires Sound(env.ok, w.db)
  {
    var h := RunEvents(env, w.mem.id, w.db, es);
    if h.outcome.Aborted? then None
    else
      match ApplyAll(w.mem, h.us + [SetLastProcessedBlock(n)])
      case None => None
      case Some(mem) => Some(World(n, h.t, mem))
  }

  // A block that no event aborts is committed, and the world is healthy again.
  lemma CommitHealthy(env: Env, w: World, n: nat, es: seq<Event>)
    requires Healthy(env, w)
    ensures var h, r := RunEvents(env, w.mem.id, w.db, es), Commit(env, w, n, es);
            && (r.Some? <==> !h.outcome.Aborted?)
            && (r.Some? ==> Healthy(env, r.value) && r.value.block == n && r.value.db == h.t)
  {
    var h := RunEvents(env, w.mem.id, w.db, es);
    if !h.outcome.Aborted? {
      EventsFollow(env, w.db, w.mem, es);
      CommitShape(w.mem, h.us, n);
    }
  }

  lemma CommitShape(st: State, us: seq<StateUpdate>, n: nat)
    requires ApplyAll(st, us).Some?
    ensures ApplyAll(st, us + [SetLastProcessedBlock(n)]) == Some(ApplyAll(st, us).value.(lastBlock := n))
  {
    assert (us + [SetLastProcessedBlock(n)])[..|us|] == us;
  }

  // ---------- the fold of the tables ----------

  // The tables after all blocks up to `n`, each applied once and in order; None once a block aborts.
  function FoldTo(env: Env, chain: Chain, n: nat): (r: Option<Tables>)
    ensures r.Some? ==> Sound(env.ok, r.value)
  {
    if n == 0 then Some(EmptyTables)
    else
      match FoldTo(env, chain, n - 1)
      case None => None
      case Some(t) =>
        var h := RunEvents(env, None, t, chain(n));
        if h.outcome.Aborted? then None else Some(h.t)
  }

  // No logs strictly between the two blocks.
  ghost predicate Quiet(chain: Chain, lo: nat, hi: nat) {
    forall b :: lo < b < hi ==> chain(b) == []
  }

  lemma {:induction false} FoldOverQuiet(env: Env, chain: Chain, m: nat, n: nat)
    requires m <= n && Quiet(chain, m, n + 1)
    ensures FoldTo(env, chain, n) == FoldTo(env, chain, m)
    decreases n
  {
    hide Sound;
    if m < n {
      FoldOverQuiet(env, chain, m, n - 1);
    }
  }

  lemma FoldStep(env: Env, chain: Chain, n: nat, t: Tables, published: Option<OperatorId>)
    requires n > 0 && FoldTo(env, chain, n - 1) == Some(t)
    ensures var h := RunEvents(env, published, t, chain(n));
            FoldTo(env, chain, n) == if h.outcome.Aborted? then None else Some(h.t)
  {
    hide Sound;
    RunTables(env, None, published, t, chain(n));
  }

  // ---------- the fold of tables and state ----------

  // The world after all blocks from `start` up to `n`, one commit per block, empty ones included.
  ghost function FoldWorld(env: Env, chain: Chain, start: World, n: nat): (r: Option<World>)
    requires Healthy(env, start)
    ensures r.Some? ==> Healthy(env, r.value)
    decreases n
  {
    if n <= start.block then Some(start)
    else
      match FoldWorld(env, chain, start, n - 1)
      case None => None
      case Some(w) =>
        CommitHealthy(env, w, n, chain(n));
        Commit(env, w, n, chain(n))
  }

  // The world with another block number.
  function AtBlock(w: World, n: nat): World {
    World(n, w.db, w.mem.(lastBlock := n))
  }

  ghost predicate SameButBlock(a: Option<State>, b: Option<State>) {
    (a.None? <==> b.None?) && (a.Some? ==> a.value.(lastBlock := 0) == b.value.(lastBlock := 0))
  }

  lemma ApplyElsewhere(a: State, b: State, u: StateUpdate)
    requires SameButBlock(Some(a), Some(b))
    ensures SameButBlock(Apply(a, u), Apply(b, u))
  {
  }

  // No update looks at the number of the last processed block.
  lemma {:induction false} ApplyAllElsewhere(st: State, n: nat, us: seq<StateUpdate>)
    ensures SameButBlock(ApplyAll(st.(lastBlock := n), us), ApplyAll(st, us))
    decreases |us|
  {
    hide Apply;
    if us != [] {
      ApplyAllElsewhere(st, n, us[..|us|-1]);
      var a, b := ApplyAll(st.(lastBlock := n), us[..|us|-1]), ApplyAll(st, us[..|us|-1]);
      if a.Some? {
        ApplyElsewhere(a.value, b.value, us[|us|-1]);
      }
    }
  }

  lemma CommitElsewhere(env: Env, w: World, k: nat, n: nat, es: seq<Event>)
    requires Healthy(env, w)
    ensures Commit(env, AtBlock(w, k), n, es) == Commit(env, w, n, es)
  {
    hide Sound, BaseAgrees, ApplyAll, RunEvents;
    var h := RunEvents(env, w.mem.id, w.db, es);
    if !h.outcome.Aborted? {
      EventsFollow(env, w.db, w.mem, es);
      ApplyAllElsewhere(w.mem, k, h.us);
      CommitShape(w.mem, h.us, n);
      CommitShape(w.mem.(lastBlock := k), h.us, n);
    }
  }

  lemma CommitEmpty(env: Env, w: World, n: nat)
    requires Healthy(env, w)
    ensures Commit(env, w, n, []) == Some(AtBlock(w, n))
  {
    hide Sound, BaseAgrees;
    CommitShape(w.mem, [], n);
  }

  lemma {:induction false} WorldOverQuiet(env: Env, chain: Chain, start: World, w: World, n: nat)
    requires Healthy(env, start) && start.block <= w.block <= n && Quiet(chain, w.block, n + 1)
    requires FoldWorld(env, chain, start, w.block) == Some(w)
    ensures FoldWorld(env, chain, start, n) == Some(AtBlock(w, n))
    decreases n
  {
    hide Sound, BaseAgrees, Commit;
    if w.block < n {
      WorldOverQuiet(env, chain, start, w, n - 1);
      CommitEmpty(env, AtBlock(w, n - 1), n);
    }
  }

  // Skipping blocks without logs leads to the same world.
  lemma WorldStep(env: Env, chain: Chain, start: World, w: World, n: nat)
    requires Healthy(env, start) && Healthy(env, w) && start.block <= w.block < n && Quiet(chain, w.block, n)
    requires FoldWorld(env, chain, start, w.block) == Some(w)
    ensures FoldWorld(env, chain, start, n) == Commit(env, w, n, chain(n))
  {
    hide Sound, BaseAgrees, Commit;
    WorldOverQuiet(env, chain, start, w, n - 1);
    CommitElsewhere(env, w, n - 1, n, chain(n));
  }

  // The world is where one commit per block leads from `start`, a world whose state agrees with its
  // tables; and its tables are where the fold of all blocks leads.
  ghost predicate OnFold(env: Env, chain: Chain, start: World, w: World) {
    && Healthy(env, start) && Agrees(env.own, start.db, start.mem) && FoldTo(env, chain, start.block) == Some(start.db)
    && Healthy(env, w) && start.block <= w.block
    && FoldTo(env, chain, w.block) == Some(w.db) && FoldWorld(env, chain, start, w.block) == Some(w)
  }

  lemma CommitOnFold(env: Env, chain: Chain, start: World, w: World, n: nat)
    requires OnFold(env, chain, start, w) && w.block < n && Quiet(chain, w.block, n)
    ensures var r := Commit(env, w, n, chain(n));
            && (r.Some? ==> OnFold(env, chain, start, r.value) && r.value.block == n)
            && (r.None? ==> FoldTo(env, chain, n).None?)
  {
    hide Sound, BaseAgrees, FoldTo, FoldWorld, Commit, RunEvents, Agrees;
    FoldOverQuiet(env, chain, w.block, n - 1);
    FoldStep(env, chain, n, w.db, w.mem.id);
    CommitHealthy(env, w, n, chain(n));
    WorldStep(env, chain, start, w, n);
  }

  // ---------- agreement on the fold ----------

  // The events of the blocks after `lo` up to `hi`.
  function Between(chain: Chain, lo: nat, hi: nat): seq<Event> {
    if hi <= lo then [] else Between(chain, lo, hi - 1) + chain(hi)
  }

  // The fold block by block is the fold of all the events in one list.
  lemma {:induction false} FoldIsAfter(env: Env, chain: Chain, n: nat)
    requires Sound(env.ok, EmptyTables)
    ensures FoldTo(env, chain, n).Some? <==> NoneAborts(env, EmptyTables, Between(chain, 0, n))
    ensures FoldTo(env, chain, n).Some? ==> FoldTo(env, chain, n).value == After(env, EmptyTables, Between(chain, 0, n))
    decreases n
  {
    hide Sound, Handle;
    if n > 0 {
      FoldIsAfter(env, chain, n - 1);
      if FoldTo(env, chain, n - 1).Some? {
        AfterSplit(env, EmptyTables, Between(chain, 0, n - 1), chain(n));
      } else {
        AbortStays(env, EmptyTables, Between(chain, 0, n - 1), chain(n));
      }
    }
  }

  lemma AbortStays(env: Env, t: Tables, es: seq<Event>, fs: seq<Event>)
    requires Sound(env.ok, t) && !NoneAborts(env, t, es)
    ensures !NoneAborts(env, t, es + fs)
  {
    hide Sound, NoneAborts;
    assert (es + fs)[..|es|] == es;
    if NoneAborts(env, t, es + fs) {
      PrefixRuns(env, t, es + fs, |es|);
    }
  }

  lemma StandsAtBlock(own: PubkeyOrId, t: Tables, st: State, wrong: set<ClusterId>, lost: bool, n: nat)
    requires KeysUnique(t.operators) && Stands(own, t, st, wrong, lost)
    ensures Stands(own, t, st.(lastBlock := n), wrong, lost)
  {
  }

  // How the world stands after the blocks from `start` on, told from their events.
  ghost predicate StandsAfter(env: Env, start: World, es: seq<Event>, w: World)
    requires Sound(env.ok, start.db)
  {
    && NoneAborts(env, start.db, es) && w.db == After(env, start.db, es)
    && Stands(env.own, w.db, w.mem, Stale(env, start.db, es, {}), OwnRemoved(env, start.db, es))
  }

  lemma CommitStands(env: Env, start: World, es: seq<Event>, w: World, n: nat, fs: seq<Event>)
    requires Sound(env.ok, start.db) && Healthy(env, w) && StandsAfter(env, start, es, w) && Commit(env, w, n, fs).Some?
    ensures StandsAfter(env, start, es + fs, Commit(env, w, n, fs).value)
  {
    hide ClustersSound, MembersSound, SharesSound, BaseAgrees, Stands, RunEvents, ApplyAll, Stale, OwnRemoved;
    var h := RunEvents(env, w.mem.id, w.db, fs);
    var wrong, lost := Stale(env, start.db, es, {}), OwnRemoved(env, start.db, es);
    RunTables(env, None, w.mem.id, w.db, fs);
    AfterSplit(env, start.db, es, fs);
    StaleSplit(env, start.db, es, fs, {});
    RunStands(env, w.db, w.mem, fs, wrong, lost);
    CommitShape(w.mem, h.us, n);
    StandsAtBlock(env.own, h.t, Replayed(env, w.db, w.mem, fs).value,
                  Stale(env, w.db, fs, wrong), lost || OwnRemoved(env, w.db, fs), n);
  }

  lemma StartStands(env: Env, start: World)
    requires Healthy(env, start) && Agrees(env.own, start.db, start.mem)
    ensures StandsAfter(env, start, [], start)
  {
    hide ClustersSound, MembersSound, SharesSound, CoreAgrees, ClustersAgree, OwnAgrees;
  }

  lemma {:induction false} FoldStands(env: Env, chain: Chain, start: World, n: nat)
    requires Healthy(env, start) && Agrees(env.own, start.db, start.mem) && FoldWorld(env, chain, start, n).Some?
    ensures StandsAfter(env, start, Between(chain, start.block, n), FoldWorld(env, chain, start, n).value)
    decreases n
  {
    hide Sound, BaseAgrees, Agrees, Commit, StandsAfter;
    if n <= start.block {
      StartStands(env, start);
    } else {
      FoldStands(env, chain, start, n - 1);
      var es, w := Between(chain, start.block, n - 1), FoldWorld(env, chain, start, n - 1).value;
      CommitStands(env, start, es, w, n, chain(n));
    }
  }

  // On the fold the state agrees with the tables exactly when, since the start, no event has removed
  // the operator with our key and every join of a liquidated cluster has been followed by a status
  // event for that cluster or by its deletion.
  lemma FoldAgreesExactly(env: Env, chain: Chain, start: World, w: World)
    requires OnFold(env, chain, start, w)
    ensures Agrees(env.own, w.db, w.mem) <==> Consistent(env, start.db, Between(chain, start.block, w.block))
  {
    hide ClustersSound, MembersSound, SharesSound, BaseAgrees, Agrees, FoldTo, FoldWorld, Stands, Consistent, Stale,
         OwnRemoved;
    var es := Between(chain, start.block, w.block);
    FoldStands(env, chain, start, w.block);
    StandsExactly(env.own, w.db, w.mem, Stale(env, start.db, es, {}), OwnRemoved(env, start.db, es));
    ConsistentMeaning(env, start.db, es);
  }

  // ---------- a call: logs grouped into blocks ----------

  datatype Log = Log(block: Option<nat>, event: Event)
  datatype Flush = Flush(block: nat, events: seq<Event>)

  // What has been flushed, and the block being buffered.
  datatype Buffer = Buffer(flushed: seq<Flush>, current: Option<Flush>)
  {
    function All(): seq<Flush> {
      flushed + match current case None => [] case Some(f) => [f]
    }
  }

  function BlockOf(log: Log, end: nat): nat {
    if log.block.Some? then log.block.value else end
  }

  function Push(b: Buffer, n: nat, e: Event): Buffer {
    if b.current.Some? && b.current.value.block != n then Buffer(b.flushed + [b.current.value], Some(Flush(n, [e])))
    else Buffer(b.flushed, Some(Flush(n, (if b.current.Some? then b.current.value.events else []) + [e])))
  }

  function Buffered(logs: seq<Log>, end: nat): Buffer {
    if logs == [] then Buffer([], None)
    else Push(Buffered(logs[..|logs|-1], end), BlockOf(logs[|logs|-1], end), logs[|logs|-1].event)
  }

  // The last flush is of the end block, if need be an empty one.
  function Flushes(logs: seq<Log>, end: nat): seq<Flush> {
    var b := Buffered(logs, end);
    if b.current.Some? && b.current.value.block == end then b.All() else b.All() + [Flush(end, [])]
  }

  function Tagged(chain: Chain): nat -> seq<Log> {
    (n: nat) => TaggedBlock(n, chain(n))
  }

  function TaggedBlock(n: nat, es: seq<Event>): seq<Log> {
    seq(|es|, i requires 0 <= i < |es| => Log(Some(n), es[i]))
  }

  // The blocks from `from` up to `m` that have logs.
  function NonEmpty(chain: Chain, from: nat, m: nat): seq<Flush> {
    if m <= from then []
    else NonEmpty(chain, from, m - 1) + if chain(m - 1) == [] then [] else [Flush(m - 1, chain(m - 1))]
  }

  lemma NonEmptyStep(chain: Chain, from: nat, n: nat)
    requires from <= n
    ensures NonEmpty(chain, from, n + 1)
            == if chain(n) == [] then NonEmpty(chain, from, n) else NonEmpty(chain, from, n) + [Flush(n, chain(n))]
  {
    assert NonEmpty(chain, from, n) + [] == NonEmpty(chain, from, n);
  }

  lemma PushOn(b: Buffer, n: nat, e: Event)
    ensures b.current.Some? && b.current.value.block == n
            ==> Push(b, n, e) == Buffer(b.flushed, Some(Flush(n, b.current.value.events + [e])))
    ensures !(b.current.Some? && b.current.value.block == n) ==> Push(b, n, e) == Buffer(b.All(), Some(Flush(n, [e])))
  {
    assert [] + [e] == [e] && b.flushed + [] == b.flushed;
  }

  lemma {:induction false} BufferedBlock(before: seq<Log>, n: nat, es: seq<Event>, end: nat)
    requires var b := Buffered(before, end); b.current.Some? ==> b.current.value.block != n
    ensures var b, after := Buffered(before, end), Buffered(before + TaggedBlock(n, es), end);
            if es == [] then after == b else after == Buffer(b.All(), Some(Flush(n, es)))
    decreases |es|
  {
    hide Push, Buffer.All;
    var logs := before + TaggedBlock(n, es);
    if es == [] {
      assert logs == before;
    } else {
      var k := |es| - 1;
      assert logs[..|logs|-1] == before + TaggedBlock(n, es[..k]);
      assert logs[|logs|-1] == Log(Some(n), es[k]);
      BufferedBlock(before, n, es[..k], end);
      PushOn(Buffered(before + TaggedBlock(n, es[..k]), end), n, es[k]);
      assert es == es[..k] + [es[k]];
    }
  }

  // The buffer holds exactly the blocks with logs so far, the last one as current.
  ghost predicate Holding(b: Buffer, fs: seq<Flush>) {
    if fs == [] then b == Buffer([], None) else b == Buffer(fs[..|fs|-1], Some(fs[|fs|-1]))
  }

  lemma HoldingNext(b: Buffer, fs: seq<Flush>, f: Flush)
    requires Holding(b, fs)
    ensures b.All() == fs && Holding(Buffer(b.All(), Some(f)), fs + [f])
  {
    assert (fs + [f])[..|fs|] == fs;
    assert b.All() == fs;
  }

  lemma {:induction false} NonEmptyBlocks(chain: Chain, from: nat, m: nat)
    ensures forall i :: 0 <= i < |NonEmpty(chain, from, m)| ==> NonEmpty(chain, from, m)[i].block < m
    decreases m
  {
    if m > from {
      NonEmptyBlocks(chain, from, m - 1);
    }
  }

  lemma {:induction false} BufferedChain(chain: Chain, from: nat, m: nat, end: nat)
    ensures Holding(Buffered(LogsOf(Tagged(chain), from, m), end), NonEmpty(chain, from, m))
    decreases m
  {
    if m > from {
      var before, fs := LogsOf(Tagged(chain), from, m - 1), NonEmpty(chain, from, m - 1);
      BufferedChain(chain, from, m - 1, end);
      NonEmptyBlocks(chain, from, m - 1);
      BufferedBlock(before, m - 1, chain(m - 1), end);
      assert LogsOf(Tagged(chain), from, m) == before + TaggedBlock(m - 1, chain(m - 1));
      HoldingNext(Buffered(before, end), fs, Flush(m - 1, chain(m - 1)));
      NonEmptyStep(chain, from, m - 1);
    }
  }

  // Grouping the logs of a block range gives its blocks with logs, in order, and then the end block.
  lemma FlushesOfChain(chain: Chain, from: nat, end: nat)
    requires from <= end
    ensures Flushes(LogsOf(Tagged(chain), from, end + 1), end) == NonEmpty(chain, from, end) + [Flush(end, chain(end))]
  {
    var b, fs := Buffered(LogsOf(Tagged(chain), from, end + 1), end), NonEmpty(chain, from, end);
    BufferedChain(chain, from, end + 1, end);
    NonEmptyBlocks(chain, from, end);
    NonEmptyStep(chain, from, end);
    LastFlush(b, fs, end, chain(end));
  }

  lemma LastFlush(b: Buffer, fs: seq<Flush>, end: nat, last: seq<Event>)
    requires Holding(b, if last == [] then fs else fs + [Flush(end, last)])
    requires forall i :: 0 <= i < |fs| ==> fs[i].block < end
    ensures (if b.current.Some? && b.current.value.block == end then b.All() else b.All() + [Flush(end, [])])
            == fs + [Flush(end, last)]
  {
    HoldingNext(b, if last == [] then fs else fs + [Flush(end, last)], Flush(end, []));
    if last != [] {
      assert (fs + [Flush(end, last)])[|fs|] == Flush(end, last);
    }
  }

  // The events of the flushes in order, each with its block.
  function Flushed(fs: seq<Flush>): seq<(nat, Event)> {
    if fs == [] then [] else Flushed(fs[..|fs|-1]) + WithBlock(fs[|fs|-1].block, fs[|fs|-1].events)
  }

  function WithBlock(n: nat, es: seq<Event>): seq<(nat, Event)> {
    seq(|es|, i requires 0 <= i < |es| => (n, es[i]))
  }

  // The events of the logs; a log without a block number counts for the end block.
  function Told(logs: seq<Log>, end: nat): seq<(nat, Event)> {
    seq(|logs|, i requires 0 <= i < |logs| =>
      (match logs[i].block { case None => end case Some(n) => n }, logs[i].event))
  }

  ghost predicate BlocksChange(fs: seq<Flush>) {
    forall i, j :: 0 <= i && j == i + 1 && j < |fs| ==> fs[i].block != fs[j].block
  }

  lemma FlushedOneMore(fs: seq<Flush>, f: Flush)
    ensures Flushed(fs + [f]) == Flushed(fs) + WithBlock(f.block, f.events)
  {
    assert (fs + [f])[..|fs|] == fs;
  }

  lemma WithBlockMore(n: nat, es: seq<Event>, e: Event)
    ensures WithBlock(n, es + [e]) == WithBlock(n, es) + [(n, e)]
  {
  }

  lemma PushKeeps(b: Buffer, n: nat, e: Event)
    requires b.current.None? ==> b.flushed == []
    ensures Push(b, n, e).current.Some? && Flushed(Push(b, n, e).All()) == Flushed(b.All()) + [(n, e)]
  {
    hide Flushed, WithBlock;
    if b.current.Some? && b.current.value.block == n {
      var es := b.current.value.events;
      FlushedOneMore(b.flushed, Flush(n, es));
      FlushedOneMore(b.flushed, Flush(n, es + [e]));
      WithBlockMore(n, es, e);
    } else {
      assert [] + [e] == [e];
      FlushedOneMore(b.All(), Flush(n, [e]));
      WithBlockMore(n, [], e);
      NothingFlushed(n);
      assert Push(b, n, e).All() == b.All() + [Flush(n, [e])];
    }
  }

  lemma NothingFlushed(n: nat)
    ensures Flushed([]) == [] && WithBlock(n, []) == []
  {
  }

  lemma PushChanges(b: Buffer, n: nat, e: Event)
    requires b.current.None? ==> b.flushed == []
    requires BlocksChange(b.All())
    ensures BlocksChange(Push(b, n, e).All())
  {
    var fs, fs' := b.All(), Push(b, n, e).All();
    if b.current.Some? && b.current.value.block == n {
      assert |fs'| == |fs| && forall i :: 0 <= i < |fs| ==> fs'[i].block == fs[i].block;
    } else {
      assert [] + [e] == [e];
      assert fs' == fs + [Flush(n, [e])];
    }
  }

  lemma {:induction false} BufferedKeeps(logs: seq<Log>, end: nat)
    ensures var b := Buffered(logs, end);
            && (b.current.None? ==> b.flushed == []) && BlocksChange(b.All()) && Flushed(b.All()) == Told(logs, end)
    decreases |logs|
  {
    hide BlocksChange, Push, Told, BlockOf;
    if logs == [] {
      NothingBuffered(end);
    } else {
      var before, log := logs[..|logs|-1], logs[|logs|-1];
      BufferedKeeps(before, end);
      PushKeeps(Buffered(before, end), BlockOf(log, end), log.event);
      PushChanges(Buffered(before, end), BlockOf(log, end), log.event);
      ToldOneMore(logs, end);
    }
  }

  lemma ToldOneMore(logs: seq<Log>, end: nat)
    requires logs != []
    ensures var log := logs[|logs|-1];
            Told(logs, end) == Told(logs[..|logs|-1], end) + [(BlockOf(log, end), log.event)]
  {
  }

  lemma NothingBuffered(end: nat)
    ensures BlocksChange(Buffer([], None).All()) && Flushed(Buffer([], None).All()) == [] == Told([], end)
  {
  }

  // Grouping any logs, numbered or not, loses nothing and keeps the order; no block is committed twice
  // running, and the last one committed is the end block.
  lemma FlushesKeep(logs: seq<Log>, end: nat)
    ensures var fs := Flushes(logs, end);
            Flushed(fs) == Told(logs, end) && BlocksChange(fs) && fs != [] && fs[|fs|-1].block == end
  {
    BufferedKeeps(logs, end);
    FlushedOneMore(Buffered(logs, end).All(), Flush(end, []));
  }

  datatype Progress = Progress(world: World, ok: bool)

  // Commits flushes in order until one aborts or the database fails.
  ghost function RunFlushes(env: Env, w: World, fs: seq<Flush>, fails: nat -> bool): (r: Progress)
    requires Healthy(env, w)
    ensures Healthy(env, r.world)
  {
    if fs == [] then Progress(w, true)
    else
      var p := RunFlushes(env, w, fs[..|fs|-1], fails);
      var f := fs[|fs|-1];
      CommitHealthy(env, p.world, f.block, f.events);
      if !p.ok || fails(f.block) || Commit(env, p.world, f.block, f.events).None? then Progress(p.world, false)
      else Progress(Commit(env, p.world, f.block, f.events).value, true)
  }

  // The database fails at the block, or the fold itself does not get past it.
  predicate Blocked(env: Env, chain: Chain, b: nat, fails: nat -> bool) {
    fails(b) || FoldTo(env, chain, b).None?
  }

  // Where a run that started at block `lo` stands when all blocks before `m` have had their turn.
  ghost predicate Reached(env: Env, chain: Chain, start: World, lo: nat, m: nat, fails: nat -> bool, p: Progress) {
    && OnFold(env, chain, start, p.world) && lo <= p.world.block < m
    && (p.ok ==> Quiet(chain, p.world.block, m))
    && (!p.ok ==> exists b :: lo < b < m && Blocked(env, chain, b, fails))
  }

  lemma ReachedStart(env: Env, chain: Chain, start: World, w: World, from: nat, fails: nat -> bool)
    requires OnFold(env, chain, start, w) && w.block < from && Quiet(chain, w.block, from)
    ensures Reached(env, chain, start, w.block, from, fails, RunFlushes(env, w, [], fails))
  {
    hide Sound, BaseAgrees, FoldTo, FoldWorld, Agrees;
  }

  lemma ReachedQuiet(env: Env, chain: Chain, start: World, lo: nat, m: nat, fails: nat -> bool, p: Progress)
    requires Reached(env, chain, start, lo, m, fails, p) && chain(m) == []
    ensures Reached(env, chain, start, lo, m + 1, fails, p)
  {
    hide OnFold, Blocked;
  }

  lemma ReachedFlush(env: Env, chain: Chain, start: World, w: World, m: nat, fs: seq<Flush>, fails: nat -> bool)
    requires Healthy(env, w) && Reached(env, chain, start, w.block, m, fails, RunFlushes(env, w, fs, fails))
    ensures var p := RunFlushes(env, w, fs + [Flush(m, chain(m))], fails);
            Reached(env, chain, start, w.block, m + 1, fails, p) && (p.ok ==> p.world.block == m)
  {
    hide Sound, BaseAgrees, FoldTo, Agrees, FoldWorld;
    var p := RunFlushes(env, w, fs, fails);
    assert (fs + [Flush(m, chain(m))])[..|fs|] == fs;
    if p.ok {
      CommitOnFold(env, chain, start, p.world, m);
      assert Blocked(env, chain, m, fails) <==> fails(m) || FoldTo(env, chain, m).None?;
    }
  }

  lemma {:induction false} NonEmptyReached(
    env: Env, chain: Chain, start: World, w: World, from: nat, m: nat, fails: nat -> bool)
    requires OnFold(env, chain, start, w) && w.block < from <= m && Quiet(chain, w.block, from)
    ensures Reached(env, chain, start, w.block, m, fails, RunFlushes(env, w, NonEmpty(chain, from, m), fails))
    decreases m
  {
    hide Sound, BaseAgrees, FoldTo, RunFlushes, Reached, Agrees, FoldWorld, Quiet;
    if m == from {
      ReachedStart(env, chain, start, w, from, fails);
    } else {
      hide NonEmpty;
      NonEmptyReached(env, chain, start, w, from, m - 1, fails);
      NonEmptyStep(chain, from, m - 1);
      if chain(m - 1) == [] {
        ReachedQuiet(env, chain, start, w.block, m - 1, fails, RunFlushes(env, w, NonEmpty(chain, from, m - 1), fails));
      } else {
        ReachedFlush(env, chain, start, w, m - 1, NonEmpty(chain, from, m - 1), fails);
      }
    }
  }

  // A call that resumes after the last processed block keeps the world on the fold, whatever fails,
  // never moves back, and reaches the end block unless something blocks it.
  lemma CallOnFold(env: Env, chain: Chain, start: World, w: World, from: nat, end: nat, fails: nat -> bool)
    requires OnFold(env, chain, start, w) && w.block < from <= end && Quiet(chain, w.block, from)
    ensures var p := RunFlushes(env, w, Flushes(LogsOf(Tagged(chain), from, end + 1), end), fails);
            && OnFold(env, chain, start, p.world) && w.block <= p.world.block <= end
            && (p.ok ==> p.world.block == end)
            && (!p.ok ==> exists b :: w.block < b <= end && Blocked(env, chain, b, fails))
  {
    hide Sound, BaseAgrees, FoldTo, NonEmpty, RunFlushes, Flushes, Agrees, FoldWorld;
    FlushesOfChain(chain, from, end);
    NonEmptyReached(env, chain, start, w, from, end, fails);
    ReachedFlush(env, chain, start, w, end, NonEmpty(chain, from, end), fails);
  }
}
