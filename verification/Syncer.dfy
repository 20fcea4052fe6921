/**
 Historical and live sync end to end (eth/src/sync.rs): which blocks are asked for, fetched and
 processed. What the node and the database answer, and in which order fetches and processing complete,
 is arbitrary; the logs themselves are the chain's.
 */
module Syncer {
  import opened BlockRanges
  import opened SyncPipeline
  import opened LogFetcher
  import opened EventHandlers
  import opened ChainFold
  import opened EventProcessor

  const FOLLOW_DISTANCE: nat := 8

  // What is met at the k-th turn: the provider of a fetch, the blocks at which the database fails, and
  // whether a fetch completes before the running processor does.
  datatype Weather = Weather(provider: nat -> Provider, fails: nat -> nat -> bool, fetchFirst: nat -> bool)

  // The processor stands where the blocks since `start` lead.
  ghost predicate Synced(p: Processor, chain: Chain, start: World)
    reads p, p.state, p.state.shares, p.state.metadata, p.state.clusters
  {
    p.Valid() && OnFold(p.env, chain, start, p.World())
  }

  ghost predicate NotBefore(chain: Chain, deployment: nat) {
    forall b: nat :: b < deployment ==> chain(b) == []
  }

  // ---------- what can make sync fail ----------

  // The provider breaks off a request or refuses a single block.
  predicate Denies(provider: Provider, k: nat, first: nat, last: nat) {
    var reply := provider(k, first, last);
    reply.Broken? || (reply.Refused? && first == last)
  }

  ghost predicate Unserved(provider: Provider, lo: nat, hi: nat) {
    exists k, first, last: nat :: lo < first <= last <= hi && Denies(provider, k, first, last)
  }

  ghost predicate Stuck(env: Env, chain: Chain, fails: nat -> bool, lo: nat, hi: nat) {
    exists b: nat :: lo < b <= hi && Blocked(env, chain, b, fails)
  }

  // Among the blocks after `lo` up to `hi` the provider denies a request, the database fails, or an event
  // aborts its block.
  ghost predicate Hindered(env: Env, chain: Chain, provider: Provider, fails: nat -> bool, lo: nat, hi: nat) {
    Unserved(provider, lo, hi) || Stuck(env, chain, fails, lo, hi)
  }

  lemma HinderedWider(
    env: Env, chain: Chain, provider: Provider, fails: nat -> bool, lo: nat, hi: nat, lo': nat, hi': nat)
    requires Hindered(env, chain, provider, fails, lo, hi) && lo' <= lo && hi <= hi'
    ensures Hindered(env, chain, provider, fails, lo', hi')
  {
    hide Blocked, Denies;
  }

  // The logs of one range of blocks, processed.
  method ProcessRange(
    p: Processor, chain: Chain, from: nat, to: nat, logs: seq<Log>, fails: nat -> bool, ghost start: World)
    returns (ok: bool)
    requires Synced(p, chain, start) && p.block < from <= to && Quiet(chain, p.block, from)
    requires logs == LogsOf(Tagged(chain), from, to + 1)
    modifies p, p.state, p.state.shares, p.state.metadata, p.state.clusters
    ensures Synced(p, chain, start) && old(p.block) <= p.block <= to && (ok ==> p.block == to)
    ensures !ok ==> Stuck(p.env, chain, fails, old(p.block), to)
  {
    hide Processor.Valid, OnFold, LogsOf, RunFlushes, Flushes, Stuck;
    WorldOnFold(p, chain, start, from, to, fails);
    ok := p.ProcessLogs(logs, to, fails);
  }

  lemma WorldOnFold(p: Processor, chain: Chain, start: World, from: nat, to: nat, fails: nat -> bool)
    requires Synced(p, chain, start) && p.block < from <= to && Quiet(chain, p.block, from)
    ensures var r := RunFlushes(p.env, p.World(), Flushes(LogsOf(Tagged(chain), from, to + 1), to), fails);
            && OnFold(p.env, chain, start, r.world) && p.block <= r.world.block <= to
            && (r.ok ==> r.world.block == to) && (!r.ok ==> Stuck(p.env, chain, fails, p.block, to))
  {
    hide OnFold, LogsOf, RunFlushes, Flushes, Healthy;
    CallOnFold(p.env, chain, start, p.World(), from, to, fails);
  }

  // One range of blocks: fetched, then processed.
  method SyncRange(
    p: Processor, chain: Chain, from: nat, to: nat, provider: Provider, fails: nat -> bool, ghost start: World)
    returns (ok: bool)
    requires Synced(p, chain, start) && p.block < from <= to && Quiet(chain, p.block, from)
    modifies p, p.state, p.state.shares, p.state.metadata, p.state.clusters
    ensures Synced(p, chain, start) && old(p.block) <= p.block <= to && (ok ==> p.block == to)
    ensures !ok ==> Hindered(p.env, chain, provider, fails, old(p.block), to)
  {
    hide Synced, LogsOf;
    var fetched, requests := FetchLogs(Tagged(chain), provider, from, to);
    if fetched.Err? {
      assert Denies(provider, requests - 1, fetched.error.0, fetched.error.1);
      return false;
    }
    ok := ProcessRange(p, chain, from, to, fetched.value, fails, start);
  }

  // ---------- the pipeline ----------

  // The last block of the batches that are done, or the one before them all.
  function BlockAfter(done: seq<Range>, before: nat): nat {
    if done == [] then before else done[|done|-1].1
  }

  lemma {:induction false} TiledBatch(rs: seq<Range>, lo: nat, end: nat, i: nat)
    requires Tiles(rs, lo, end) && i < |rs|
    ensures rs[i].0 == (if i == 0 then lo else rs[i - 1].1 + 1) && lo <= rs[i].0 <= rs[i].1 < end
    ensures i == |rs| - 1 ==> rs[i].1 + 1 == end
    decreases |rs|
  {
    if i > 0 {
      TiledBatch(rs[1..], rs[0].1 + 1, end, i - 1);
    }
  }

  // The batch that is running comes right after those that are done.
  lemma RunningBatch(batches: seq<Range>, p: Pipe)
    requires Inv(batches, p) && p.running.Some?
    ensures |p.done| < |batches| && batches[|p.done|] == p.running.value && batches[..|p.done|] == p.done
  {
    assert p.Started() <= p.Started() + p.fetched + p.fetching + p.pending;
  }

  // Where processing of the running batch starts and how far it goes.
  lemma RunningRange(batches: seq<Range>, p: Pipe, chain: Chain, before: nat, from: nat, end: nat)
    requires Inv(batches, p) && p.running.Some? && Tiles(batches, from, end + 1) && before < from
    requires Quiet(chain, before, from)
    ensures var (first, last) := p.running.value;
            && BlockAfter(p.done, before) < first <= last <= end
            && Quiet(chain, BlockAfter(p.done, before), first)
  {
    RunningBatch(batches, p);
    TiledBatch(batches, from, end + 1, |p.done|);
    if p.done != [] {
      assert p.done[|p.done|-1] == batches[|p.done|-1];
    }
  }

  // Every batch that has been fetched, running or waiting, has its logs.
  ghost predicate Logged(chain: Chain, p: Pipe, logs: map<Range, seq<Log>>) {
    && (p.running.Some? ==> HasLogs(chain, p.running.value, logs))
    && forall b | b in p.fetched :: HasLogs(chain, b, logs)
  }

  ghost predicate HasLogs(chain: Chain, b: Range, logs: map<Range, seq<Log>>) {
    b in logs && logs[b] == LogsOf(Tagged(chain), b.0, b.1 + 1)
  }

  lemma LoggedTurn(chain: Chain, p: Pipe, c: Completion, logs: map<Range, seq<Log>>)
    requires Logged(chain, p, logs) && Turn(p, c).Continue?
    requires c.FetchDone? && p.fetching != [] ==> HasLogs(chain, p.fetching[0], logs)
    requires p.running.None? ==> c.FetchDone?
    ensures Logged(chain, Turn(p, c).pipe, logs)
  {
    hide HasLogs;
  }

  lemma LoggedMore(chain: Chain, p: Pipe, logs: map<Range, seq<Log>>, b: Range, more: seq<Log>)
    requires Logged(chain, p, logs) && more == LogsOf(Tagged(chain), b.0, b.1 + 1)
    ensures Logged(chain, p, logs[b := more]) && HasLogs(chain, b, logs[b := more])
  {
  }

  lemma FetchingBatch(batches: seq<Range>, p: Pipe, from: nat, end: nat)
    requires Inv(batches, p) && p.fetching != [] && Tiles(batches, from, end)
    ensures from <= p.fetching[0].0 <= p.fetching[0].1 < end
  {
    var before := p.Started() + p.fetched;
    assert batches == before + (p.fetching + p.pending);
    assert batches[|before|] == p.fetching[0];
    TiledBatch(batches, from, end, |before|);
  }

  // Which completion a turn meets: a fetch if one is under way and nothing runs or it comes first, and
  // the running processor otherwise.
  predicate Fetches(p: Pipe, fetchFirst: bool) {
    p.fetching != [] && (p.running.None? || fetchFirst)
  }

  lemma DoneAfterTurn(p: Pipe, c: Completion)
    requires Turn(p, c).Continue?
    ensures Turn(p, c).pipe.done
            == if p.running.Some? && (p.fetching == [] || !c.FetchDone?) then p.done + [p.running.value] else p.done
  {
  }

  // At some turn something makes sync fail.
  ghost predicate Stormy(env: Env, chain: Chain, w: Weather, lo: nat, hi: nat) {
    exists k: nat :: Hindered(env, chain, w.provider(k), w.fails(k), lo, hi)
  }

  lemma HinderedAt(env: Env, chain: Chain, w: Weather, k: nat, lo: nat, hi: nat, lo': nat)
    requires Unserved(w.provider(k), lo, hi) || Stuck(env, chain, w.fails(k), lo, hi)
    requires lo' <= lo
    ensures Stormy(env, chain, w, lo', hi)
  {
    hide Unserved, Stuck;
    HinderedWider(env, chain, w.provider(k), w.fails(k), lo, hi, lo', hi);
  }

  // The batches of a range: up to FETCH_CONCURRENT of them are fetched ahead while one at a time is
  // processed. In whatever order fetches and processing complete, the processor stays on the fold, and
  // it has reached the end when the loop ends without an error.
  method SyncBatches(p: Processor, chain: Chain, from: nat, end: nat, w: Weather, ghost start: World) returns (ok: bool)
    requires Synced(p, chain, start) && p.block < from <= end && Quiet(chain, p.block, from)
    modifies p, p.state, p.state.shares, p.state.metadata, p.state.clusters
    ensures Synced(p, chain, start) && old(p.block) <= p.block <= end && (ok ==> p.block == end)
    ensures !ok ==> Stormy(p.env, chain, w, old(p.block), end)
  {
    hide Synced, Batches, Launch, Tiles, Inv, Logged, HasLogs, Quiet, Work, Hindered, Stuck, Unserved;
    var batches := Batches(from, end);
    BatchesTile(from, end);
    LaunchInv(batches);
    var pipe, logs, turn := Launch(batches), map[], 0;
    LoggedAtLaunch(chain, batches, logs);
    while true
      invariant Synced(p, chain, start) && Inv(batches, pipe) && Logged(chain, pipe, logs)
      invariant old(p.block) <= p.block <= end && p.block == BlockAfter(pipe.done, old(p.block))
      decreases Work(pipe)
    {
      var c := FetchDone;
      if Fetches(pipe, w.fetchFirst(turn)) {
        ok, logs := FetchNext(chain, batches, pipe, logs, w.provider(turn), from, end);
        if !ok {
          HinderedAt(p.env, chain, w, turn, from - 1, end, old(p.block));
          ok := FinishRunning(p, chain, batches, pipe, logs, w.fails(turn), start, old(p.block), from, end);
          return false;
        }
      } else if pipe.running.Some? {
        ghost var before := p.block;
        ok := FinishRunning(p, chain, batches, pipe, logs, w.fails(turn), start, old(p.block), from, end);
        if !ok {
          HinderedAt(p.env, chain, w, turn, before, end, old(p.block));
          return false;
        }
        c := ProcessorDone;
      } else {
        AllDone(batches, pipe, c, from, end);
        return true;
      }
      var next := TakeTurn(pipe, c, batches, chain, logs);
      pipe, turn := next, turn + 1;
    }
  }

  lemma LoggedAtLaunch(chain: Chain, batches: seq<Range>, logs: map<Range, seq<Log>>)
    ensures Logged(chain, Launch(batches), logs) && Launch(batches).done == []
  {
  }

  // The loop ends when nothing runs and nothing is being fetched: every batch is done.
  lemma AllDone(batches: seq<Range>, p: Pipe, c: Completion, from: nat, end: nat)
    requires Inv(batches, p) && p.running.None? && p.fetching == [] && Tiles(batches, from, end + 1) && from <= end
    ensures p.done == batches && batches != [] && batches[|batches|-1].1 == end
  {
    FinishedMeansAll(batches, p, c);
    TiledBatch(batches, from, end + 1, |batches| - 1);
  }

  method TakeTurn(
    pipe: Pipe, c: Completion, ghost batches: seq<Range>, ghost chain: Chain, ghost logs: map<Range, seq<Log>>)
    returns (next: Pipe)
    requires Inv(batches, pipe) && Logged(chain, pipe, logs)
    requires || (c.FetchDone? && pipe.fetching != [] && HasLogs(chain, pipe.fetching[0], logs))
             || (c.ProcessorDone? && pipe.running.Some?)
    ensures Inv(batches, next) && Logged(chain, next, logs) && Work(next) < Work(pipe)
    ensures next.done == if c.FetchDone? then pipe.done else pipe.done + [pipe.running.value]
  {
    hide Logged, HasLogs, Inv;
    next := Turn(pipe, c).pipe;
    TurnInv(batches, pipe, c);
    TurnProgress(pipe, c);
    LoggedTurn(chain, pipe, c, logs);
    DoneAfterTurn(pipe, c);
  }

  // The next batch is fetched, in as many requests as it takes.
  method FetchNext(
    chain: Chain, batches: seq<Range>, pipe: Pipe, logs: map<Range, seq<Log>>, provider: Provider,
    ghost from: nat, ghost end: nat) returns (ok: bool, more: map<Range, seq<Log>>)
    requires Inv(batches, pipe) && pipe.fetching != [] && Logged(chain, pipe, logs) && Tiles(batches, from, end + 1)
    requires from > 0
    ensures Logged(chain, pipe, more) && (ok ==> HasLogs(chain, pipe.fetching[0], more))
    ensures !ok ==> Unserved(provider, from - 1, end)
  {
    hide Tiles, Inv, Logged, HasLogs, LogsOf;
    var b := pipe.fetching[0];
    FetchingBatch(batches, pipe, from, end + 1);
    var fetched, requests := FetchLogs(Tagged(chain), provider, b.0, b.1);
    if fetched.Err? {
      assert Denies(provider, requests - 1, fetched.error.0, fetched.error.1);
      return false, logs;
    }
    LoggedMore(chain, pipe, logs, b, fetched.value);
    ok, more := true, logs[b := fetched.value];
  }

  // The running processor, if there is one, comes to its end.
  method FinishRunning(
    p: Processor, chain: Chain, batches: seq<Range>, pipe: Pipe, logs: map<Range, seq<Log>>, fails: nat -> bool,
    ghost start: World, ghost before: nat, ghost from: nat, ghost end: nat) returns (ok: bool)
    requires Synced(p, chain, start) && Inv(batches, pipe) && Logged(chain, pipe, logs)
    requires p.block == BlockAfter(pipe.done, before)
    requires Tiles(batches, from, end + 1) && before < from && Quiet(chain, before, from) && p.block <= end
    modifies p, p.state, p.state.shares, p.state.metadata, p.state.clusters
    ensures Synced(p, chain, start) && old(p.block) <= p.block <= end
    ensures ok && pipe.running.Some? ==> p.block == pipe.running.value.1
    ensures !ok ==> Stuck(p.env, chain, fails, old(p.block), end)
  {
    hide Synced, Tiles, Inv, Quiet, LogsOf, Blocked;
    if pipe.running.None? {
      return true;
    }
    var b := pipe.running.value;
    RunningRange(batches, pipe, chain, before, from, end);
    ok := ProcessRange(p, chain, b.0, b.1, logs[b], fails, start);
  }

  // ---------- historical sync ----------

  // The first block to ask for.
  function NextStart(deployment: nat, block: nat): nat {
    if deployment > block + 1 then deployment else block + 1
  }

  // Sync has nothing more to do at this head, or takes itself to be at the tip of the chain; `before` is
  // the last block processed when it was called.
  predicate Stops(head: nat, start: nat, before: nat) {
    head < FOLLOW_DISTANCE || head - FOLLOW_DISTANCE < start || (start == head - FOLLOW_DISTANCE && start - 1 != before)
  }

  // The block and the number of rounds at which sync ends, for the heads it is told round after round.
  function SyncedTo(deployment: nat, before: nat, block: nat, heads: seq<nat>): (nat, nat)
    decreases |heads|
  {
    if heads == [] || Stops(heads[0], NextStart(deployment, block), before) then (block, 0)
    else
      var (b, rounds) := SyncedTo(deployment, before, heads[0] - FOLLOW_DISTANCE, heads[1..]);
      (b, rounds + 1)
  }

  // The block is at least the follow distance behind one of the heads.
  predicate Behind(block: nat, heads: seq<nat>) {
    exists head | head in heads :: block + FOLLOW_DISTANCE <= head
  }

  // After `rounds` rounds sync is on its way to where the heads lead.
  ghost predicate OnTheWay(deployment: nat, before: nat, block: nat, heads: seq<nat>, rounds: nat) {
    && rounds <= |heads|
    && var (b, more) := SyncedTo(deployment, before, block, heads[rounds..]);
       SyncedTo(deployment, before, before, heads) == (b, rounds + more)
  }

  lemma NextRound(deployment: nat, before: nat, block: nat, heads: seq<nat>, rounds: nat)
    requires OnTheWay(deployment, before, block, heads, rounds) && rounds < |heads|
    ensures Stops(heads[rounds], NextStart(deployment, block), before)
            ==> SyncedTo(deployment, before, before, heads) == (block, rounds)
    ensures !Stops(heads[rounds], NextStart(deployment, block), before)
            ==> OnTheWay(deployment, before, heads[rounds] - FOLLOW_DISTANCE, heads, rounds + 1)
  {
    assert heads[rounds..][1..] == heads[rounds + 1..];
  }

  // Historical sync, for whatever heads the node reports: it never leaves the fold, and unless it fails
  // it ends at the first head that stops it, with every block of the rounds before processed.
  method HistoricalSync(
    p: Processor, chain: Chain, deployment: nat, heads: seq<nat>, weather: nat -> Weather, ghost start: World)
    returns (ok: bool, rounds: nat)
    requires Synced(p, chain, start) && NotBefore(chain, deployment)
    modifies p, p.state, p.state.shares, p.state.metadata, p.state.clusters
    ensures Synced(p, chain, start) && old(p.block) <= p.block && rounds <= |heads|
    ensures ok ==> (p.block, rounds) == SyncedTo(deployment, old(p.block), old(p.block), heads)
    ensures p.block == old(p.block) || Behind(p.block, heads)
    ensures !ok ==> exists i: nat ::
                i < |heads| && heads[i] >= FOLLOW_DISTANCE
                && Stormy(p.env, chain, weather(i), old(p.block), heads[i] - FOLLOW_DISTANCE)
  {
    hide Synced, OnTheWay, Behind, SyncedTo, Stormy;
    var lastProcessed := p.block;
    var startBlock := if deployment > lastProcessed + 1 then deployment else lastProcessed + 1;
    rounds := 0;
    SetOut(deployment, lastProcessed, heads);
    while rounds < |heads|
      invariant rounds <= |heads| && Synced(p, chain, start) && lastProcessed <= p.block < startBlock
      invariant Quiet(chain, p.block, startBlock) && startBlock == NextStart(deployment, p.block)
      invariant p.block == old(p.block) || Behind(p.block, heads)
      invariant OnTheWay(deployment, lastProcessed, p.block, heads, rounds)
    {
      var current := heads[rounds];
      NextRound(deployment, lastProcessed, p.block, heads, rounds);
      if current < FOLLOW_DISTANCE {
        return true, rounds;
      }
      var end := current - FOLLOW_DISTANCE;
      if end < startBlock {
        return true, rounds;
      }
      if startBlock == end && startBlock - 1 != lastProcessed {
        return true, rounds;
      }
      ghost var before := p.block;
      ok := SyncBatches(p, chain, startBlock, end, weather(rounds), start);
      NearHead(p.block, heads, rounds);
      if !ok {
        StormyWider(p.env, chain, weather(rounds), before, end, lastProcessed);
        return false, rounds;
      }
      rounds, startBlock := rounds + 1, end + 1;
    }
    Arrived(deployment, lastProcessed, p.block, heads);
    ok := true;
  }

  lemma StormyWider(env: Env, chain: Chain, w: Weather, lo: nat, hi: nat, lo': nat)
    requires Stormy(env, chain, w, lo, hi) && lo' <= lo
    ensures Stormy(env, chain, w, lo', hi)
  {
    hide Hindered;
    var k: nat :| Hindered(env, chain, w.provider(k), w.fails(k), lo, hi);
    HinderedWider(env, chain, w.provider(k), w.fails(k), lo, hi, lo', hi);
  }

  lemma SetOut(deployment: nat, before: nat, heads: seq<nat>)
    ensures OnTheWay(deployment, before, before, heads, 0)
  {
    assert heads[0..] == heads;
  }

  lemma Arrived(deployment: nat, before: nat, block: nat, heads: seq<nat>)
    requires OnTheWay(deployment, before, block, heads, |heads|)
    ensures SyncedTo(deployment, before, before, heads) == (block, |heads|)
  {
  }

  lemma NearHead(block: nat, heads: seq<nat>, i: nat)
    requires i < |heads| && block + FOLLOW_DISTANCE <= heads[i]
    ensures Behind(block, heads)
  {
    assert heads[i] in heads;
  }

  // Where sync stands when it ends: at the follow distance behind the head of the round before, if
  // there was one, and at the next head that stops it.
  lemma {:induction false} SyncedToMeaning(deployment: nat, before: nat, block: nat, heads: seq<nat>)
    requires before <= block
    ensures var (b, rounds) := SyncedTo(deployment, before, block, heads);
            && rounds <= |heads| && before <= b
            && (rounds < |heads| ==> Stops(heads[rounds], NextStart(deployment, b), before))
            && (rounds == 0 ==> b == block)
            && (rounds > 0 ==> heads[rounds - 1] == b + FOLLOW_DISTANCE && before < b && deployment <= b)
    decreases |heads|
  {
    if heads != [] && !Stops(heads[0], NextStart(deployment, block), before) {
      SyncedToMeaning(deployment, before, heads[0] - FOLLOW_DISTANCE, heads[1..]);
    }
  }

  // When sync ends at a head with blocks to process up to the follow distance behind it, it leaves some
  // of them unprocessed exactly when the head has moved by a single block since the round before, or,
  // in the first round, when the deployment block is the only one there is and not the next one due.
  lemma ShortExactly(deployment: nat, before: nat, heads: seq<nat>)
    requires var rounds := SyncedTo(deployment, before, before, heads).1;
             rounds < |heads| && deployment + FOLLOW_DISTANCE <= heads[rounds]
    ensures var (block, rounds) := SyncedTo(deployment, before, before, heads);
            block < heads[rounds] - FOLLOW_DISTANCE
            <==> if rounds > 0 then heads[rounds] == heads[rounds - 1] + 1
                 else deployment == heads[0] - FOLLOW_DISTANCE && deployment > before + 1
  {
    SyncedToMeaning(deployment, before, before, heads);
  }

  // From an empty database with the contract deployed in block 1: the head moves from 18 to 19 during
  // the first round, and sync ends at block 10, with block 11 at the follow distance.
  lemma StopsShort() returns (heads: seq<nat>)
    ensures heads == [18, 19] && SyncedTo(1, 0, 0, heads) == (10, 1) && heads[1] - FOLLOW_DISTANCE == 11
  {
    heads := [18, 19];
    assert heads[1..] == [19];
    assert SyncedTo(1, 0, 10, [19]) == (10, 0);
  }

  // ---------- live sync ----------

  // A head that is too early, or whose block has been processed.
  predicate Ignored(contractBlock: nat, block: nat, head: nat) {
    head < contractBlock + FOLLOW_DISTANCE || head <= block + FOLLOW_DISTANCE
  }

  // One new head: nothing if it is to be ignored; otherwise exactly the blocks up to the follow distance
  // behind it, and never any beyond.
  method LiveStep(
    p: Processor, chain: Chain, contractBlock: nat, head: nat, provider: Provider, fails: nat -> bool,
    ghost start: World)
    returns (ok: bool)
    requires Synced(p, chain, start)
    modifies p, p.state, p.state.shares, p.state.metadata, p.state.clusters
    ensures Synced(p, chain, start) && old(p.block) <= p.block
    ensures p.block == old(p.block) || p.block + FOLLOW_DISTANCE <= head
    ensures Ignored(contractBlock, old(p.block), head) ==> ok && p.World() == old(p.World())
    ensures ok && !Ignored(contractBlock, old(p.block), head) ==> p.block == head - FOLLOW_DISTANCE
    ensures !ok ==>
              head >= FOLLOW_DISTANCE && Hindered(p.env, chain, provider, fails, old(p.block), head - FOLLOW_DISTANCE)
  {
    hide Synced, Hindered;
    if head < contractBlock + FOLLOW_DISTANCE {
      return true;
    }
    var relevant := head - FOLLOW_DISTANCE;
    if relevant <= p.block {
      return true;
    }
    ok := SyncRange(p, chain, p.block + 1, relevant, provider, fails, start);
  }

  // Where a stream of heads leads: each moves the last block to the follow distance behind it, unless it
  // is too early or would move it back.
  function LiveTo(contractBlock: nat, block: nat, heads: seq<nat>): nat {
    if heads == [] then block
    else
      var before, head := LiveTo(contractBlock, block, heads[..|heads|-1]), heads[|heads|-1];
      if Ignored(contractBlock, before, head) then before else head - FOLLOW_DISTANCE
  }

  // Live sync over any stream of heads: unless it fails it ends where the heads lead, and whether or not
  // it fails no block nearer to the highest head than the follow distance is ever processed.
  method LiveSync(
    p: Processor, chain: Chain, contractBlock: nat, heads: seq<nat>, weather: nat -> (Provider, nat -> bool),
    ghost start: World) returns (ok: bool)
    requires Synced(p, chain, start)
    modifies p, p.state, p.state.shares, p.state.metadata, p.state.clusters
    ensures Synced(p, chain, start) && old(p.block) <= p.block
    ensures ok ==> p.block == LiveTo(contractBlock, old(p.block), heads)
    ensures p.block == old(p.block) || Behind(p.block, heads)
    ensures !ok ==> exists i: nat ::
                i < |heads| && heads[i] >= FOLLOW_DISTANCE
                && Hindered(p.env, chain, weather(i).0, weather(i).1, old(p.block), heads[i] - FOLLOW_DISTANCE)
  {
    hide Synced, Hindered;
    assert heads[..0] == [];
    for i := 0 to |heads|
      invariant Synced(p, chain, start) && old(p.block) <= p.block
      invariant p.block == LiveTo(contractBlock, old(p.block), heads[..i])
      invariant p.block == old(p.block) || Behind(p.block, heads)
    {
      var (provider, fails) := weather(i);
      assert heads[..i + 1][..i] == heads[..i] && heads[i] in heads;
      ghost var before := p.block;
      ok := LiveStep(p, chain, contractBlock, heads[i], provider, fails, start);
      if !ok {
        HinderedWider(p.env, chain, provider, fails, before, heads[i] - FOLLOW_DISTANCE,
                      old(p.block), heads[i] - FOLLOW_DISTANCE);
        return;
      }
    }
    assert heads[..|heads|] == heads;
    ok := true;
  }

  // The stream leads to the follow distance behind its highest head, or stays where it was.
  lemma {:induction false} LiveToExactly(contractBlock: nat, block: nat, heads: seq<nat>, b: nat)
    ensures LiveTo(contractBlock, block, heads) >= b
            <==> || block >= b
                 || exists i :: 0 <= i < |heads| && contractBlock + FOLLOW_DISTANCE <= heads[i]
                                && b + FOLLOW_DISTANCE <= heads[i]
    decreases |heads|
  {
    if heads != [] {
      var before, n := heads[..|heads|-1], |heads| - 1;
      LiveToExactly(contractBlock, block, before, b);
      assert forall i :: 0 <= i < n ==> before[i] == heads[i];
      if LiveTo(contractBlock, block, heads) >= b && LiveTo(contractBlock, block, before) < b {
        assert contractBlock + FOLLOW_DISTANCE <= heads[n] && b + FOLLOW_DISTANCE <= heads[n];
      }
    }
  }
}
