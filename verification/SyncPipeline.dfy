/**
 The historical-sync pipeline (eth/src/sync.rs, historical_sync): batches are fetched concurrently in
 order, and processed one at a time, while fetching and processing complete in any interleaving.
 */
module SyncPipeline {
  import opened Wrappers
  import opened BlockRanges

  const BATCH_SIZE: nat := 10000
  const FETCH_CONCURRENT: nat := 50

  // ---------- batching ----------

  function Batches(start: nat, end: nat): seq<Range>
    decreases end + 1 - start
  {
    if end < start then []
    else
      var last := if start + BATCH_SIZE - 1 < end then start + BATCH_SIZE - 1 else end;
      [(start, last)] + Batches(start + BATCH_SIZE, end)
  }

  // The batches exactly tile the block range, in order.
  lemma {:induction false} BatchesTile(start: nat, end: nat)
    requires start <= end + 1
    ensures Tiles(Batches(start, end), start, end + 1)
    decreases end + 1 - start
  {
    if start <= end {
      assert Batches(start, end)[1..] == Batches(start + BATCH_SIZE, end);
      if start + BATCH_SIZE <= end + 1 {
        BatchesTile(start + BATCH_SIZE, end);
      }
    }
  }

  // Each batch but the last is of 10000 blocks.
  lemma {:induction false} BatchSizes(start: nat, end: nat, i: nat)
    requires i < |Batches(start, end)|
    ensures var bs := Batches(start, end);
            && bs[i].0 == start + 10000 * i && bs[i].1 < bs[i].0 + 10000
            && bs[i].1 == if i < |bs| - 1 then bs[i].0 + 9999 else end
    decreases i
  {
    var bs, rest := Batches(start, end), Batches(start + BATCH_SIZE, end);
    assert bs[1..] == rest;
    if i > 0 {
      BatchSizes(start + BATCH_SIZE, end, i - 1);
    }
  }

  // ---------- the pipeline as a state machine ----------

  // `done` lists the batches whose processing has finished.
  datatype Pipe = Pipe(
    pending: seq<Range>, fetching: seq<Range>, fetched: seq<Range>, running: Option<Range>, done: seq<Range>)
  {
    function Started(): seq<Range> {
      done + match running case None => [] case Some(b) => [b]
    }
  }

  // What completes first while the loop waits, and whether it went well.
  datatype Completion = FetchDone | FetchFailed | ProcessorDone | ProcessorFailed

  datatype Outcome = Continue(pipe: Pipe) | Finished | Failed

  function Launch(batches: seq<Range>): Pipe {
    var n := if |batches| < FETCH_CONCURRENT then |batches| else FETCH_CONCURRENT;
    Pipe(batches[n..], batches[..n], [], None, [])
  }

  // Starting a batch also starts fetching one more.
  function StartBatch(p: Pipe, b: Range): Pipe {
    if p.pending == [] then p.(running := Some(b))
    else p.(running := Some(b), fetching := p.fetching + [p.pending[0]], pending := p.pending[1..])
  }

  // One turn of the loop. With a processor running, a fetch can complete only if one is under way,
  // and then its batch is stored; when the processor completes, the next stored batch is started.
  // With no processor running, the loop waits for the next fetch, or ends if there is none.
  function Turn(p: Pipe, c: Completion): Outcome {
    if p.running.Some? then
      if p.fetching != [] && c.FetchFailed? then Failed
      else if p.fetching != [] && c.FetchDone? then
        Continue(p.(fetched := p.fetched + [p.fetching[0]], fetching := p.fetching[1..]))
      else if c.ProcessorFailed? then Failed
      else
        var q := p.(running := None, done := p.done + [p.running.value]);
        if q.fetched == [] then Continue(q) else Continue(StartBatch(q.(fetched := q.fetched[1..]), q.fetched[0]))
    else if p.fetching == [] then Finished
    else if c.FetchFailed? then Failed
    else Continue(StartBatch(p.(fetching := p.fetching[1..]), p.fetching[0]))
  }

  function Reach(batches: seq<Range>, schedule: seq<Completion>): Outcome {
    if schedule == [] then Continue(Launch(batches))
    else
      match Reach(batches, schedule[..|schedule|-1])
      case Continue(p) => Turn(p, schedule[|schedule|-1])
      case other => other
  }

  ghost predicate Inv(batches: seq<Range>, p: Pipe) {
    && p.Started() + p.fetched + p.fetching + p.pending == batches
    && (p.running.None? ==> p.fetched == [])
    && |p.fetching| + |p.fetched| <= FETCH_CONCURRENT
    && (p.pending != [] ==> |p.fetching| + |p.fetched| == FETCH_CONCURRENT)
  }

  lemma LaunchInv(batches: seq<Range>)
    ensures Inv(batches, Launch(batches))
  {
  }

  lemma StartKeepsOrder(batches: seq<Range>, p: Pipe, b: Range)
    requires p.running.None? && p.done + [b] + p.fetched + p.fetching + p.pending == batches
    ensures var q := StartBatch(p, b); q.Started() + q.fetched + q.fetching + q.pending == batches
  {
    var q := StartBatch(p, b);
    if p.pending != [] {
      assert q.fetching + q.pending == p.fetching + p.pending;
      assert q.Started() + q.fetched + q.fetching + q.pending == q.Started() + q.fetched + (q.fetching + q.pending);
      assert p.done + [b] + p.fetched + p.fetching + p.pending == p.done + [b] + p.fetched + (p.fetching + p.pending);
    }
  }

  lemma StoreKeepsOrder(batches: seq<Range>, p: Pipe)
    requires Inv(batches, p) && p.fetching != []
    ensures p.Started() + (p.fetched + [p.fetching[0]]) + p.fetching[1..] + p.pending == batches
  {
    assert p.fetching == [p.fetching[0]] + p.fetching[1..];
    assert p.fetched + [p.fetching[0]] + p.fetching[1..] == p.fetched + p.fetching;
  }

  lemma TurnInv(batches: seq<Range>, p: Pipe, c: Completion)
    requires Inv(batches, p) && Turn(p, c).Continue?
    ensures Inv(batches, Turn(p, c).pipe)
  {
    if p.running.Some? {
      if p.fetching != [] && c.FetchDone? {
        StoreKeepsOrder(batches, p);
      } else {
        var q := p.(running := None, done := p.done + [p.running.value]);
        if q.fetched != [] {
          assert q.fetched == [q.fetched[0]] + q.fetched[1..];
          assert q.done + [q.fetched[0]] + q.fetched[1..] == q.done + q.fetched;
          StartKeepsOrder(batches, q.(fetched := q.fetched[1..]), q.fetched[0]);
        }
      }
    } else {
      StoreKeepsOrder(batches, p);
      assert p.done + [] + ([] + [p.fetching[0]]) == p.done + [p.fetching[0]] + [];
      StartKeepsOrder(batches, p.(fetching := p.fetching[1..]), p.fetching[0]);
    }
  }

  // In every interleaving: nothing is lost, duplicated or reordered, no fetched batch waits for an
  // idle processor, and at most FETCH_CONCURRENT batches are fetching or waiting.
  lemma {:induction false} ReachInv(batches: seq<Range>, schedule: seq<Completion>)
    requires Reach(batches, schedule).Continue?
    ensures Inv(batches, Reach(batches, schedule).pipe)
    ensures var p := Reach(batches, schedule).pipe;
            |p.fetching| + |p.fetched| <= 50 && (p.pending != [] ==> |p.fetching| + |p.fetched| == 50)
    decreases |schedule|
  {
    if schedule == [] {
      LaunchInv(batches);
    } else {
      ReachInv(batches, schedule[..|schedule|-1]);
      TurnInv(batches, Reach(batches, schedule[..|schedule|-1]).pipe, schedule[|schedule|-1]);
    }
  }

  // The loop ends without an error only when every batch has been processed, in order.
  lemma FinishedMeansAll(batches: seq<Range>, p: Pipe, c: Completion)
    requires Inv(batches, p) && Turn(p, c).Finished?
    ensures p.done == batches
  {
  }

  // How much is left to do; every turn that continues does some of it.
  function Work(p: Pipe): nat {
    4 * |p.pending| + 3 * |p.fetching| + 2 * |p.fetched| + if p.running.Some? then 1 else 0
  }

  lemma TurnProgress(p: Pipe, c: Completion)
    requires Turn(p, c).Continue?
    ensures Work(Turn(p, c).pipe) < Work(p)
  {
  }

  // The loop itself, over its queues, for any completion order. It always ends; on success the
  // batches were processed exactly once each in order, on failure a prefix of them was.
  method ProcessBatches(batches: seq<Range>, schedule: nat -> Completion) returns (ok: bool, processed: seq<Range>)
    ensures ok ==> processed == batches
    ensures processed <= batches
  {
    var pending, fetching, fetched: seq<Range>, running: Option<Range>, turn := batches, [], [], None, 0;
    while pending != [] && |fetching| < FETCH_CONCURRENT
      invariant fetching + pending == batches && |fetching| <= FETCH_CONCURRENT
    {
      fetching, pending := fetching + [pending[0]], pending[1..];
    }
    processed := [];
    while true
      invariant Inv(batches, Pipe(pending, fetching, fetched, running, processed))
      decreases Work(Pipe(pending, fetching, fetched, running, processed))
    {
      ghost var before, c := Pipe(pending, fetching, fetched, running, processed), schedule(turn);
      PrefixOfInv(batches, before);
      var toRun: Option<Range> := None;
      if running.Some? {
        if fetching != [] && (schedule(turn).FetchDone? || schedule(turn).FetchFailed?) {
          if schedule(turn).FetchFailed? {
            return false, processed;
          }
          fetched, fetching := fetched + [fetching[0]], fetching[1..];
        } else {
          if schedule(turn).ProcessorFailed? {
            return false, processed;
          }
          processed, running := processed + [running.value], None;
          if fetched != [] {
            toRun, fetched := Some(fetched[0]), fetched[1..];
          }
        }
      } else {
        if fetching == [] {
          FinishedMeansAll(batches, before, c);
          return true, processed;
        }
        if schedule(turn).FetchFailed? {
          return false, processed;
        }
        toRun, fetching := Some(fetching[0]), fetching[1..];
      }
      if toRun.Some? {
        running := toRun;
        if pending != [] {
          fetching, pending := fetching + [pending[0]], pending[1..];
        }
      }
      turn := turn + 1;
      assert Turn(before, c) == Continue(Pipe(pending, fetching, fetched, running, processed));
      TurnInv(batches, before, c);
      TurnProgress(before, c);
    }
  }

  lemma PrefixOfInv(batches: seq<Range>, p: Pipe)
    requires Inv(batches, p)
    ensures p.done <= batches
  {
    assert p.done <= p.Started() <= p.Started() + p.fetched + p.fetching + p.pending;
  }
}
