/**
 Fetching logs from a provider that may refuse large answers (eth/src/sync.rs, fetch_logs): the range
 is halved on refusal, down to single blocks.
 */
module LogFetcher {
  import opened Wrappers
  import opened BlockRanges

  // What the provider answers: the logs of the range, an error that may be a response size limit, or
  // any other error.
  datatype Reply = Served | Refused | Broken

  // The provider's answer to the k-th request, for blocks `from` to `to`: any pattern whatever.
  type Provider = (nat, nat, nat) -> Reply

  // Where a range is cut: both parts have blocks, and the first has as many as the second or one more.
  function Midpoint(from: nat, to: nat): (mid: nat)
    requires from < to
    ensures from <= mid < to && 0 <= (mid - from + 1) - (to - mid) <= 1
  {
    from + (to - from + 1 + 1) / 2 - 1
  }

  // Twice the blocks left, less one per range: what the requests still to come can cost at most.
  function Cost(pending: seq<Range>): nat
    requires forall i :: 0 <= i < |pending| ==> pending[i].0 <= pending[i].1
  {
    if pending == [] then 0
    else
      var top := pending[|pending|-1];
      Cost(pending[..|pending|-1]) + 2 * (top.1 - top.0 + 1) - 1
  }

  // The stack, top first, covers exactly the blocks from `lo` to `hi` in ascending order.
  predicate Stacked(pending: seq<Range>, lo: nat, hi: nat) {
    if pending == [] then lo == hi + 1
    else
      var top := pending[|pending|-1];
      top.0 == lo <= top.1 <= hi && Stacked(pending[..|pending|-1], top.1 + 1, hi)
  }

  lemma {:induction false} StackedRanges(pending: seq<Range>, lo: nat, hi: nat)
    requires Stacked(pending, lo, hi)
    ensures forall i :: 0 <= i < |pending| ==> lo <= pending[i].0 <= pending[i].1 <= hi
    decreases |pending|
  {
    if pending != [] {
      StackedRanges(pending[..|pending|-1], pending[|pending|-1].1 + 1, hi);
    }
  }

  lemma SplitStack(rest: seq<Range>, from: nat, to: nat, hi: nat)
    requires from < to && Stacked(rest + [(from, to)], from, hi)
    ensures var mid := Midpoint(from, to);
            var split := rest + [(mid + 1, to)] + [(from, mid)];
            && Stacked(split, from, hi)
            && (forall i :: 0 <= i < |rest| ==> rest[i].0 <= rest[i].1)
            && Cost(split) == Cost(rest) + 2 * (to - from + 1) - 2
  {
    var mid := Midpoint(from, to);
    assert (rest + [(from, to)])[..|rest|] == rest;
    StackedRanges(rest, to + 1, hi);
    var upper := rest + [(mid + 1, to)];
    assert upper[..|rest|] == rest;
    assert (upper + [(from, mid)])[..|upper|] == upper;
  }

  lemma StartStack<L>(chain: nat -> seq<L>, from: nat, to: nat)
    requires from <= to
    ensures Stacked([(from, to)], from, to) && Cost([(from, to)]) == 2 * (to - from + 1) - 1
    ensures LogsOf(chain, from, from) == []
  {
    assert [(from, to)][..0] == [];
  }

  lemma PopStack(rest: seq<Range>, lo: nat, hi: nat, next: nat, to: nat)
    requires Stacked(rest + [(lo, hi)], next, to)
    ensures lo == next <= hi <= to && Stacked(rest, hi + 1, to)
    ensures forall i :: 0 <= i < |rest| ==> rest[i].0 <= rest[i].1
    ensures forall i :: 0 <= i < |rest| + 1 ==> (rest + [(lo, hi)])[i].0 <= (rest + [(lo, hi)])[i].1
    ensures Cost(rest + [(lo, hi)]) == Cost(rest) + 2 * (hi - lo + 1) - 1
  {
    assert (rest + [(lo, hi)])[..|rest|] == rest;
    StackedRanges(rest, hi + 1, to);
  }

  lemma EmptyStack(next: nat, to: nat)
    requires Stacked([], next, to)
    ensures next == to + 1
  {
  }

  // Whatever the provider refuses, fetching ends after at most two requests per block; if it succeeds
  // it returns exactly the logs of the range, once each and in block order; and it fails only on an
  // error other than a refusal or on a refused single block.
  method FetchLogs<L>(
    chain: nat -> seq<L>, provider: Provider, from: nat, to: nat) returns (r: Result<seq<L>, Range>, requests: nat)
    requires from <= to
    ensures r.Ok? ==> r.value == LogsOf(chain, from, to + 1)
    ensures r.Err? ==>
              && requests > 0 && from <= r.error.0 <= r.error.1 <= to
              && var reply := provider(requests - 1, r.error.0, r.error.1);
                 reply.Broken? || (reply.Refused? && r.error.0 == r.error.1)
    ensures requests < 2 * (to - from + 1)
  {
    hide Stacked, Cost, LogsOf;
    var logs, pending := [], [(from, to)];
    ghost var next := from;
    requests := 0;
    StartStack(chain, from, to);
    while pending != []
      invariant Stacked(pending, next, to) && from <= next
      invariant forall i :: 0 <= i < |pending| ==> pending[i].0 <= pending[i].1
      invariant logs == LogsOf(chain, from, next)
      invariant requests + Cost(pending) < 2 * (to - from + 1)
      decreases Cost(pending)
    {
      var (lo, hi) := pending[|pending|-1];
      var rest := pending[..|pending|-1];
      assert pending == rest + [(lo, hi)];
      PopStack(rest, lo, hi, next, to);
      var reply := provider(requests, lo, hi);
      requests := requests + 1;
      match reply {
        case Served =>
          LogsSplit(chain, from, next, hi + 1);
          logs := logs + LogsOf(chain, lo, hi + 1);
          pending := rest;
          next := hi + 1;
        case Refused =>
          if lo == hi {
            return Err((lo, hi)), requests;
          }
          SplitStack(rest, lo, hi, to);
          var mid := Midpoint(lo, hi);
          pending := rest + [(mid + 1, hi)] + [(lo, mid)];
          StackedRanges(pending, lo, to);
        case Broken =>
          return Err((lo, hi)), requests;
      }
    }
    EmptyStack(next, to);
    r := Ok(logs);
  }
}
