/** The logs of a contract, block by block, and ranges of blocks. */
module BlockRanges {

  // All logs of the blocks from `from` up to, not including, `end`, in block order.
  function LogsOf<L>(chain: nat -> seq<L>, from: nat, end: nat): seq<L> {
    if end <= from then [] else LogsOf(chain, from, end - 1) + chain(end - 1)
  }

  lemma {:induction false} LogsSplit<L>(chain: nat -> seq<L>, from: nat, mid: nat, end: nat)
    requires from <= mid <= end
    ensures LogsOf(chain, from, end) == LogsOf(chain, from, mid) + LogsOf(chain, mid, end)
    decreases end
  {
    if mid < end {
      LogsSplit(chain, from, mid, end - 1);
      assert LogsOf(chain, from, mid) + LogsOf(chain, mid, end - 1) + chain(end - 1)
          == LogsOf(chain, from, mid) + (LogsOf(chain, mid, end - 1) + chain(end - 1));
    } else {
      assert LogsOf(chain, from, mid) + [] == LogsOf(chain, from, mid);
    }
  }

  // First and last block.
  type Range = (nat, nat)

  // The ranges, first to last, are non-empty and cover exactly the blocks from `lo` up to `end`.
  predicate Tiles(rs: seq<Range>, lo: nat, end: nat) {
    if rs == [] then lo == end
    else rs[0].0 == lo <= rs[0].1 < end && Tiles(rs[1..], rs[0].1 + 1, end)
  }
}
