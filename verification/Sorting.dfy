/** Sorting a list of ids, as leader choice and cluster identifiers do before using them. */
module Sorting {

  predicate Ascending(s: seq<nat>) {
    |s| < 2 || (s[0] <= s[1] && Ascending(s[1..]))
  }

  function Insert(x: nat, s: seq<nat>): (r: seq<nat>)
    requires Ascending(s)
    ensures |r| == |s| + 1 && Ascending(r)
    ensures r[0] == if s == [] || x <= s[0] then x else s[0]
    ensures multiset(r) == multiset{x} + multiset(s)
  {
    if s == [] || x <= s[0] then [x] + s
    else
      assert s == [s[0]] + s[1..];
      [s[0]] + Insert(x, s[1..])
  }

  function Sort(s: seq<nat>): (r: seq<nat>)
    ensures |r| == |s| && Ascending(r) && multiset(r) == multiset(s)
  {
    if s == [] then []
    else
      assert s == [s[0]] + s[1..];
      Insert(s[0], Sort(s[1..]))
  }

  lemma {:induction false} HeadIsLeast(s: seq<nat>, y: nat)
    requires Ascending(s) && y in s
    ensures s[0] <= y
  {
    if y != s[0] {
      assert s == [s[0]] + s[1..];
      HeadIsLeast(s[1..], y);
    }
  }

  lemma TailMultiset(s: seq<nat>)
    requires s != []
    ensures multiset(s[1..]) == multiset(s) - multiset{s[0]}
  {
    assert s == [s[0]] + s[1..];
  }

  lemma SameElements(a: seq<nat>, b: seq<nat>, x: nat)
    requires multiset(a) == multiset(b)
    ensures x in a <==> x in b
  {
    assert x in a <==> x in multiset(a);
    assert x in b <==> x in multiset(b);
  }

  lemma SameHead(a: seq<nat>, b: seq<nat>)
    requires Ascending(a) && Ascending(b) && multiset(a) == multiset(b) && a != [] && b != []
    ensures a[0] == b[0]
  {
    SameElements(a, b, a[0]);
    SameElements(a, b, b[0]);
    HeadIsLeast(a, b[0]);
    HeadIsLeast(b, a[0]);
  }

  lemma SameLength(a: seq<nat>, b: seq<nat>)
    requires multiset(a) == multiset(b)
    ensures |a| == |b|
  {
    assert |multiset(a)| == |a| && |multiset(b)| == |b|;
  }

  lemma {:induction false} AscendingUnique(a: seq<nat>, b: seq<nat>)
    requires Ascending(a) && Ascending(b) && multiset(a) == multiset(b)
    ensures a == b
    decreases |a|
  {
    SameLength(a, b);
    if a != [] {
      SameHead(a, b);
      assert multiset(a[1..]) == multiset(b[1..]) by {
        TailMultiset(a);
        TailMultiset(b);
      }
      AscendingUnique(a[1..], b[1..]);
      assert a == [a[0]] + a[1..] && b == [b[0]] + b[1..];
    }
  }

  // Sorting forgets the order of its input and nothing else.
  lemma SortCanonical(a: seq<nat>, b: seq<nat>)
    ensures Sort(a) == Sort(b) <==> multiset(a) == multiset(b)
  {
    if multiset(a) == multiset(b) {
      AscendingUnique(Sort(a), Sort(b));
    }
  }

  // An id listed once has exactly one place in the sorted list.
  lemma PlaceInSort(s: seq<nat>, x: nat) returns (k: nat)
    requires multiset(s)[x] == 1
    ensures k < |s| && Sort(s)[k] == x
    ensures forall i :: 0 <= i < |s| && Sort(s)[i] == x ==> i == k
  {
    var r := Sort(s);
    assert x in multiset(r);
    k :| 0 <= k < |r| && r[k] == x;
    forall i | 0 <= i < |r| && r[i] == x
      ensures i == k
    {
      if i < k {
        TwoPlaces(r, i, k);
      } else if k < i {
        TwoPlaces(r, k, i);
      }
    }
  }

  lemma TwoPlaces(s: seq<nat>, i: nat, j: nat)
    requires i < j < |s| && s[i] == s[j]
    ensures multiset(s)[s[i]] >= 2
  {
    assert s == s[..j] + s[j..];
    assert s[..j][i] == s[i] && s[j..][0] == s[i];
    assert s[i] in multiset(s[..j]) && s[i] in multiset(s[j..]);
  }

  function Smaller(s: seq<nat>, x: nat): set<nat> {
    set y | y in s && y < x
  }

  lemma {:induction false} AscendingAt(s: seq<nat>, i: nat, j: nat)
    requires Ascending(s) && i <= j < |s|
    ensures s[i] <= s[j]
  {
    if i > 0 {
      AscendingAt(s[1..], i - 1, j - 1);
    } else {
      HeadIsLeast(s, s[j]);
    }
  }

  // In an ascending list without repetitions, as many elements are smaller than one as come before it.
  lemma {:induction false} RankIsPlace(s: seq<nat>, k: nat)
    requires Ascending(s) && k < |s| && forall i, j :: 0 <= i < j < |s| ==> s[i] != s[j]
    ensures |Smaller(s, s[k])| == k
    decreases k
  {
    if k == 0 {
      forall y | y in s
        ensures s[0] <= y
      {
        HeadIsLeast(s, y);
      }
      assert Smaller(s, s[0]) == {};
    } else {
      RankIsPlace(s, k - 1);
      forall y | y in s
        ensures y in Smaller(s, s[k]) <==> y in Smaller(s, s[k - 1]) + {s[k - 1]}
      {
        var i :| 0 <= i < |s| && s[i] == y;
        PlaceOrder(s, i, k);
        PlaceOrder(s, i, k - 1);
      }
      assert Smaller(s, s[k]) == Smaller(s, s[k - 1]) + {s[k - 1]};
    }
  }

  lemma PlaceOrder(s: seq<nat>, i: nat, k: nat)
    requires Ascending(s) && i < |s| && k < |s| && forall i, j :: 0 <= i < j < |s| ==> s[i] != s[j]
    ensures s[i] < s[k] <==> i < k
    ensures s[i] == s[k] <==> i == k
  {
    if i < k {
      AscendingAt(s, i, k);
    } else {
      AscendingAt(s, k, i);
    }
  }

  lemma {:induction false} DistinctMultiplicity(s: seq<nat>, x: nat)
    requires forall i, j :: 0 <= i < j < |s| ==> s[i] != s[j]
    ensures multiset(s)[x] == if x in s then 1 else 0
  {
    if s != [] {
      assert s == [s[0]] + s[1..];
      DistinctMultiplicity(s[1..], x);
      assert s[0] !in s[1..];
    }
  }
}
