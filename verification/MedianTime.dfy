/**
  Median time past: the median of the times of a header and its ten predecessors, or
  of as many as there are.
 */
module MedianTime {
  import opened Prelude
  import opened ChainTypes
  import opened BlockTree
  import opened ChainInvariants
  import opened ChainWalks

  const MEDIAN_TIME_PAST_BLOCK_COUNT: nat := 11

  // ---------- sorting and medians ----------

  ghost function CountBelow(s: seq<nat>, m: nat): nat {
    if s == [] then 0 else CountBelow(s[..|s| - 1], m) + if s[|s| - 1] < m then 1 else 0
  }

  ghost function CountUpTo(s: seq<nat>, m: nat): nat {
    CountBelow(s, m + 1)
  }

  /** At most half of the numbers are smaller, and more than half are not larger. */
  ghost predicate IsMedian(s: seq<nat>, m: nat) {
    CountBelow(s, m) <= |s| / 2 < CountUpTo(s, m)
  }

  ghost predicate AllUpTo(s: seq<nat>, m: nat) {
    forall y :: y in s ==> y <= m
  }

  ghost predicate Sorted(s: seq<nat>) {
    s == [] || (Sorted(s[..|s| - 1]) && AllUpTo(s[..|s| - 1], s[|s| - 1]))
  }

  function Insert(s: seq<nat>, x: nat): (r: seq<nat>)
    ensures |r| == |s| + 1
    ensures forall y :: y in r ==> y in s || y == x
  {
    var n := |s| - 1;
    if s == [] || s[n] <= x then s + [x] else Insert(s[..n], x) + [s[n]]
  }

  function Sort(s: seq<nat>): (r: seq<nat>)
    ensures |r| == |s|
  {
    if s == [] then [] else Insert(Sort(s[..|s| - 1]), s[|s| - 1])
  }

  lemma {:induction false} InsertSorted(s: seq<nat>, x: nat)
    requires Sorted(s)
    ensures Sorted(Insert(s, x))
  {
    var n := |s| - 1;
    if s == [] || s[n] <= x {
      assert (s + [x])[..|s|] == s;
      assert s != [] ==> s == s[..n] + [s[n]];
    } else {
      InsertSorted(s[..n], x);
      var rest := Insert(s[..n], x);
      assert (rest + [s[n]])[..|rest|] == rest;
    }
  }

  lemma {:induction false} SortSorted(s: seq<nat>)
    ensures Sorted(Sort(s))
  {
    if s != [] {
      SortSorted(s[..|s| - 1]);
      InsertSorted(Sort(s[..|s| - 1]), s[|s| - 1]);
    }
  }

  lemma CountAppend(s: seq<nat>, x: nat, m: nat)
    ensures CountBelow(s + [x], m) == CountBelow(s, m) + if x < m then 1 else 0
  {
    assert (s + [x])[..|s|] == s;
  }

  lemma {:induction false} CountInsert(s: seq<nat>, x: nat, m: nat)
    ensures CountBelow(Insert(s, x), m) == CountBelow(s, m) + if x < m then 1 else 0
  {
    var n := |s| - 1;
    if s == [] || s[n] <= x {
      CountAppend(s, x, m);
    } else {
      CountInsert(s[..n], x, m);
      CountAppend(Insert(s[..n], x), s[n], m);
    }
  }

  lemma {:induction false} CountSort(s: seq<nat>, m: nat)
    ensures CountBelow(Sort(s), m) == CountBelow(s, m)
  {
    if s != [] {
      CountSort(s[..|s| - 1], m);
      CountInsert(Sort(s[..|s| - 1]), s[|s| - 1], m);
    }
  }

  lemma {:induction false} CountAll(s: seq<nat>, m: nat)
    ensures CountBelow(s, m) <= |s|
    ensures AllUpTo(s, m) ==> CountBelow(s, m + 1) == |s|
  {
    if s != [] {
      var n := |s| - 1;
      CountAll(s[..n], m);
      if AllUpTo(s, m) {
        assert s[n] in s;
        forall y | y in s[..n]
          ensures y <= m
        {
          assert y in s;
        }
        assert AllUpTo(s[..n], m);
      }
    }
  }

  /** In a sorted list, at most `k` numbers are below the one at place `k`, and more than `k` are up to it. */
  lemma {:induction false} CountSorted(s: seq<nat>, k: nat)
    requires Sorted(s) && k < |s|
    ensures CountBelow(s, s[k]) <= k < CountUpTo(s, s[k])
  {
    var n := |s| - 1;
    if k < n {
      CountSorted(s[..n], k);
      assert s[k] in s[..n];
    } else {
      CountAll(s[..n], s[n]);
    }
  }

  lemma SortedPlace(s: seq<nat>, sorted: seq<nat>, k: nat)
    requires sorted == Sort(s) && k < |sorted|
    ensures CountBelow(s, sorted[k]) <= k < CountUpTo(s, sorted[k])
  {
    SortSorted(s);
    CountSorted(sorted, k);
    CountSort(s, sorted[k]);
    CountSort(s, sorted[k] + 1);
  }

  /** The middle of the sorted list is the median. */
  lemma MiddleIsMedian(s: seq<nat>)
    requires s != []
    ensures IsMedian(s, Sort(s)[|s| / 2])
  {
    SortedPlace(s, Sort(s), |s| / 2);
  }

  // ---------- the walk ----------

  /** How many headers a median at this height looks at. */
  ghost function Window(height: nat): nat {
    if height < 10 then height + 1 else 11
  }

  /** Times of the newest `n` headers of the chain of `x`, newest first. */
  ghost function Times(g: Header, t: Tree, x: BlockHash, n: nat): seq<nat>
    requires TreeOk(g, t) && x in t && n <= t[x].height + 1
  {
    if n == 0 then [] else Times(g, t, x, n - 1) + [t[Anc(g, t, x, t[x].height - (n - 1))].header.time]
  }

  /** The median of a header's own time and those of up to ten ancestors. */
  method MedianTimePast(g: Header, hs: Headers, header: Header, ghost t: Tree) returns (r: Result<nat, Error>)
    requires Known(g, t, hs, header)
    ensures r.Ok? <==> header == g || header.prev in hs
    ensures r.Err? ==> r.error == BlockNotPresent
    ensures r.Ok? ==> IsMedian(Times(g, t, header.hash, Window(t[header.hash].height)), r.value)
  {
    var timestamps: seq<nat> := [header.time];
    var current := header;
    ghost var height := t[header.hash].height;
    while |timestamps| < MEDIAN_TIME_PAST_BLOCK_COUNT && current.prev != g.prev
      invariant Walked(g, t, hs, header, current) && (current == header || header.prev in hs)
      invariant 1 <= |timestamps| <= MEDIAN_TIME_PAST_BLOCK_COUNT && |timestamps| <= height + 1
      invariant t[current.hash].height == height + 1 - |timestamps|
      invariant timestamps == Times(g, t, header.hash, |timestamps|)
      decreases MEDIAN_TIME_PAST_BLOCK_COUNT - |timestamps|
    {
      StepBack(g, t, hs, header, current);
      if current.prev !in hs {
        return Err(BlockNotPresent);
      }
      current := hs[current.prev].header;
      timestamps := timestamps + [current.time];
    }
    assert current.prev == g.prev ==> current.hash == g.hash by {
      if current.hash != g.hash {
        StepBack(g, t, hs, header, current);
      }
    }
    MiddleIsMedian(timestamps);
    r := Ok(Sort(timestamps)[|timestamps| / 2]);
  }
}
