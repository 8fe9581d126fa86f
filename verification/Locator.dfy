/**
  Block locators: hashes from a tip back to genesis, dense at first and then at
  doubling distances. One is built from the height index, the other by walking
  back from any tip.
 */
module Locator {
  import opened Prelude
  import opened ChainTypes
  import opened BlockTree
  import opened ChainInvariants
  import opened ChainWalks

  const DENSE_ENTRIES := 10

  function NextStep(entries: nat, step: nat): nat {
    if entries >= DENSE_ENTRIES then 2 * step else step
  }

  /** Heights listed from `index` on, after `entries` entries, when the last step was `step`. */
  ghost function Heights(index: nat, entries: nat, step: nat): (hs: seq<nat>)
    requires step >= 1
    ensures forall i :: 0 <= i < |hs| ==> 1 <= hs[i] <= index
    decreases index
  {
    if index == 0 then []
    else
      var step' := NextStep(entries, step);
      [index] + if index > step' then Heights(index - step', entries + 1, step') else []
  }

  /** All heights of a locator for height `h`: the listed ones and genesis. */
  ghost function LocatorHeights(h: nat): (hs: seq<nat>)
    ensures forall i :: 0 <= i < |hs| ==> hs[i] <= h
  {
    Heights(h, 0, 1) + [0]
  }

  ghost predicate Decreasing(s: seq<nat>) {
    forall i, j :: 0 <= i < j < |s| ==> s[i] > s[j]
  }

  lemma {:induction false} HeightsDecrease(index: nat, entries: nat, step: nat)
    requires step >= 1
    ensures Decreasing(Heights(index, entries, step))
    decreases index
  {
    var step' := NextStep(entries, step);
    if index > step' {
      HeightsDecrease(index - step', entries + 1, step');
      var rest := Heights(index - step', entries + 1, step');
      var hs := Heights(index, entries, step);
      assert hs == [index] + rest;
    }
  }

  // ---------- length ----------

  ghost function Pow2(n: nat): (r: nat)
    ensures r >= 1
  {
    if n == 0 then 1 else 2 * Pow2(n - 1)
  }

  function Log2(n: nat): nat {
    if n < 2 then 0 else 1 + Log2(n / 2)
  }

  lemma {:induction false} Log2Bounds(n: nat)
    requires n >= 1
    ensures Pow2(Log2(n)) <= n < Pow2(Log2(n) + 1)
  {
    if n >= 2 {
      Log2Bounds(n / 2);
    }
  }

  lemma {:induction false} Pow2Grows(a: nat, b: nat)
    requires a <= b
    ensures Pow2(a) <= Pow2(b)
    decreases b
  {
    if a < b {
      Pow2Grows(a, b - 1);
    }
  }

  /** Once steps double, `k` entries cover almost `2^k` steps. */
  lemma {:induction false} SparseLength(index: nat, entries: nat, j: nat)
    requires entries >= DENSE_ENTRIES && index >= 1
    ensures var k := |Heights(index, entries, Pow2(j))|; k >= 1 && Pow2(j + k) + 1 <= index + 2 * Pow2(j)
    decreases index
  {
    var step' := NextStep(entries, Pow2(j));
    assert step' == Pow2(j + 1);
    if index > step' {
      SparseLength(index - step', entries + 1, j + 1);
      var k := |Heights(index - step', entries + 1, Pow2(j + 1))|;
      assert j + 1 + k == j + (k + 1);
    }
  }

  lemma {:induction false} DenseLength(index: nat, entries: nat)
    requires entries <= DENSE_ENTRIES && index >= 1
    ensures var k := |Heights(index, entries, 1)|; var dense := DENSE_ENTRIES - entries;
            k > dense ==> Pow2(k - dense) + dense <= index + 1
    decreases index
  {
    if entries == DENSE_ENTRIES {
      SparseLength(index, entries, 0);
      assert Pow2(0) == 1;
    } else if index > 1 {
      DenseLength(index - 1, entries + 1);
    }
  }

  /** A locator has at most 11 + log2(h) entries. */
  lemma LocatorLength(h: nat)
    requires h >= 1
    ensures |LocatorHeights(h)| <= 11 + Log2(h)
  {
    DenseLength(h, 0);
    Log2Bounds(h);
    var k := |Heights(h, 0, 1)|;
    if k > DENSE_ENTRIES + Log2(h) {
      Pow2Grows(Log2(h) + 1, k - DENSE_ENTRIES);
    }
  }

  /** From the tip, strictly down to genesis. */
  lemma LocatorShape(h: nat)
    ensures var hs := LocatorHeights(h);
            hs[0] == h && hs[|hs| - 1] == 0 && Decreasing(hs)
  {
    HeightsDecrease(h, 0, 1);
  }

  // ---------- which heights ----------

  /** The distance from entry `i` to the next one: 1 for the first ten, then 2, 4, 8 and so on. */
  ghost function Gap(i: nat): (gap: nat)
    ensures gap >= 1
  {
    if i < 10 then 1 else Pow2(i - 9)
  }

  /** Item `i` of a list that starts at entry `entries` is one gap above the next item. */
  ghost predicate GapAt(hs: seq<nat>, entries: nat, i: nat)
    requires i + 1 < |hs|
  {
    hs[i] == hs[i + 1] + Gap(entries + i)
  }

  ghost predicate Spaced(hs: seq<nat>, entries: nat) {
    forall i :: 0 <= i < |hs| - 1 ==> GapAt(hs, entries, i)
  }

  lemma SpacedMore(index: nat, rest: seq<nat>, entries: nat)
    requires Spaced(rest, entries + 1)
    requires rest == [] || index == rest[0] + Gap(entries)
    ensures Spaced([index] + rest, entries)
  {
    var hs := [index] + rest;
    forall i | 0 <= i < |hs| - 1
      ensures GapAt(hs, entries, i)
    {
      if i > 0 {
        assert GapAt(rest, entries + 1, i - 1);
        assert entries + 1 + (i - 1) == entries + i;
      }
    }
  }

  ghost function StepBefore(entries: nat): (step: nat)
    ensures step >= 1
  {
    if entries == 0 then 1 else Gap(entries - 1)
  }

  lemma StepIsGap(entries: nat)
    ensures NextStep(entries, StepBefore(entries)) == Gap(entries)
  {
    assert Pow2(0) == 1;
  }

  ghost predicate EndsAt(hs: seq<nat>, index: nat, entries: nat) {
    |hs| >= 1 && hs[0] == index && hs[|hs| - 1] <= Gap(entries + |hs| - 1)
  }

  lemma {:induction false} HeightsSpaced(index: nat, entries: nat)
    requires index >= 1
    ensures var hs := Heights(index, entries, StepBefore(entries)); Spaced(hs, entries) && EndsAt(hs, index, entries)
    decreases index
  {
    StepIsGap(entries);
    var hs, gap := Heights(index, entries, StepBefore(entries)), Gap(entries);
    if index > gap {
      var rest := Heights(index - gap, entries + 1, gap);
      assert hs == [index] + rest;
      HeightsSpaced(index - gap, entries + 1);
      SpacedMore(index, rest, entries);
      assert hs[|hs| - 1] == rest[|rest| - 1] && entries + 1 + |rest| == entries + |hs|;
    } else {
      assert hs == [index];
    }
  }

  lemma {:induction false} DenseAt(hs: seq<nat>, i: nat)
    requires Spaced(hs, 0) && i < |hs| && i <= 10
    ensures hs[i] == hs[0] - i
  {
    if i > 0 {
      DenseAt(hs, i - 1);
      assert GapAt(hs, 0, i - 1);
    }
  }

  /** Entry by entry: the tip and the ten heights below it, then gaps of 2, 4, 8 and so on, all above genesis; and
      genesis last, exactly when the next gap would reach or pass it. */
  lemma LocatorExactly(h: nat)
    ensures var hs := LocatorHeights(h); var n := |hs| - 1;
            && hs[n] == 0 && (n == 0 <==> h == 0)
            && (forall i :: 0 <= i < n ==> hs[i] >= 1)
            && (forall i :: 0 <= i < n && i <= 10 ==> hs[i] == h - i)
            && (forall i :: 10 <= i < n - 1 ==> hs[i] == hs[i + 1] + Pow2(i - 9))
            && (n >= 1 ==> hs[n - 1] <= if n <= 10 then 1 else Pow2(n - 10))
  {
    var listed, hs := Heights(h, 0, 1), LocatorHeights(h);
    if h >= 1 {
      HeightsSpaced(h, 0);
    }
    forall i | 0 <= i < |listed| && i <= 10
      ensures hs[i] == h - i
    {
      DenseAt(listed, i);
    }
    forall i | 10 <= i < |listed| - 1
      ensures hs[i] == hs[i + 1] + Pow2(i - 9)
    {
      assert GapAt(listed, 0, i);
    }
  }

  // ---------- the two builders ----------

  /** The ancestors of `tip` at the given heights. */
  ghost function HashesAt(g: Header, t: Tree, tip: BlockHash, hs: seq<nat>): (r: seq<BlockHash>)
    requires TreeOk(g, t) && tip in t && forall i :: 0 <= i < |hs| ==> hs[i] <= t[tip].height
    ensures |r| == |hs|
  {
    seq(|hs|, i requires 0 <= i < |hs| => Anc(g, t, tip, hs[i]))
  }

  lemma HashesConcat(g: Header, t: Tree, tip: BlockHash, a: seq<nat>, b: seq<nat>)
    requires TreeOk(g, t) && tip in t
    requires forall i :: 0 <= i < |a| ==> a[i] <= t[tip].height
    requires forall i :: 0 <= i < |b| ==> b[i] <= t[tip].height
    ensures HashesAt(g, t, tip, a + b) == HashesAt(g, t, tip, a) + HashesAt(g, t, tip, b)
  {
  }

  /** One more entry listed. */
  lemma HeightsStep(done: seq<nat>, index: nat, step: nat)
    requires index >= 1 && step >= 1
    ensures var step' := NextStep(|done|, step);
            done + Heights(index, |done|, step) ==
            (done + [index]) + if index > step' then Heights(index - step', |done + [index]|, step') else []
  {
  }

  /** The heights the index-based locator asks the store for. The step stays below twice the height. */
  method LocatorIndexes(topHeight: nat) returns (indexes: seq<nat>)
    ensures indexes == LocatorHeights(topHeight)
  {
    indexes := [];
    var step := 1;
    var index: nat := topHeight;
    while index > 0
      invariant step == 1 || step < 2 * topHeight
      invariant step >= 1 && index <= topHeight
      invariant indexes + Heights(index, |indexes|, step) == Heights(topHeight, 0, 1)
      decreases index
    {
      HeightsStep(indexes, index, step);
      step := NextStep(|indexes|, step);
      indexes := indexes + [index];
      if index > step {
        index := index - step;
      } else {
        assert indexes == Heights(topHeight, 0, 1);
        break;
      }
    }
    indexes := indexes + [0];
  }

  /** The locator of the active tip, through the height index. */
  method GetBlockLocator(s: Store, topHeight: nat, ghost g: Header, ghost t: Tree, ghost tip: BlockHash)
    returns (hashes: seq<BlockHash>)
    requires TreeOk(g, t) && tip in t && SlotsOk(g, t, s, tip) && topHeight == t[tip].height
    ensures hashes == HashesAt(g, t, tip, LocatorHeights(topHeight))
  {
    var indexes := LocatorIndexes(topHeight);
    hashes := [];
    for i := 0 to |indexes|
      invariant hashes == HashesAt(g, t, tip, indexes)[..i]
    {
      ActiveSlot(g, t, s, tip, indexes[i]);
      match s.GetBlockHash(indexes[i]) {
        case Some(hash) => hashes := hashes + [hash];
        case None =>
      }
    }
  }

  /** The locator of any known tip, by walking back from it. */
  method GetBlockLocatorForTip(g: Header, s: Store, tip: BlockHash, ghost t: Tree)
    returns (r: Result<seq<BlockHash>, Error>)
    requires TreeOk(g, t) && Backed(g, t, s.headers) && s.GetBlockHash(0) == Some(g.hash)
    ensures tip !in s.headers ==> r == Err(BlockNotPresent)
    ensures tip in s.headers && s.headers[tip].Height().None? ==> r == Err(OrphanOrInvalidBlock)
    ensures tip in s.headers ==> tip in t
    ensures tip in s.headers && s.headers[tip].Height().Some? ==>
              r == Ok(HashesAt(g, t, tip, LocatorHeights(t[tip].height)))
  {
    if tip !in s.headers {
      return Err(BlockNotPresent);
    }
    StoredNode(g, t, s.headers, tip);
    if s.headers[tip].Height().None? {
      return Err(OrphanOrInvalidBlock);
    }
    var height := s.headers[tip].height;
    var hashes := WalkLocator(g, s.headers, s.headers[tip].header, height, t);
    HashesConcat(g, t, tip, Heights(height, 0, 1), [0]);
    AncZero(g, t, tip);
    assert HashesAt(g, t, tip, [0]) == [g.hash];
    return Ok(hashes + [s.slots[0].hash]);
  }

  method WalkLocator(g: Header, hs: Headers, tip: Header, height: nat, ghost t: Tree) returns (hashes: seq<BlockHash>)
    requires Known(g, t, hs, tip) && tip.hash in hs && t[tip.hash].height == height
    ensures hashes == HashesAt(g, t, tip.hash, Heights(height, 0, 1))
  {
    hashes := [];
    var index: nat := height;
    var current := tip;
    var currentHeight := height;
    var step := 1;
    ghost var listed: seq<nat> := [];
    while index > 0
      invariant step >= 1 && index <= currentHeight <= height
      invariant Walked(g, t, hs, tip, current) && current.hash in hs && t[current.hash].height == currentHeight
      invariant listed + Heights(index, |listed|, step) == Heights(height, 0, 1)
      invariant forall i :: 0 <= i < |listed| ==> listed[i] <= height
      invariant hashes == HashesAt(g, t, tip.hash, listed)
      decreases index
    {
      current, currentHeight := DescendTo(g, hs, tip, current, currentHeight, index, t);
      HeightsStep(listed, index, step);
      HashesConcat(g, t, tip.hash, listed, [index]);
      step := NextStep(|hashes|, step);
      hashes := hashes + [current.hash];
      listed := listed + [index];
      if index > step {
        index := index - step;
      } else {
        assert listed == Heights(height, 0, 1);
        break;
      }
    }
  }

  method DescendTo(g: Header, hs: Headers, tip: Header, from: Header, fromHeight: nat, index: nat, ghost t: Tree)
    returns (current: Header, currentHeight: nat)
    requires Known(g, t, hs, tip) && Walked(g, t, hs, tip, from) && from.hash in hs
    requires t[from.hash].height == fromHeight && index <= fromHeight
    ensures Walked(g, t, hs, tip, current) && current.hash in hs
    ensures currentHeight == t[current.hash].height == index
    ensures current.hash == Anc(g, t, tip.hash, index)
  {
    current, currentHeight := from, fromHeight;
    while currentHeight > index
      invariant Walked(g, t, hs, tip, current) && current.hash in hs
      invariant index <= currentHeight == t[current.hash].height
    {
      StepBack(g, t, hs, tip, current);
      current := hs[current.prev].header;
      currentHeight := currentHeight - 1;
    }
  }
}
