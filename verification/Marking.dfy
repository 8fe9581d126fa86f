/**
  The loops that rewrite the states of a run of headers in the store. Each takes
  the store and hands back the changed one.
 */
module Marking {
  import opened Prelude
  import opened ChainTypes
  import opened BlockTree
  import opened ChainInvariants
  import opened ChainWalks
  import opened ForkChoice
  import opened StoreOps
  import opened WorkShortcut

  /** Turns the old chain above the fork point into a fork. */
  method MarkChainAsInactive(g: Header, s: Store, oldTip: Header, forkPoint: BlockHash, ghost t: Tree)
    returns (s': Store, ops: seq<Op>)
    requires Known(g, t, s.headers, oldTip) && oldTip.hash in s.headers
    requires OnChain(g, t, oldTip.hash, forkPoint)
    ensures s'.slots == s.slots && Traced(g, s, s', ops)
    ensures DeactivatedTo(g, t, s.headers, s'.headers, oldTip.hash, t[forkPoint].height)
  {
    StoredNode(g, t, s.headers, oldTip.hash);
    var depth := GetChainDepth(g, s.headers, oldTip, t);
    var header := oldTip;
    var height := depth.value;
    s', ops := s, [];
    while header.hash != g.hash && header.hash != forkPoint
      invariant Walked(g, t, s.headers, oldTip, header) && header.hash in s.headers
      invariant height == t[header.hash].height >= t[forkPoint].height
      invariant s'.slots == s.slots && Traced(g, s, s', ops)
      invariant DeactivatedTo(g, t, s.headers, s'.headers, oldTip.hash, height)
      decreases height
    {
      StepBack(g, t, s.headers, oldTip, header);
      OnChainDistinct(g, t, oldTip.hash, header.hash, forkPoint);
      DeactivateOne(g, t, s.headers, s'.headers, oldTip.hash, height);
      TracedStep(g, s, s', ops, Move(InFork(header, height)));
      ops := ops + [Move(InFork(header, height))];
      s' := s'.SaveHeader(InFork(header, height));
      assert s'.headers[header.prev] == Deactivated(g, t, oldTip.hash, height - 1, header.prev, s.headers[header.prev]);
      header := s'.headers[header.prev].header;
      height := height - 1;
    }
  }

  /** The slot is vacant, and what it holds is a header of that height. */
  ghost predicate VacantAt(t: Tree, s: Store, n: nat) {
    Vacant(s, n) && SlotSound(t, s, n)
  }

  ghost predicate VacantAbove(t: Tree, s: Store, n: nat) {
    forall k: nat {:trigger VacantAt(t, s, k)} :: k > n ==> VacantAt(t, s, k)
  }

  /** The next slot to take over is as vacant as it was before the ones above it were. */
  lemma StillVacant(g: Header, t: Tree, s: Store, s': Store, tip: BlockHash, n: nat, hi: nat)
    requires TreeOk(g, t) && tip in t && n <= hi <= t[tip].height && ActivatedTo(g, t, s, s', tip, n, hi)
    requires VacantAt(t, s, n)
    ensures Vacant(s', n)
  {
    assert Get(s'.slots, n) == ActivatedSlot(g, t, tip, n, hi, n, Get(s.slots, n));
    if n in s.slots {
      var x := s.slots[n].hash;
      assert Get(s'.headers, x) == Activated(g, t, tip, n, hi, x, Get(s.headers, x));
    }
  }

  /** Makes the branch above the fork point the pending part of the active chain. */
  method MarkChainAsActive(g: Header, s: Store, newTip: Header, forkPoint: BlockHash, ghost t: Tree)
    returns (s': Store, ops: seq<Op>)
    requires Known(g, t, s.headers, newTip) && (newTip == g || newTip.prev in s.headers)
    requires OnChain(g, t, newTip.hash, forkPoint)
    ensures VacantAbove(t, s, t[forkPoint].height) ==> Traced(g, s, s', ops)
    ensures ActivatedTo(g, t, s, s', newTip.hash, t[forkPoint].height, t[newTip.hash].height)
  {
    var depth := GetChainDepth(g, s.headers, newTip, t);
    var header := newTip;
    var height := depth.value;
    s', ops := s, [];
    ghost var vacant := VacantAbove(t, s, t[forkPoint].height);
    while header.hash != g.hash && header.hash != forkPoint
      invariant Walked(g, t, s.headers, newTip, header)
      invariant height == t[header.hash].height >= t[forkPoint].height
      invariant vacant ==> Traced(g, s, s', ops)
      invariant ActivatedTo(g, t, s, s', newTip.hash, height, t[newTip.hash].height)
      decreases height
    {
      StepBack(g, t, s.headers, newTip, header);
      OnChainDistinct(g, t, newTip.hash, header.hash, forkPoint);
      ActivateOne(g, t, s, s', newTip.hash, height, t[newTip.hash].height);
      if vacant {
        StillVacant(g, t, s, s', newTip.hash, height, t[newTip.hash].height);
        TracedStep(g, s, s', ops, Place(HeadersOnly(header, height)));
      }
      ops := ops + [Place(HeadersOnly(header, height))];
      s' := s'.SaveHeader(HeadersOnly(header, height));
      s' := s'.UpdateBlockIndex(height, header.hash);
      assert Get(s'.headers, header.prev) ==
             Activated(g, t, newTip.hash, height - 1, t[newTip.hash].height, header.prev, Get(s.headers, header.prev));
      header := s'.headers[header.prev].header;
      height := height - 1;
    }
  }

  /** Marks the active chain from height `k` up as invalid. */
  method MarkInvalid(g: Header, s: Store, k: nat, ghost t: Tree, ghost tip: BlockHash, depth: nat)
    returns (s': Store, ops: seq<Op>)
    requires TreeOk(g, t) && tip in t && tip in s.headers && Backed(g, t, s.headers) && SlotsOk(g, t, s, tip)
    requires depth == t[tip].height
    ensures s'.slots == s.slots && (k > 0 ==> Traced(g, s, s', ops))
    ensures InvalidatedTo(g, t, s.headers, s'.headers, tip, k, depth + 1)
  {
    s', ops := s, [];
    var h := k;
    while h <= depth
      invariant s'.slots == s.slots && h >= k && (k > 0 ==> Traced(g, s, s', ops))
      invariant InvalidatedTo(g, t, s.headers, s'.headers, tip, k, h)
      invariant h <= depth || h == k || h == depth + 1
      decreases depth + 1 - h
    {
      AncestorStored(g, t, s.headers, tip, h);
      ActiveSlot(g, t, s, tip, h);
      StoredNode(g, t, s.headers, Anc(g, t, tip, h));
      assert s'.headers[Anc(g, t, tip, h)] ==
             Invalidated(g, t, tip, k, h, Anc(g, t, tip, h), s.headers[Anc(g, t, tip, h)]);
      InvalidateOne(g, t, s.headers, s'.headers, tip, k, h);
      var hash := s'.slots[h].hash;
      var header := s'.headers[hash].header;
      if k > 0 {
        TracedStep(g, s, s', ops, Move(InvalidChain(header)));
      }
      ops := ops + [Move(InvalidChain(header))];
      s' := s'.SaveHeader(InvalidChain(header));
      h := h + 1;
    }
    forall x | x in s'.headers
      ensures s'.headers[x] == Invalidated(g, t, tip, k, depth + 1, x, s.headers[x])
    {
      assert s'.headers[x] == Invalidated(g, t, tip, k, h, x, s.headers[x]);
    }
  }

  /** The next validated header to return to the pending state still has its slot. */
  lemma StillHeld(g: Header, t: Tree, s: Store, s': Store, tip: BlockHash, r: nat, m: nat, vi: nat)
    requires TreeOk(g, t) && tip in t && SlotsOk(g, t, s, tip) && StatusOk(g, t, s.headers, tip, vi)
    requires r <= m < vi <= t[tip].height && ActivatedTo(g, t, s, s', tip, r, m)
    ensures Holds(s', m + 1, Anc(g, t, tip, m + 1))
  {
    var k: nat := m + 1;
    var x := Anc(g, t, tip, k);
    ActiveSlot(g, t, s, tip, k);
    assert Get(s'.slots, k) == ActivatedSlot(g, t, tip, r, m, k, Get(s.slots, k));
    assert Get(s'.headers, x) == Activated(g, t, tip, r, m, x, Get(s.headers, x));
    assert StateAt(g, t, tip, vi, x, s.headers[x]);
  }

  /** Returns the validated headers above height `r` to the pending state. */
  method RollBack(s: Store, r: nat, vi: nat, ghost g: Header, ghost t: Tree, ghost tip: BlockHash)
    returns (s': Store, ops: seq<Op>)
    requires TreeOk(g, t) && tip in t && SlotsOk(g, t, s, tip)
    requires r <= vi <= t[tip].height
    ensures ActivatedTo(g, t, s, s', tip, r, vi)
    ensures StatusOk(g, t, s.headers, tip, vi) ==> Traced(g, s, s', ops)
  {
    s', ops := s, [];
    for m := r to vi
      invariant ActivatedTo(g, t, s, s', tip, r, m)
      invariant StatusOk(g, t, s.headers, tip, vi) ==> Traced(g, s, s', ops)
    {
      ActiveSlot(g, t, s, tip, m + 1);
      assert Get(s'.slots, m + 1) == ActivatedSlot(g, t, tip, r, m, m + 1, Get(s.slots, m + 1));
      RollbackOne(g, t, s, s', tip, r, m);
      var header := s'.slots[m + 1].disk.header;
      if StatusOk(g, t, s.headers, tip, vi) {
        StillHeld(g, t, s, s', tip, r, m, vi);
        TracedStep(g, s, s', ops, Restate(HeadersOnly(header, m + 1)));
      }
      ops := ops + [Restate(HeadersOnly(header, m + 1))];
      s' := s'.SaveHeader(HeadersOnly(header, m + 1));
    }
  }

  // ---------- a whole reorganisation ----------

  /** Slots and headers at or below height `n` are untouched. */
  ghost predicate ChangedAbove(t: Tree, s: Store, s': Store, n: nat) {
    && (forall k: nat {:trigger Get(s'.slots, k)} :: k <= n ==> Get(s'.slots, k) == Get(s.slots, k))
    && (forall x {:trigger Get(s'.headers, x)} :: x in t && t[x].height <= n ==>
          Get(s'.headers, x) == Get(s.headers, x))
  }

  lemma BackedAfter(g: Header, t: Tree, hs: Headers, hs': Headers, tip: BlockHash, n: nat)
    requires TreeOk(g, t) && tip in t && Backed(g, t, hs) && DeactivatedTo(g, t, hs, hs', tip, n)
    ensures Backed(g, t, hs')
  {
    forall x
      ensures BackedAt(g, t, hs', x)
    {
      assert BackedAt(g, t, hs, x);
      assert x in hs' ==> hs'[x] == Deactivated(g, t, tip, n, x, hs[x]);
    }
  }

  lemma ReorgChangedAbove(g: Header, t: Tree, s0: Store, s1: Store, s2: Store, tip: BlockHash, tip': BlockHash, n: nat)
    requires TreeOk(g, t) && tip in t && tip' in t && s1.slots == s0.slots
    requires DeactivatedTo(g, t, s0.headers, s1.headers, tip, n) && ActivatedTo(g, t, s1, s2, tip', n, t[tip'].height)
    ensures ChangedAbove(t, s0, s2, n)
  {
    forall k: nat | k <= n
      ensures Get(s2.slots, k) == Get(s0.slots, k)
    {
      assert Get(s2.slots, k) == ActivatedSlot(g, t, tip', n, t[tip'].height, k, Get(s1.slots, k));
    }
    forall x | x in t && t[x].height <= n
      ensures Get(s2.headers, x) == Get(s0.headers, x)
    {
      assert Get(s2.headers, x) == Activated(g, t, tip', n, t[tip'].height, x, Get(s1.headers, x));
      assert x in s0.headers ==> s1.headers[x] == Deactivated(g, t, tip, n, x, s0.headers[x]);
    }
  }

  lemma ReorgDone(p: Params, t: Tree, s0: Store, s1: Store, s2: Store, b: BestChain, newTip: Header, plan: Plan)
    requires Branching(p.genesis, t, s0, b, newTip) && PlanOk(p.genesis, t, s0, b, newTip.hash, plan)
    requires s1.slots == s0.slots
    requires DeactivatedTo(p.genesis, t, s0.headers, s1.headers, b.bestBlock, t[plan.forkPoint.hash].height)
    requires ActivatedTo(p.genesis, t, s1, s2, newTip.hash, t[plan.forkPoint.hash].height, t[newTip.hash].height)
    ensures Reorged(p.genesis, t, s0, b, newTip.hash, plan.forkPoint.hash, s2, Moved(b, newTip.hash, plan))
  {
    var f := plan.forkPoint.hash;
    ReorgStep(p.genesis, t, s0, s1, s2, b.bestBlock, t[b.validationIndex].height, newTip.hash, f);
    ReorgChangedAbove(p.genesis, t, s0, s1, s2, b.bestBlock, newTip.hash, t[f].height);
  }

  lemma ReorgAccDone(p: Params, t: Tree, s0: Store, s2: Store, b: BestChain, newTip: Header, plan: Plan,
                     blocks: Blocks, acc: Stump)
    requires Branching(p.genesis, t, s0, b, newTip) && PlanOk(p.genesis, t, s0, b, newTip.hash, plan)
    requires Reorged(p.genesis, t, s0, b, newTip.hash, plan.forkPoint.hash, s2, Moved(b, newTip.hash, plan))
    requires AccOk(p, t, s0, b.bestBlock, t[b.validationIndex].height, blocks, acc)
    ensures AccMatches(p, t, s2, Moved(b, newTip.hash, plan), blocks, plan.acc)
  {
    forall n: nat | n <= t[plan.forkPoint.hash].height
      ensures s2.LoadRoots(n) == s0.LoadRoots(n)
    {
      assert Get(s2.slots, n) == Get(s0.slots, n);
    }
    ReorgAccStep(p, t, s0, s2, b.bestBlock, t[b.validationIndex].height, newTip.hash, plan.forkPoint.hash,
                 blocks, acc, plan.acc);
  }

  function Moved(b: BestChain, newTip: BlockHash, plan: Plan): BestChain {
    BestChain(newTip, plan.depth, plan.validationIndex, b.alternativeTips)
  }

  /** `s'` and `b'` are the store and record after moving from the chain of `b` to the branch of
      `newTip`, which leaves it at `f`: validated up to what both chains share, and unchanged
      at and below the fork point. */
  ghost predicate Reorged(g: Header, t: Tree, s: Store, b: BestChain, newTip: BlockHash, f: BlockHash,
                          s': Store, b': BestChain) {
    match Get(t, b.validationIndex)
    case None => false
    case Some(validated) =>
      && Coherent(g, t, s', b')
      && CanReorg(g, t, s, b, newTip, f)
      && b'.bestBlock == newTip
      && t[b'.validationIndex].height == Min(validated.height, t[f].height)
      && b'.alternativeTips == b.alternativeTips
      && ChangedAbove(t, s, s', t[f].height)
      && Exchanged(g, t, s, s', b.bestBlock, newTip, t[f].height)
  }

  /** Exactly the old chain above height `n` became a fork and exactly the new one above it pending, in its slots. */
  ghost predicate Exchanged(g: Header, t: Tree, s: Store, s': Store, tip: BlockHash, newTip: BlockHash, n: nat)
    requires TreeOk(g, t) && tip in t && newTip in t
  {
    exists s1: Store ::
      && s1.slots == s.slots && DeactivatedTo(g, t, s.headers, s1.headers, tip, n)
      && ActivatedTo(g, t, s1, s', newTip, n, t[newTip].height)
  }

  /** Every slot holds a block that is stored. */
  ghost predicate SlotsStored(s: Store) {
    forall n {:trigger s.slots[n]} :: n in s.slots ==> s.slots[n].hash in s.headers
  }

  /** Once the old chain is a fork, the slots above the fork point hold no best-chain header. */
  lemma SlotsFreed(g: Header, t: Tree, s: Store, s1: Store, b: BestChain, newTip: Header, n: nat)
    requires Branching(g, t, s, b, newTip) && SlotsStored(s) && s1.slots == s.slots
    requires DeactivatedTo(g, t, s.headers, s1.headers, b.bestBlock, n)
    ensures VacantAbove(t, s1, n)
  {
    forall k: nat | k > n
      ensures VacantAt(t, s1, k)
    {
      assert SlotSound(t, s, k) && SlotAt(g, t, s, b.bestBlock, k);
      if k in s.slots {
        var x := s.slots[k].hash;
        assert StateAt(g, t, b.bestBlock, t[b.validationIndex].height, x, s.headers[x]);
        assert s1.headers[x] == Deactivated(g, t, b.bestBlock, n, x, s.headers[x]);
      }
    }
  }

  /** Works out and carries out a reorganisation. Without an error the accumulator it returns belongs
      to the new chain, provided the old one belonged to the old chain. */
  method ReorgTo(p: Params, s: Store, b: BestChain, newTip: Header, ghost t: Tree, ghost blocks: Blocks,
                 ghost acc: Stump)
    returns (r: Result<(Store, BestChain, Stump), Error>, ghost f: BlockHash, ops: seq<Op>)
    requires Branching(p.genesis, t, s, b, newTip)
    ensures r.Err? ==> forall x :: !CanReorg(p.genesis, t, s, b, newTip.hash, x)
    ensures r.Err? ==> r.error == ReorgFault(p.genesis, t, s, newTip)
    ensures r.Ok? ==> Reorged(p.genesis, t, s, b, newTip.hash, f, r.value.0, r.value.1)
    ensures r.Ok? && AccOk(p, t, s, b.bestBlock, t[b.validationIndex].height, blocks, acc) ==>
              AccMatches(p, t, r.value.0, r.value.1, blocks, r.value.2)
    ensures r.Ok? && SlotsStored(s) ==> Traced(p.genesis, s, r.value.0, ops)
  {
    ops := [];
    var planned := PlanReorg(p.genesis, s, b, newTip, t);
    if planned.Err? {
      return Err(planned.error), newTip.hash, ops;
    }
    var plan := planned.value;
    f := plan.forkPoint.hash;
    StoredNode(p.genesis, t, s.headers, b.bestBlock);
    var currentTip := s.headers[b.bestBlock].header;
    var s1, moves := MarkChainAsInactive(p.genesis, s, currentTip, plan.forkPoint.hash, t);
    BackedAfter(p.genesis, t, s.headers, s1.headers, b.bestBlock, t[f].height);
    var s2, places := MarkChainAsActive(p.genesis, s1, newTip, plan.forkPoint.hash, t);
    if SlotsStored(s) {
      SlotsFreed(p.genesis, t, s, s1, b, newTip, t[f].height);
      TracedThen(p.genesis, s, s1, s2, moves, places);
    }
    ops := moves + places;
    ReorgDone(p, t, s, s1, s2, b, newTip, plan);
    if AccOk(p, t, s, b.bestBlock, t[b.validationIndex].height, blocks, acc) {
      ReorgAccDone(p, t, s, s2, b, newTip, plan, blocks, acc);
    }
    r := Ok((s2, Moved(b, newTip.hash, plan), plan.acc));
  }

  // ---------- choosing between branches ----------

  function RemoveFirst(tips: seq<BlockHash>, x: BlockHash): seq<BlockHash> {
    if tips == [] then [] else if tips[0] == x then tips[1..] else [tips[0]] + RemoveFirst(tips[1..], x)
  }

  /** A branch tip replaces its parent among the known tips. */
  function PushAltTip(tips: seq<BlockHash>, tip: Header): seq<BlockHash> {
    RemoveFirst(tips, tip.prev) + [tip.hash]
  }

  ghost predicate FirstAt(tips: seq<BlockHash>, x: BlockHash, i: nat) {
    i < |tips| && tips[i] == x && x !in tips[..i]
  }

  /** The tip is last, the first entry of its parent has left, if there was one, and all others keep their order. */
  ghost predicate TipRecorded(tips: seq<BlockHash>, tip: Header, tips': seq<BlockHash>) {
    if tip.prev in tips
    then exists i: nat :: FirstAt(tips, tip.prev, i) && tips' == tips[..i] + tips[i + 1..] + [tip.hash]
    else tips' == tips + [tip.hash]
  }

  lemma {:induction false} RemoveNothing(tips: seq<BlockHash>, x: BlockHash)
    requires x !in tips
    ensures RemoveFirst(tips, x) == tips
  {
    if tips != [] {
      RemoveNothing(tips[1..], x);
    }
  }

  lemma {:induction false} RemoveAt(tips: seq<BlockHash>, x: BlockHash, i: nat)
    requires FirstAt(tips, x, i)
    ensures RemoveFirst(tips, x) == tips[..i] + tips[i + 1..]
    decreases i
  {
    if i > 0 {
      var rest := tips[1..];
      assert tips[0] in tips[..i] && rest[..i - 1] == tips[..i][1..];
      RemoveAt(rest, x, i - 1);
      assert rest[i..] == tips[i + 1..] && [tips[0]] + rest[..i - 1] == tips[..i];
    }
  }

  lemma {:induction false} FindFirst(tips: seq<BlockHash>, x: BlockHash, n: nat) returns (i: nat)
    requires n <= |tips| && x !in tips[..n] && x in tips
    ensures FirstAt(tips, x, i)
    decreases |tips| - n
  {
    if tips[n] == x {
      i := n;
    } else {
      assert tips[..n + 1] == tips[..n] + [tips[n]];
      i := FindFirst(tips, x, n + 1);
    }
  }

  lemma PushedIsRecorded(tips: seq<BlockHash>, tip: Header)
    ensures TipRecorded(tips, tip, PushAltTip(tips, tip))
  {
    if tip.prev in tips {
      var i := FindFirst(tips, tip.prev, 0);
      RemoveAt(tips, tip.prev, i);
    } else {
      RemoveNothing(tips, tip.prev);
    }
  }

  /** No period's work on the way to `x` exceeds 256 bits. */
  ghost predicate WorkFits(p: Params, t: Tree, x: BlockHash) {
    TreeOk(p.genesis, t) && x in t && NoOverflowBelow(p, t, x, t[x].height + 1)
  }

  lemma {:induction false} TimesGrows(w: nat, k: nat, n: nat)
    requires k <= n
    ensures Times(w, k) <= Times(w, n)
  {
    if k < n {
      TimesGrows(w, k, n - 1);
    }
  }

  /** If the work of a chain fits, so does that of every block on it. */
  lemma FitsBelow(p: Params, t: Tree, tip: BlockHash, x: BlockHash)
    requires WorkFits(p, t, tip) && OnChain(p.genesis, t, tip, x)
    ensures WorkFits(p, t, x)
  {
    forall e: nat | RetargetHeight(e) && e <= t[x].height
      ensures EpochProduct(p, t, x, e) < WORK_LIMIT
    {
      OnChainDown(p.genesis, t, tip, x, e);
      TimesGrows(p.work(t[Anc(p.genesis, t, x, e)].header.bits), EpochCount(e, t[x].height),
                 EpochCount(e, t[tip].height));
      assert EpochProduct(p, t, tip, e) < WORK_LIMIT;
    }
  }

  /** A branch with a fork point passes the check of its ancestors. */
  lemma ForkedBranchOk(g: Header, t: Tree, s: Store, b: BestChain, tip: Header)
    requires Branching(g, t, s, b, tip) && HasForkPoint(g, t, s.headers, tip.hash)
    ensures forall k: nat :: k < t[tip.hash].height ==>
              Anc(g, t, tip.hash, k) in s.headers && !s.headers[Anc(g, t, tip.hash, k)].Orphan?
  {
    var n: nat :| 1 <= n < t[tip.hash].height && Anc(g, t, tip.hash, n) in s.headers &&
                  s.headers[Anc(g, t, tip.hash, n)].MainChain() && ForksAbove(g, t, s.headers, tip.hash, n);
    var f := Anc(g, t, tip.hash, n);
    ForkPointFound(g, t, s, b, tip, f);
    forall k: nat | k < t[tip.hash].height
      ensures Anc(g, t, tip.hash, k) in s.headers && !s.headers[Anc(g, t, tip.hash, k)].Orphan?
    {
      LastValidExists(g, t, s, b, tip, f, k);
    }
  }

  /** The works of the current tip and of a branch, as the node computes them. */
  method CompareWork(p: Params, s: Store, b: BestChain, branchTip: Header, forkPoint: Header, ghost t: Tree)
    returns (r: Result<bool, Error>)
    requires Branching(p.genesis, t, s, b, branchTip) && branchTip.prev in s.headers && forkPoint.hash in t
    requires IsForkPoint(p.genesis, t, s.headers, b.bestBlock, branchTip.hash, forkPoint.hash)
    ensures r.Ok? && SameWorkBelow(p, t, b.bestBlock) ==>
              (r.value <==> CumWork(p.genesis, p.work, t, branchTip.hash) > CumWork(p.genesis, p.work, t, b.bestBlock))
    ensures r.Ok? ==>
              (r.value <==> ShortcutWork(p, t, forkPoint.hash, 0) + CumWork(p.genesis, p.work, t, branchTip.hash) >
                            ShortcutWork(p, t, b.bestBlock, 0) + CumWork(p.genesis, p.work, t, forkPoint.hash))
    ensures r.Err? ==> r.error == ChainWorkOverflow
    ensures r.Ok? <==> WorkFits(p, t, b.bestBlock)
  {
    StoredNode(p.genesis, t, s.headers, b.bestBlock);
    StateBelow(p.genesis, t, s, b, branchTip, forkPoint.hash, t[forkPoint.hash].height);
    assert StateAt(p.genesis, t, b.bestBlock, t[b.validationIndex].height, b.bestBlock, s.headers[b.bestBlock]);
    var currentWork := GetBranchWork(p, s, s.headers[b.bestBlock].header, t, b.bestBlock);
    var newWork := GetForkWork(p, s, branchTip, forkPoint.hash, t, b.bestBlock);
    if WorkFits(p, t, b.bestBlock) {
      FitsBelow(p, t, b.bestBlock, forkPoint.hash);
    }
    if SameWorkBelow(p, t, b.bestBlock) {
      ShortcutExactly(p, t, b.bestBlock);
      ExactOnChain(p, t, b.bestBlock, b.bestBlock);
      ExactOnChain(p, t, b.bestBlock, forkPoint.hash);
    }
    r := if currentWork.Err? || newWork.Err? then Err(ChainWorkOverflow) else Ok(newWork.value > currentWork.value);
  }

  /** The error for a branch that is refused: it leaves the chain nowhere above genesis, some work exceeds 256 bits, or
      the accumulator to return to is not saved. */
  ghost function BranchFault(p: Params, t: Tree, s: Store, b: BestChain, branchTip: Header): Error
    requires TreeOk(p.genesis, t) && b.bestBlock in t && branchTip.hash in t
  {
    if !HasForkPoint(p.genesis, t, s.headers, branchTip.hash) then InvalidTip
    else if !WorkFits(p, t, b.bestBlock) then ChainWorkOverflow
    else BadValidationIndex
  }

  /** Whether a branch has more work than the active chain; an error if it leaves the chain nowhere above genesis. */
  method BranchWins(p: Params, s: Store, b: BestChain, branchTip: Header, ghost t: Tree)
    returns (r: Result<bool, Error>)
    requires Branching(p.genesis, t, s, b, branchTip) && branchTip.prev in s.headers
    ensures r.Ok? <==> HasForkPoint(p.genesis, t, s.headers, branchTip.hash) && WorkFits(p, t, b.bestBlock)
    ensures r.Err? ==> r.error == BranchFault(p, t, s, b, branchTip)
    ensures r.Ok? && SameWorkBelow(p, t, b.bestBlock) ==>
              (r.value <==> CumWork(p.genesis, p.work, t, branchTip.hash) > CumWork(p.genesis, p.work, t, b.bestBlock))
  {
    if HasForkPoint(p.genesis, t, s.headers, branchTip.hash) {
      ForkedBranchOk(p.genesis, t, s, b, branchTip);
    }
    var checked := CheckBranch(p.genesis, s.headers, branchTip, t);
    if checked.Err? {
      return Err(checked.error);
    }
    var forkPoint := FindForkPoint(p.genesis, s.headers, branchTip, t);
    if forkPoint.Err? {
      return Err(forkPoint.error);
    }
    ForkPointFound(p.genesis, t, s, b, branchTip, forkPoint.value.hash);
    r := CompareWork(p, s, b, branchTip, forkPoint.value, t);
  }

  /** A header that does not extend the tip: it either moves the node to its branch, or is stored as a
      fork, or is refused. `moved` tells the first two apart. */
  method MaybeReorg(p: Params, s: Store, b: BestChain, acc: Stump, branchTip: Header, ghost t: Tree,
                    ghost blocks: Blocks)
    returns (r: Result<(Store, BestChain, Stump), Error>, ghost moved: bool, ghost f: BlockHash, ops: seq<Op>)
    requires Branching(p.genesis, t, s, b, branchTip) && branchTip.hash !in s.headers
    requires branchTip.prev in s.headers && s.headers[branchTip.prev].Height().Some?
    ensures r.Ok? ==> HasForkPoint(p.genesis, t, s.headers, branchTip.hash) && WorkFits(p, t, b.bestBlock)
    ensures r.Ok? && moved ==> Reorged(p.genesis, t, s, b, branchTip.hash, f, r.value.0, r.value.1)
    ensures r.Ok? && moved && AccOk(p, t, s, b.bestBlock, t[b.validationIndex].height, blocks, acc) ==>
              AccMatches(p, t, r.value.0, r.value.1, blocks, r.value.2)
    ensures r.Ok? && !moved ==>
              r.value == (s.SaveHeader(InFork(branchTip, t[branchTip.hash].height)),
                          b.(alternativeTips := PushAltTip(b.alternativeTips, branchTip)), acc)
    ensures r.Ok? && SameWorkBelow(p, t, b.bestBlock) ==>
              (moved <==> CumWork(p.genesis, p.work, t, branchTip.hash) > CumWork(p.genesis, p.work, t, b.bestBlock))
    ensures r.Err? ==> r.error == BranchFault(p, t, s, b, branchTip)
    ensures r.Err? && HasForkPoint(p.genesis, t, s.headers, branchTip.hash) && WorkFits(p, t, b.bestBlock) ==>
              moved && forall x :: !CanReorg(p.genesis, t, s, b, branchTip.hash, x)
    ensures moved && SameWorkBelow(p, t, b.bestBlock) ==>
              CumWork(p.genesis, p.work, t, branchTip.hash) > CumWork(p.genesis, p.work, t, b.bestBlock)
    // with all accumulators kept nothing else stands in the way
    ensures RootsKept(s, t[b.validationIndex].height) ==>
              (r.Ok? <==> HasForkPoint(p.genesis, t, s.headers, branchTip.hash) && WorkFits(p, t, b.bestBlock))
    ensures r.Ok? && SlotsStored(s) ==> Traced(p.genesis, s, r.value.0, ops)
  {
    moved, f, ops := false, branchTip.hash, [];
    var more := BranchWins(p, s, b, branchTip, t);
    if more.Err? {
      return Err(more.error), moved, f, ops;
    }
    if more.value {
      moved := true;
      if RootsKept(s, t[b.validationIndex].height) {
        ReorgPossible(p.genesis, t, s, b, branchTip);
      }
      r, f, ops := ReorgTo(p, s, b, branchTip, t, blocks, acc);
      return;
    }
    StepBack(p.genesis, t, s.headers, branchTip, branchTip);
    StoredNode(p.genesis, t, s.headers, branchTip.prev);
    var parentHeight := s.headers[branchTip.prev].height;
    ops := [Move(InFork(branchTip, parentHeight + 1))];
    TracedOne(p.genesis, s, Move(InFork(branchTip, parentHeight + 1)));
    r := Ok((s.SaveHeader(InFork(branchTip, parentHeight + 1)),
             b.(alternativeTips := PushAltTip(b.alternativeTips, branchTip)), acc));
  }
}
