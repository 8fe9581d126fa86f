/**
  Facts about a branch that leaves the active chain: its fork point, the
  validated block it shares with the chain, and what its headers keep.
 */
module ForkChoice {
  import opened Prelude
  import opened ChainTypes
  import opened BlockTree
  import opened ChainInvariants
  import opened ChainWalks

  ghost predicate BitsAt(p: Params, t: Tree, x: BlockHash) {
    x in t ==> p.compact(p.target(t[x].header.bits)) == t[x].header.bits
  }

  /** Bits of accepted headers are canonical and, without minimum-difficulty
      blocks, constant within a retarget period. */
  ghost predicate BitsOk(p: Params, t: Tree)
    requires TreeOk(p.genesis, t)
  {
    && (forall x {:trigger BitsAt(p, t, x)} :: BitsAt(p, t, x))
    && (!p.allowMinDifficulty ==> EpochBits(p.genesis, t))
  }

  lemma BitsExtend(p: Params, t: Tree, h: Header, prev: DiskBlockHeader)
    requires TreeOk(p.genesis, t) && BitsOk(p, t)
    requires h.prev in t && h.hash !in t && TreeOk(p.genesis, Extend(t, h))
    requires prev.Height().Some? && prev.header == t[h.prev].header && prev.height == t[h.prev].height
    requires HeaderChecked(p, prev, h)
    ensures BitsOk(p, Extend(t, h))
  {
    var t' := Extend(t, h);
    assert BitsAt(p, t, h.prev);
    forall x
      ensures BitsAt(p, t', x)
    {
      assert BitsAt(p, t, x);
    }
    if !p.allowMinDifficulty {
      forall x | x in t' && !RetargetHeight(t'[x].height)
        ensures t'[x].header.bits == t'[Parent(t', x)].header.bits
      {
        if x != h.hash {
          assert Parent(t', x) == Parent(t, x);
          RootIsRetarget(p.genesis, t, x);
        }
      }
    }
  }

  lemma RootIsRetarget(g: Header, t: Tree, x: BlockHash)
    requires TreeOk(g, t) && x in t && !RetargetHeight(t[x].height)
    ensures x != g.hash
  {
  }

  /** The store describes the chain recorded in `b`, inside the tree `t`. The
      header `tip` is a node of `t` that may not have been stored yet. */
  ghost predicate Branching(g: Header, t: Tree, s: Store, b: BestChain, tip: Header) {
    match Get(t, b.validationIndex)
    case None => false
    case Some(validated) =>
      && Known(g, t, s.headers, tip)
      && s.headers.Keys + {tip.hash} == t.Keys
      && b.bestBlock in s.headers && b.validationIndex in s.headers
      && b.depth == t[b.bestBlock].height
      && OnChain(g, t, b.bestBlock, b.validationIndex)
      && PartialStatus(g, t, s.headers, b.bestBlock, validated.height)
      && SlotsOk(g, t, s, b.bestBlock)
  }

  /** The recorded chain is the one the store describes. */
  ghost predicate Coherent(g: Header, t: Tree, s: Store, b: BestChain) {
    match Get(t, b.validationIndex)
    case None => false
    case Some(validated) =>
      && TreeOk(g, t)
      && b.bestBlock in t
      && b.depth == t[b.bestBlock].height
      && OnChain(g, t, b.bestBlock, b.validationIndex)
      && StoreOk(g, t, s, b.bestBlock, validated.height)
  }

  /** The accumulator belongs to the validated block of the recorded chain. */
  ghost predicate AccMatches(p: Params, t: Tree, s: Store, b: BestChain, blocks: Blocks, acc: Stump) {
    match Get(t, b.validationIndex)
    case None => false
    case Some(validated) =>
      && Coherent(p.genesis, t, s, b)
      && AccOk(p, t, s, b.bestBlock, validated.height, blocks, acc)
  }

  /** No pending header lies above the recorded tip. */
  lemma PendingBelowTip(g: Header, t: Tree, s: Store, b: BestChain, x: BlockHash)
    requires Coherent(g, t, s, b) && x in s.headers
    ensures s.headers[x].HeadersOnly? ==> s.headers[x].height <= b.depth
  {
    assert StateAt(g, t, b.bestBlock, t[b.validationIndex].height, x, s.headers[x]);
  }

  lemma BranchingStored(g: Header, t: Tree, s: Store, b: BestChain, tip: Header)
    requires Coherent(g, t, s, b) && tip.hash in t && t[tip.hash].header == tip
    ensures Branching(g, t, s, b, tip)
  {
    StatusBacked(g, t, s.headers, b.bestBlock, t[b.validationIndex].height);
  }

  lemma BackedExtend(g: Header, t: Tree, hs: Headers, h: Header)
    requires TreeOk(g, t) && Backed(g, t, hs)
    requires h.prev in t && h.hash !in t && TreeOk(g, Extend(t, h))
    ensures Backed(g, Extend(t, h), hs)
  {
    var t' := Extend(t, h);
    forall x
      ensures BackedAt(g, t', hs, x)
    {
      assert BackedAt(g, t, hs, x);
      assert x in hs ==> Parent(t', x) == Parent(t, x);
    }
  }

  lemma PartialExtend(g: Header, t: Tree, hs: Headers, tip: BlockHash, vi: nat, h: Header)
    requires TreeOk(g, t) && tip in t && PartialStatus(g, t, hs, tip, vi)
    requires h.prev in t && h.hash !in t && h.hash !in hs && TreeOk(g, Extend(t, h))
    ensures PartialStatus(g, Extend(t, h), hs, tip, vi)
  {
    forall x | x in hs
      ensures StateAt(g, Extend(t, h), tip, vi, x, hs[x])
    {
      ExtendOnChain(g, t, h, tip, x);
      assert StateAt(g, t, tip, vi, x, hs[x]);
    }
  }

  lemma SlotsUnder(g: Header, t: Tree, s: Store, tip: BlockHash, h: Header)
    requires TreeOk(g, t) && tip in t && SlotsOk(g, t, s, tip)
    requires h.prev in t && h.hash !in t && TreeOk(g, Extend(t, h))
    ensures SlotsOk(g, Extend(t, h), s, tip)
  {
    forall n: nat
      ensures SlotSound(Extend(t, h), s, n) && SlotAt(g, Extend(t, h), s, tip, n)
    {
      assert SlotSound(t, s, n) && SlotAt(g, t, s, tip, n);
      if n <= t[tip].height {
        ExtendAnc(g, t, h, tip, n);
      }
    }
  }

  lemma BranchingNew(g: Header, t: Tree, s: Store, b: BestChain, h: Header)
    requires Coherent(g, t, s, b)
    requires h.prev in t && h.hash !in t && h.hash != g.prev
    ensures TreeOk(g, Extend(t, h)) && Branching(g, Extend(t, h), s, b, h)
  {
    ExtendOk(g, t, h);
    StatusBacked(g, t, s.headers, b.bestBlock, t[b.validationIndex].height);
    BackedExtend(g, t, s.headers, h);
    PartialExtend(g, t, s.headers, b.bestBlock, t[b.validationIndex].height, h);
    SlotsUnder(g, t, s, b.bestBlock, h);
    ExtendOnChain(g, t, h, b.bestBlock, b.validationIndex);
  }

  /** A header found by `FindForkPoint` is where the branch leaves the active chain. */
  lemma ForkPointFound(g: Header, t: Tree, s: Store, b: BestChain, tip: Header, f: BlockHash)
    requires Branching(g, t, s, b, tip)
    requires f in s.headers && s.headers[f].MainChain()
    requires t[f].height < t[tip.hash].height && OnChain(g, t, tip.hash, f)
    requires ForksAbove(g, t, s.headers, tip.hash, t[f].height)
    ensures IsForkPoint(g, t, s.headers, b.bestBlock, tip.hash, f)
  {
    assert StateAt(g, t, b.bestBlock, t[b.validationIndex].height, f, s.headers[f]);
    forall k: nat | t[f].height < k < t[tip.hash].height
      ensures !OnChain(g, t, b.bestBlock, Anc(g, t, tip.hash, k))
    {
      var a := Anc(g, t, tip.hash, k);
      assert a in s.headers && s.headers[a].InFork?;
      assert StateAt(g, t, b.bestBlock, t[b.validationIndex].height, a, s.headers[a]);
    }
  }

  /** At and below the fork point, the branch has the states of the active chain. */
  lemma StateBelow(g: Header, t: Tree, s: Store, b: BestChain, tip: Header, f: BlockHash, n: nat)
    requires Branching(g, t, s, b, tip) && IsForkPoint(g, t, s.headers, b.bestBlock, tip.hash, f)
    requires n <= t[f].height
    ensures var a := Anc(g, t, tip.hash, n);
            a == Anc(g, t, b.bestBlock, n) && a in s.headers &&
            s.headers[a] == ActiveState(t[a], t[b.validationIndex].height)
  {
    SharedBelow(g, t, b.bestBlock, tip.hash, f, n);
    AncestorStored(g, t, s.headers, b.bestBlock, n);
    var a := Anc(g, t, b.bestBlock, n);
    assert StateAt(g, t, b.bestBlock, t[b.validationIndex].height, a, s.headers[a]);
  }

  /** The branch is validated up to the lower of fork point and validation index. */
  lemma {:induction false} LastValidFound(g: Header, t: Tree, s: Store, b: BestChain, tip: Header, f: BlockHash,
                                          v: BlockHash)
    requires Branching(g, t, s, b, tip) && IsForkPoint(g, t, s.headers, b.bestBlock, tip.hash, f)
    requires v in s.headers && (v == g.hash || s.headers[v].FullyValid? || s.headers[v].AssumedValid?)
    requires t[v].height < t[tip.hash].height && OnChain(g, t, tip.hash, v)
    requires PendingAbove(g, t, s.headers, tip.hash, t[v].height)
    ensures t[v].height == Min(t[b.validationIndex].height, t[f].height)
    ensures v == Anc(g, t, tip.hash, t[v].height)
  {
    var vi := t[b.validationIndex].height;
    var m := Min(vi, t[f].height);
    assert v == Anc(g, t, tip.hash, t[v].height);
    StateBelow(g, t, s, b, tip, f, t[v].height);
    StateBelow(g, t, s, b, tip, f, m);
  }

  /** Nothing on such a branch is invalid, so the last validated block is always found. */
  lemma LastValidExists(g: Header, t: Tree, s: Store, b: BestChain, tip: Header, f: BlockHash, n: nat)
    requires Branching(g, t, s, b, tip) && IsForkPoint(g, t, s.headers, b.bestBlock, tip.hash, f)
    requires n < t[tip.hash].height
    ensures var a := Anc(g, t, tip.hash, n); a in s.headers && !s.headers[a].Orphan? && !s.headers[a].InvalidChain?
  {
    if n <= t[f].height {
      StateBelow(g, t, s, b, tip, f, n);
    }
  }

  /** A branch has one fork point. */
  lemma {:induction false} ForkPointUnique(g: Header, t: Tree, hs: Headers, tip: BlockHash, tip': BlockHash,
                                           f: BlockHash, f': BlockHash)
    requires TreeOk(g, t) && tip in t && tip' in t
    requires IsForkPoint(g, t, hs, tip, tip', f) && IsForkPoint(g, t, hs, tip, tip', f')
    ensures f == f'
  {
    assert f == Anc(g, t, tip', t[f].height);
    assert f' == Anc(g, t, tip', t[f'].height);
  }

  /** The accumulator of the block at height `n` of the active chain, if it is known. */
  function RootsFor(s: Store, n: nat): Option<Stump> {
    if n == 0 then Some(EMPTY_STUMP) else s.LoadRoots(n)
  }

  /** The branch of `tip` can become the active one: it leaves the chain above genesis and the
      accumulator of the last validated block they share is known. */
  ghost predicate CanReorg(g: Header, t: Tree, s: Store, b: BestChain, tip: BlockHash, f: BlockHash) {
    match Get(t, b.validationIndex)
    case None => false
    case Some(validated) =>
      && TreeOk(g, t) && b.bestBlock in t && tip in t
      && IsForkPoint(g, t, s.headers, b.bestBlock, tip, f)
      && 1 <= t[f].height
      && RootsFor(s, Min(validated.height, t[f].height)).Some?
  }

  /** What a reorganisation works out before it changes anything. */
  datatype Plan = Plan(forkPoint: Header, validationIndex: BlockHash, depth: nat, acc: Stump)

  ghost predicate PlanOk(g: Header, t: Tree, s: Store, b: BestChain, tip: BlockHash, plan: Plan)
    requires TreeOk(g, t) && b.bestBlock in t && b.validationIndex in t && tip in t
  {
    && plan.forkPoint.hash in t
    && CanReorg(g, t, s, b, tip, plan.forkPoint.hash)
    && plan.depth == t[tip].height
    && var v := Min(t[b.validationIndex].height, t[plan.forkPoint.hash].height);
       plan.validationIndex == Anc(g, t, tip, v) && RootsFor(s, v) == Some(plan.acc)
  }

  lemma ForkPointActive(g: Header, t: Tree, s: Store, b: BestChain, tip: Header, f: BlockHash)
    requires Branching(g, t, s, b, tip) && IsForkPoint(g, t, s.headers, b.bestBlock, tip.hash, f)
    requires 1 <= t[f].height
    ensures HasForkPoint(g, t, s.headers, tip.hash)
  {
    StateBelow(g, t, s, b, tip, f, t[f].height);
    assert ForksAbove(g, t, s.headers, tip.hash, t[f].height);
    assert f == Anc(g, t, tip.hash, t[f].height);
  }

  lemma NoReorg(g: Header, t: Tree, s: Store, b: BestChain, tip: Header)
    requires Branching(g, t, s, b, tip)
    ensures HasForkPoint(g, t, s.headers, tip.hash) || forall f :: !CanReorg(g, t, s, b, tip.hash, f)
  {
    if f :| CanReorg(g, t, s, b, tip.hash, f) {
      ForkPointActive(g, t, s, b, tip, f);
    }
  }

  /** Every validated height above genesis has its accumulator saved. */
  ghost predicate RootsKept(s: Store, vi: nat) {
    forall n: nat {:trigger s.LoadRoots(n)} :: 1 <= n <= vi ==> s.LoadRoots(n).Some?
  }

  /** Then a branch that leaves the chain above genesis can always become the active one. */
  lemma ReorgPossible(g: Header, t: Tree, s: Store, b: BestChain, tip: Header)
    requires Branching(g, t, s, b, tip) && HasForkPoint(g, t, s.headers, tip.hash)
    requires RootsKept(s, t[b.validationIndex].height)
    ensures exists f :: CanReorg(g, t, s, b, tip.hash, f)
  {
    var n: nat :| 1 <= n < t[tip.hash].height && Anc(g, t, tip.hash, n) in s.headers &&
                  s.headers[Anc(g, t, tip.hash, n)].MainChain() && ForksAbove(g, t, s.headers, tip.hash, n);
    var f := Anc(g, t, tip.hash, n);
    ForkPointFound(g, t, s, b, tip, f);
    assert CanReorg(g, t, s, b, tip.hash, f);
  }

  /** The stored branch of `tip` can become the active one if and only if it has a fork point. */
  lemma SwitchDecides(g: Header, t: Tree, s: Store, b: BestChain, tip: Header)
    requires Branching(g, t, s, b, tip)
    ensures RootsKept(s, t[b.validationIndex].height) ==>
              (HasForkPoint(g, t, s.headers, tip.hash) <==> exists f :: CanReorg(g, t, s, b, tip.hash, f))
  {
    NoReorg(g, t, s, b, tip);
    if RootsKept(s, t[b.validationIndex].height) && HasForkPoint(g, t, s.headers, tip.hash) {
      ReorgPossible(g, t, s, b, tip);
    }
  }

  lemma BestOnSharedHeights(g: Header, t: Tree, s: Store, b: BestChain, tip: Header, f: BlockHash, v: BlockHash)
    requires Branching(g, t, s, b, tip) && IsForkPoint(g, t, s.headers, b.bestBlock, tip.hash, f)
    requires v in s.headers && t[v].height <= t[f].height && v == Anc(g, t, tip.hash, t[v].height)
    ensures s.headers[v].Height() == Some(t[v].height)
  {
    StateBelow(g, t, s, b, tip, f, t[v].height);
  }

  /** The error of a reorganisation that cannot be carried out: the parent is not stored, the branch leaves the chain
      nowhere above genesis, or the accumulator to return to is not saved. */
  ghost function ReorgFault(g: Header, t: Tree, s: Store, tip: Header): Error
    requires TreeOk(g, t) && tip.hash in t
  {
    if tip.prev !in s.headers then BlockNotPresent
    else if !HasForkPoint(g, t, s.headers, tip.hash) then InvalidTip
    else BadValidationIndex
  }

  /** Fork point, last validated block, depth and accumulator of a reorganisation, or an error
      exactly when it is impossible. */
  method PlanReorg(g: Header, s: Store, b: BestChain, newTip: Header, ghost t: Tree) returns (r: Result<Plan, Error>)
    requires Branching(g, t, s, b, newTip)
    ensures r.Ok? ==> PlanOk(g, t, s, b, newTip.hash, r.value)
    ensures r.Err? ==> forall f :: !CanReorg(g, t, s, b, newTip.hash, f)
    ensures r.Err? ==> r.error == ReorgFault(g, t, s, newTip)
  {
    var fork := FindForkPoint(g, s.headers, newTip, t);
    if fork.Err? {
      NoReorg(g, t, s, b, newTip);
      return Err(fork.error);
    }
    ghost var f := fork.value.hash;
    ForkPointFound(g, t, s, b, newTip, f);
    r := PlanFrom(g, s, b, newTip, fork.value, t);
    forall f' | IsForkPoint(g, t, s.headers, b.bestBlock, newTip.hash, f')
      ensures f' == f
    {
      ForkPointUnique(g, t, s.headers, b.bestBlock, newTip.hash, f, f');
    }
  }

  method PlanFrom(g: Header, s: Store, b: BestChain, newTip: Header, fork: Header, ghost t: Tree)
    returns (r: Result<Plan, Error>)
    requires Branching(g, t, s, b, newTip) && fork.hash in t
    requires IsForkPoint(g, t, s.headers, b.bestBlock, newTip.hash, fork.hash) && 1 <= t[fork.hash].height
    ensures r.Ok? ==> r.value.forkPoint == fork && PlanOk(g, t, s, b, newTip.hash, r.value)
    ensures r.Err? ==> !CanReorg(g, t, s, b, newTip.hash, fork.hash) && r.error == BadValidationIndex
  {
    LastValidExists(g, t, s, b, newTip, fork.hash, t[newTip.hash].height - 1);
    AncLinked(g, t, newTip.hash, t[newTip.hash].height);
    var last := GetLastValidBlock(g, s.headers, newTip, t);
    forall n: nat | n < t[newTip.hash].height
      ensures var a := Anc(g, t, newTip.hash, n); a in s.headers && !s.headers[a].Orphan? && !s.headers[a].InvalidChain?
    {
      LastValidExists(g, t, s, b, newTip, fork.hash, n);
    }
    LastValidFound(g, t, s, b, newTip, fork.hash, last.value);
    BestOnSharedHeights(g, t, s, b, newTip, fork.hash, last.value);
    var depth := GetChainDepth(g, s.headers, newTip, t);
    var acc := RootsFor(s, s.headers[last.value].height);
    match acc {
      case Some(a) => return Ok(Plan(fork, last.value, depth.value, a));
      case None => return Err(BadValidationIndex);
    }
  }
}
