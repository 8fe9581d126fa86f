/** Accepting one header: the three ways it can change the chain, and which one it takes. */
module Accepting {
  import opened Prelude
  import opened ChainTypes
  import opened BlockTree
  import opened ChainInvariants
  import opened ChainWalks
  import opened ForkChoice
  import opened Marking
  import opened StoreOps
  import opened WorkShortcut

  lemma CoherentFork(g: Header, t: Tree, s: Store, b: BestChain, h: Header, tips: seq<BlockHash>)
    requires Coherent(g, t, s, b) && h.prev in t && h.hash !in t && h.hash != g.prev
    ensures Coherent(g, Extend(t, h), s.SaveHeader(InFork(h, t[h.prev].height + 1)), b.(alternativeTips := tips))
  {
    AddForkStep(g, t, s, b.bestBlock, t[b.validationIndex].height, h);
    ExtendOnChain(g, t, h, b.bestBlock, b.validationIndex);
  }

  lemma CoherentTip(g: Header, t: Tree, s: Store, b: BestChain, h: Header)
    requires Coherent(g, t, s, b) && h.prev == b.bestBlock && h.hash !in t && h.hash != g.prev
    ensures Coherent(g, Extend(t, h), Saved(s, HeadersOnly(h, b.depth + 1)),
                     b.(bestBlock := h.hash, depth := b.depth + 1))
  {
    ExtendTipStep(g, t, s, t[b.validationIndex].height, h);
    OnChainAfterTip(g, t, h, b.validationIndex);
  }

  lemma AccFork(p: Params, t: Tree, s: Store, b: BestChain, h: Header, tips: seq<BlockHash>, blocks: Blocks, acc: Stump)
    requires AccMatches(p, t, s, b, blocks, acc) && h.prev in t && h.hash !in t && h.hash != p.genesis.prev
    requires Coherent(p.genesis, Extend(t, h), s.SaveHeader(InFork(h, t[h.prev].height + 1)),
                      b.(alternativeTips := tips))
    ensures AccMatches(p, Extend(t, h), s.SaveHeader(InFork(h, t[h.prev].height + 1)), b.(alternativeTips := tips),
                       blocks, acc)
  {
    AccAfterExtend(p, t, s, b.bestBlock, t[b.validationIndex].height, blocks, acc, h,
                   s.SaveHeader(InFork(h, t[h.prev].height + 1)), b.bestBlock);
  }

  lemma AccTip(p: Params, t: Tree, s: Store, b: BestChain, h: Header, s': Store, b': BestChain, blocks: Blocks,
               acc: Stump)
    requires AccMatches(p, t, s, b, blocks, acc) && h.prev == b.bestBlock && h.hash !in t
    requires s' == Saved(s, HeadersOnly(h, b.depth + 1)) && b' == b.(bestBlock := h.hash, depth := b.depth + 1)
    requires Coherent(p.genesis, Extend(t, h), s', b')
    ensures AccMatches(p, Extend(t, h), s', b', blocks, acc)
  {
    SavedIs(s, HeadersOnly(h, b.depth + 1));
    AccAfterExtend(p, t, s, b.bestBlock, t[b.validationIndex].height, blocks, acc, h, s', h.hash);
  }

  /** The old accumulator, seen from the tree that already holds the new header. */
  lemma AccUnder(p: Params, t: Tree, s: Store, b: BestChain, h: Header, blocks: Blocks, acc: Stump)
    requires AccMatches(p, t, s, b, blocks, acc) && h.prev in t && h.hash !in t && TreeOk(p.genesis, Extend(t, h))
    ensures AccOk(p, Extend(t, h), s, b.bestBlock, t[b.validationIndex].height, blocks, acc)
  {
    AccAfterExtend(p, t, s, b.bestBlock, t[b.validationIndex].height, blocks, acc, h, s, b.bestBlock);
  }

  lemma ExtendsTipWins(g: Header, work: nat -> nat, t: Tree, h: Header)
    requires TreeOk(g, t) && h.prev in t && h.hash !in t && TreeOk(g, Extend(t, h))
    ensures CumWork(g, work, Extend(t, h), h.hash) == work(h.bits) + CumWork(g, work, t, h.prev)
  {
    assert Parent(Extend(t, h), h.hash) == h.prev;
    ExtendWork(g, work, t, h, h.prev);
  }

  /** The only active strict ancestor of `x` is genesis. */
  ghost predicate LeavesAtGenesis(g: Header, t: Tree, hs: Headers, x: BlockHash) {
    && TreeOk(g, t) && x in t
    && forall n: nat :: 1 <= n < t[x].height && Anc(g, t, x, n) in hs ==> !hs[Anc(g, t, x, n)].MainChain()
  }

  /** The new header became the tip because it extends the old one, or because its branch has more work. */
  ghost predicate TipChoice(p: Params, t: Tree, b: BestChain, h: Header, b': BestChain)
    requires TreeOk(p.genesis, t) && b.bestBlock in t && h.hash in t
  {
    b'.bestBlock ==
      if h.prev == b.bestBlock || CumWork(p.genesis, p.work, t, h.hash) > CumWork(p.genesis, p.work, t, b.bestBlock)
      then h.hash else b.bestBlock
  }

  /** No header of the tree has more cumulative work than `tip`. */
  ghost predicate MostWorkTip(p: Params, t: Tree, tip: BlockHash)
    requires TreeOk(p.genesis, t) && tip in t
  {
    forall x {:trigger CumWork(p.genesis, p.work, t, x)} :: x in t ==>
      CumWork(p.genesis, p.work, t, x) <= CumWork(p.genesis, p.work, t, tip)
  }

  /** Choosing the tip by work never lowers its work, and keeps it the highest. */
  lemma TipChoiceKeeps(p: Params, t: Tree, b: BestChain, h: Header, b': BestChain)
    requires TreeOk(p.genesis, t) && b.bestBlock in t && h.prev in t && h.hash !in t && TreeOk(p.genesis, Extend(t, h))
    requires TipChoice(p, Extend(t, h), b, h, b')
    ensures CumWork(p.genesis, p.work, Extend(t, h), b'.bestBlock) >= CumWork(p.genesis, p.work, t, b.bestBlock)
    ensures MostWorkTip(p, t, b.bestBlock) ==> MostWorkTip(p, Extend(t, h), b'.bestBlock)
  {
    forall x | x in t
      ensures CumWork(p.genesis, p.work, Extend(t, h), x) == CumWork(p.genesis, p.work, t, x)
    {
      ExtendWork(p.genesis, p.work, t, h, x);
    }
    ExtendsTipWins(p.genesis, p.work, t, h);
  }

  /** Why a valid header elsewhere than on the tip is refused: its branch leaves the chain nowhere above genesis, some
      work exceeds 256 bits, or it has more work but the accumulator to go back to is not saved. */
  ghost predicate BranchRefused(p: Params, t: Tree, s: Store, b: BestChain, h: Header)
    requires TreeOk(p.genesis, t) && b.bestBlock in t && h.hash in t
  {
    || !HasForkPoint(p.genesis, t, s.headers, h.hash)
    || !WorkFits(p, t, b.bestBlock)
    || ((SameWorkBelow(p, t, b.bestBlock) ==>
           CumWork(p.genesis, p.work, t, h.hash) > CumWork(p.genesis, p.work, t, b.bestBlock))
        && forall x :: !CanReorg(p.genesis, t, s, b, h.hash, x))
  }

  /** The accumulators of all validated heights of the recorded chain are saved. */
  ghost predicate RootsFull(t: Tree, s: Store, b: BestChain) {
    match Get(t, b.validationIndex)
    case None => false
    case Some(validated) => RootsKept(s, validated.height)
  }

  /** The branch of `h` leaves the chain above genesis, and the work of the chain fits 256 bits. */
  ghost predicate MayBranch(p: Params, t: Tree, s: Store, b: BestChain, h: Header) {
    && TreeOk(p.genesis, t) && h.hash in t
    && HasForkPoint(p.genesis, t, s.headers, h.hash) && WorkFits(p, t, b.bestBlock)
  }

  /** When a header that is not known yet is accepted. */
  ghost predicate Acceptable(p: Params, t: Tree, s: Store, b: BestChain, h: Header) {
    && TreeOk(p.genesis, t) && h.prev in t && HeaderValid(p, t, h)
    && (h.prev == b.bestBlock ||
        (h.prev in s.headers && s.headers[h.prev].Height().Some? && MayBranch(p, Extend(t, h), s, b, h)))
  }

  /** The index leads to whatever ancestor the target of `h` depends on. */
  ghost predicate Decidable(p: Params, t: Tree, s: Store, b: BestChain, h: Header) {
    && TreeOk(p.genesis, t) && b.bestBlock in t
    && (h.prev in t ==> TargetServed(p, t, s, b.bestBlock, h.prev))
  }

  /** The three ways a header can change the chain: it becomes the tip, it is stored as a fork and recorded among the
      alternative tips, or its branch becomes the active one; only the second touches the alternative tips. */
  ghost predicate TookWay(g: Header, t: Tree, s: Store, b: BestChain, acc: Stump, h: Header,
                          s': Store, b': BestChain, acc': Stump)
    requires h.prev in t
  {
    if h.prev == b.bestBlock then
      && b' == b.(bestBlock := h.hash, depth := b.depth + 1) && acc' == acc
      && s' == s.SaveHeader(HeadersOnly(h, b.depth + 1)).UpdateBlockIndex(b.depth + 1, h.hash)
    else if b'.bestBlock == b.bestBlock then
      && TipRecorded(b.alternativeTips, h, b'.alternativeTips)
      && b' == b.(alternativeTips := b'.alternativeTips) && acc' == acc
      && s' == s.SaveHeader(InFork(h, t[h.prev].height + 1))
    else
      exists f :: Reorged(g, Extend(t, h), s, b, h.hash, f, s', b')
  }

  /** `h` has joined the tree and the record describes a coherent chain over it, with the accumulator in agreement and
      all accumulators kept if it was so before. Elsewhere than on the tip, `h` has an active strict ancestor above
      genesis. If every block of the old chain has the work of the first of its period, the tip was chosen by work. */
  ghost predicate Accepted(p: Params, t: Tree, s: Store, b: BestChain, acc: Stump, h: Header, blocks: Blocks,
                           s': Store, b': BestChain, acc': Stump) {
    match Get(t, h.prev)
    case None => false
    case Some(_) =>
      && Coherent(p.genesis, t, s, b)
      && Coherent(p.genesis, Extend(t, h), s', b') && BitsOk(p, Extend(t, h))
      && (AccMatches(p, t, s, b, blocks, acc) ==> AccMatches(p, Extend(t, h), s', b', blocks, acc'))
      && (RootsFull(t, s, b) ==> RootsFull(Extend(t, h), s', b'))
      && TookWay(p.genesis, t, s, b, acc, h, s', b', acc')
      && (h.prev != b.bestBlock ==> HasForkPoint(p.genesis, Extend(t, h), s.headers, h.hash))
      && (SameWorkBelow(p, Extend(t, h), b.bestBlock) ==> TipChoice(p, Extend(t, h), b, h, b'))
  }

  /** On networks without minimum-difficulty blocks the choice by work is always the one made. */
  lemma AcceptedByWork(p: Params, t: Tree, s: Store, b: BestChain, acc: Stump, h: Header, blocks: Blocks,
                       s': Store, b': BestChain, acc': Stump)
    requires Accepted(p, t, s, b, acc, h, blocks, s', b', acc') && h.hash !in t && !p.allowMinDifficulty
    ensures TipChoice(p, Extend(t, h), b, h, b')
    ensures CumWork(p.genesis, p.work, Extend(t, h), b'.bestBlock) >= CumWork(p.genesis, p.work, t, b.bestBlock)
    ensures MostWorkTip(p, t, b.bestBlock) ==> MostWorkTip(p, Extend(t, h), b'.bestBlock)
  {
    BitsSameWork(p, Extend(t, h), b.bestBlock);
    TipChoiceKeeps(p, t, b, h, b');
  }

  /** A branch that leaves the chain at genesis is refused, however long it is and however much work it has. */
  lemma GenesisBranch(p: Params, t: Tree, s: Store, b: BestChain, acc: Stump, h: Header, blocks: Blocks,
                      s': Store, b': BestChain, acc': Stump)
    requires h.prev in t && h.prev != b.bestBlock && LeavesAtGenesis(p.genesis, Extend(t, h), s.headers, h.hash)
    ensures !Accepted(p, t, s, b, acc, h, blocks, s', b', acc')
  {
    if Accepted(p, t, s, b, acc, h, blocks, s', b', acc') {
      var forked := HasForkPoint(p.genesis, Extend(t, h), s.headers, h.hash);
    }
  }

  /** The error a header is refused with: the first check that fails, then what is wrong with its branch. */
  ghost function Refusal(p: Params, t: Tree, s: Store, b: BestChain, h: Header): Error
    requires TreeOk(p.genesis, t) && b.bestBlock in t
  {
    if !p.powOk(h) then NotEnoughPow
    else if h.prev !in s.headers || h.prev !in t then BlockNotPresent
    else if s.headers[h.prev].Height().None? then BlockExtendsAnOrphanChain
    else
      var asked := TargetAsked(p, t, s, b.bestBlock, h.prev, h);
      match FirstFault(p, asked, t[h.prev].height + 1, t[h.prev].header, h)
      case Some(e) => e
      case None => if TreeOk(p.genesis, Extend(t, h)) then BranchFault(p, Extend(t, h), s, b, h) else InvalidTip
  }

  /** Takes a header that is not known yet, or refuses it. */
  method AcceptNew(p: Params, s: Store, b: BestChain, acc: Stump, h: Header, ghost t: Tree, ghost blocks: Blocks)
    returns (r: Result<(Store, BestChain, Stump), Error>, ops: seq<Op>)
    requires p.CompactOk() && Coherent(p.genesis, t, s, b) && BitsOk(p, t)
    requires h.hash !in t && h.hash != p.genesis.prev
    ensures r.Ok? ==> Accepted(p, t, s, b, acc, h, blocks, r.value.0, r.value.1, r.value.2)
    ensures r.Ok? ==> Traced(p.genesis, s, r.value.0, ops)
    ensures r.Err? ==> r.error == Refusal(p, t, s, b, h)
    // on the tip, validity decides
    ensures h.prev == b.bestBlock ==> (r.Ok? <==> HeaderValid(p, t, h))
    // and elsewhere whether the branch leaves above genesis and the work fits, if all accumulators are kept
    ensures RootsFull(t, s, b) && Decidable(p, t, s, b, h) ==> (r.Ok? <==> Acceptable(p, t, s, b, h))
    // if not, a valid header is refused for one of these reasons only
    ensures r.Err? && h.prev in t && s.headers[h.prev].Height().Some? && TargetServed(p, t, s, b.bestBlock, h.prev) &&
            HeaderValid(p, t, h) ==>
              TreeOk(p.genesis, Extend(t, h)) && BranchRefused(p, Extend(t, h), s, b, h)
  {
    StatusBacked(p.genesis, t, s.headers, b.bestBlock, t[b.validationIndex].height);
    assert StateAt(p.genesis, t, b.bestBlock, t[b.validationIndex].height, b.bestBlock, s.headers[b.bestBlock]);
    TargetServedBelowTip(p, t, s, b.bestBlock, b.bestBlock);
    var valid := ValidateHeader(p, s, h, t, b.bestBlock);
    if valid.Err? {
      return Err(valid.error), [];
    }
    StoredNode(p.genesis, t, s.headers, h.prev);
    ExtendOk(p.genesis, t, h);
    BitsExtend(p, t, h, s.headers[h.prev]);
    r, ops := AcceptValid(p, s, b, acc, h, t, blocks);
  }

  /** A header that has passed its checks: always taken on the tip, elsewhere if its branch can be. */
  method AcceptValid(p: Params, s: Store, b: BestChain, acc: Stump, h: Header, ghost t: Tree, ghost blocks: Blocks)
    returns (r: Result<(Store, BestChain, Stump), Error>, ops: seq<Op>)
    requires Coherent(p.genesis, t, s, b) && h.hash !in t && h.hash != p.genesis.prev
    requires h.prev in s.headers && h.prev in t && s.headers[h.prev].Height().Some?
    requires TreeOk(p.genesis, Extend(t, h)) && BitsOk(p, Extend(t, h))
    ensures r.Ok? ==> Accepted(p, t, s, b, acc, h, blocks, r.value.0, r.value.1, r.value.2)
    ensures r.Ok? ==> Traced(p.genesis, s, r.value.0, ops)
    ensures h.prev == b.bestBlock ==> r.Ok?
    ensures RootsFull(t, s, b) ==> (r.Ok? <==> h.prev == b.bestBlock || MayBranch(p, Extend(t, h), s, b, h))
    ensures r.Err? ==> BranchRefused(p, Extend(t, h), s, b, h) && r.error == BranchFault(p, Extend(t, h), s, b, h)
  {
    if h.prev == b.bestBlock {
      r, ops := AcceptOnTip(p, s, b, acc, h, t, blocks);
    } else {
      r, ops := AcceptBranch(p, s, b, acc, h, t, blocks);
    }
  }

  method AcceptOnTip(p: Params, s: Store, b: BestChain, acc: Stump, h: Header, ghost t: Tree, ghost blocks: Blocks)
    returns (r: Result<(Store, BestChain, Stump), Error>, ops: seq<Op>)
    requires Coherent(p.genesis, t, s, b) && h.prev == b.bestBlock && h.hash !in t && h.hash != p.genesis.prev
    requires TreeOk(p.genesis, Extend(t, h)) && BitsOk(p, Extend(t, h))
    ensures r.Ok? && r.value.1.bestBlock == h.hash && r.value.2 == acc
    ensures Accepted(p, t, s, b, acc, h, blocks, r.value.0, r.value.1, acc)
    ensures Traced(p.genesis, s, r.value.0, ops)
  {
    var height := b.depth + 1;
    var b' := b.(bestBlock := h.hash, depth := height);
    var s' := s.SaveHeader(HeadersOnly(h, height)).UpdateBlockIndex(height, h.hash);
    CoherentTip(p.genesis, t, s, b, h);
    if AccMatches(p, t, s, b, blocks, acc) {
      AccTip(p, t, s, b, h, s', b', blocks, acc);
    }
    if RootsFull(t, s, b) {
      RootsSame(s, s', t[b.validationIndex].height);
    }
    NextVacant(p.genesis, t, s, b);
    TracedOne(p.genesis, s, Place(HeadersOnly(h, height)));
    ops := [Place(HeadersOnly(h, height))];
    r := Ok((s', b', acc));
  }

  /** Slots up to the validated height that stay as they are keep their accumulators. */
  lemma RootsSame(s: Store, s': Store, vi: nat)
    requires RootsKept(s, vi)
    requires forall n: nat {:trigger Get(s'.slots, n)} :: n <= vi ==> Get(s'.slots, n) == Get(s.slots, n)
    ensures RootsKept(s', vi)
  {
    forall n: nat | 1 <= n <= vi
      ensures s'.LoadRoots(n).Some?
    {
      assert s.LoadRoots(n).Some? && Get(s'.slots, n) == Get(s.slots, n);
    }
  }

  /** The slot above the tip holds no best-chain header. */
  lemma NextVacant(g: Header, t: Tree, s: Store, b: BestChain)
    requires Coherent(g, t, s, b)
    ensures Vacant(s, b.depth + 1) && SlotsStored(s)
  {
    forall n | n in s.slots
      ensures s.slots[n].hash in s.headers
      ensures n == b.depth + 1 ==> !s.headers[s.slots[n].hash].MainChain()
    {
      var x := s.slots[n].hash;
      assert SlotSound(t, s, n);
      assert StateAt(g, t, b.bestBlock, t[b.validationIndex].height, x, s.headers[x]);
    }
  }

  /** A branch tip stored as a fork, having no more work than the tip. */
  lemma ForkAccepted(p: Params, t: Tree, s: Store, b: BestChain, acc: Stump, h: Header, blocks: Blocks)
    requires Coherent(p.genesis, t, s, b) && h.prev in t && h.hash !in t && h.hash != p.genesis.prev
    requires TreeOk(p.genesis, Extend(t, h)) && BitsOk(p, Extend(t, h)) && h.prev != b.bestBlock
    requires HasForkPoint(p.genesis, Extend(t, h), s.headers, h.hash)
    requires SameWorkBelow(p, Extend(t, h), b.bestBlock) ==>
               CumWork(p.genesis, p.work, Extend(t, h), h.hash) <= CumWork(p.genesis, p.work, Extend(t, h), b.bestBlock)
    ensures Accepted(p, t, s, b, acc, h, blocks, s.SaveHeader(InFork(h, t[h.prev].height + 1)),
                     b.(alternativeTips := PushAltTip(b.alternativeTips, h)), acc)
  {
    CoherentFork(p.genesis, t, s, b, h, PushAltTip(b.alternativeTips, h));
    PushedIsRecorded(b.alternativeTips, h);
    if AccMatches(p, t, s, b, blocks, acc) {
      AccFork(p, t, s, b, h, PushAltTip(b.alternativeTips, h), blocks, acc);
    }
    if RootsFull(t, s, b) {
      RootsSame(s, s.SaveHeader(InFork(h, t[h.prev].height + 1)), t[b.validationIndex].height);
    }
  }

  /** A reorganisation keeps the accumulators of the heights that stay validated. */
  lemma ReorgRoots(g: Header, t: Tree, s: Store, b: BestChain, newTip: BlockHash, f: BlockHash, s': Store,
                   b': BestChain)
    requires Reorged(g, t, s, b, newTip, f, s', b') && RootsFull(t, s, b)
    ensures RootsFull(t, s', b')
  {
    RootsSame(s, s', t[b'.validationIndex].height);
  }

  /** A branch with more work than the tip, made the active one. */
  lemma ReorgAccepted(p: Params, t: Tree, s: Store, b: BestChain, acc: Stump, h: Header, blocks: Blocks,
                      f: BlockHash, s': Store, b': BestChain, acc': Stump)
    requires Coherent(p.genesis, t, s, b) && h.prev in t && TreeOk(p.genesis, Extend(t, h)) && BitsOk(p, Extend(t, h))
    requires h.hash !in t && h.prev != b.bestBlock && Reorged(p.genesis, Extend(t, h), s, b, h.hash, f, s', b')
    requires AccMatches(p, t, s, b, blocks, acc) ==> AccMatches(p, Extend(t, h), s', b', blocks, acc')
    requires HasForkPoint(p.genesis, Extend(t, h), s.headers, h.hash)
    requires SameWorkBelow(p, Extend(t, h), b.bestBlock) ==>
               CumWork(p.genesis, p.work, Extend(t, h), h.hash) > CumWork(p.genesis, p.work, Extend(t, h), b.bestBlock)
    ensures Accepted(p, t, s, b, acc, h, blocks, s', b', acc')
  {
    if RootsFull(t, s, b) {
      ReorgRoots(p.genesis, Extend(t, h), s, b, h.hash, f, s', b');
    }
  }

  method AcceptBranch(p: Params, s: Store, b: BestChain, acc: Stump, h: Header, ghost t: Tree, ghost blocks: Blocks)
    returns (r: Result<(Store, BestChain, Stump), Error>, ops: seq<Op>)
    requires Coherent(p.genesis, t, s, b) && h.prev != b.bestBlock && h.hash !in t && h.hash != p.genesis.prev
    requires h.prev in s.headers && h.prev in t && s.headers[h.prev].Height().Some?
    requires TreeOk(p.genesis, Extend(t, h)) && BitsOk(p, Extend(t, h))
    ensures r.Ok? ==> Accepted(p, t, s, b, acc, h, blocks, r.value.0, r.value.1, r.value.2)
    ensures r.Ok? ==> Traced(p.genesis, s, r.value.0, ops)
    ensures RootsFull(t, s, b) ==> (r.Ok? <==> MayBranch(p, Extend(t, h), s, b, h))
    ensures r.Err? ==> BranchRefused(p, Extend(t, h), s, b, h) && r.error == BranchFault(p, Extend(t, h), s, b, h)
  {
    BranchingNew(p.genesis, t, s, b, h);
    NextVacant(p.genesis, t, s, b);
    if AccMatches(p, t, s, b, blocks, acc) {
      AccUnder(p, t, s, b, h, blocks, acc);
    }
    ghost var moved, f;
    r, moved, f, ops := MaybeReorg(p, s, b, acc, h, Extend(t, h), blocks);
    if r.Ok? {
      if moved {
        ReorgAccepted(p, t, s, b, acc, h, blocks, f, r.value.0, r.value.1, r.value.2);
      } else {
        ForkAccepted(p, t, s, b, acc, h, blocks);
      }
    }
  }

  /** Looks a branch tip up and reorganises to its branch. */
  method SwitchTo(p: Params, s: Store, b: BestChain, newTip: BlockHash, ghost t: Tree, ghost blocks: Blocks,
                  ghost acc: Stump)
    returns (r: Result<(Store, BestChain, Stump), Error>, ghost f: BlockHash, ops: seq<Op>)
    requires Coherent(p.genesis, t, s, b)
    ensures newTip !in t ==> r == Err(BlockNotPresent)
    ensures r.Err? && newTip in t ==> r.error == ReorgFault(p.genesis, t, s, t[newTip].header)
    ensures r.Err? && newTip in t ==> forall x :: !CanReorg(p.genesis, t, s, b, newTip, x)
    ensures r.Ok? ==> Reorged(p.genesis, t, s, b, newTip, f, r.value.0, r.value.1)
    ensures r.Ok? && AccMatches(p, t, s, b, blocks, acc) ==>
              AccMatches(p, t, r.value.0, r.value.1, blocks, r.value.2)
    ensures r.Ok? && RootsFull(t, s, b) ==> RootsFull(t, r.value.0, r.value.1)
    ensures RootsFull(t, s, b) && newTip in t ==> (r.Ok? <==> HasForkPoint(p.genesis, t, s.headers, newTip))
    ensures r.Ok? ==> Traced(p.genesis, s, r.value.0, ops)
  {
    StatusBacked(p.genesis, t, s.headers, b.bestBlock, t[b.validationIndex].height);
    if newTip !in s.headers {
      return Err(BlockNotPresent), newTip, [];
    }
    StoredNode(p.genesis, t, s.headers, newTip);
    var header := s.headers[newTip].header;
    BranchingStored(p.genesis, t, s, b, header);
    NextVacant(p.genesis, t, s, b);
    SwitchDecides(p.genesis, t, s, b, header);
    r, f, ops := ReorgTo(p, s, b, header, t, blocks, acc);
    if r.Ok? && RootsFull(t, s, b) {
      ReorgRoots(p.genesis, t, s, b, newTip, f, r.value.0, r.value.1);
    }
  }
}
