/** Invalidating a block: which calls leave a coherent chain behind, and connecting blocks again. */
module Invalidation {
  import opened Prelude
  import opened ChainTypes
  import opened BlockTree
  import opened ChainInvariants
  import opened ChainWalks
  import opened ForkChoice
  import opened Marking
  import opened Accepting
  import opened StoreOps

  /** The record after invalidating block `x`: its parent is the tip. */
  function Shortened(b: BestChain, parent: BlockHash, height: nat): BestChain
    requires height >= 1
  {
    b.(bestBlock := parent, depth := height - 1)
  }

  /** Invalidation leaves the chain coherent when the block is above the validated ones and its parent is active. */
  lemma InvalidateKeeps(g: Header, t: Tree, s: Store, b: BestChain, x: BlockHash, hs: Headers)
    requires Coherent(g, t, s, b) && x in t && x != g.hash && OnChain(g, t, b.bestBlock, Parent(t, x))
    requires t[x].height > t[b.validationIndex].height
    requires InvalidatedTo(g, t, s.headers, hs, b.bestBlock, t[x].height, b.depth + 1)
    ensures Coherent(g, t, Store(hs, s.slots), Shortened(b, Parent(t, x), t[x].height))
  {
    InvalidateStep(g, t, s, b.bestBlock, t[b.validationIndex].height, t[x].height, hs);
    ShorterChain(g, t, b.bestBlock, t[x].height - 1, b.validationIndex);
  }

  lemma InvalidateKeepsAcc(p: Params, t: Tree, s: Store, b: BestChain, x: BlockHash, hs: Headers, blocks: Blocks,
                           acc: Stump)
    requires AccMatches(p, t, s, b, blocks, acc) && x in t && x != p.genesis.hash
    requires OnChain(p.genesis, t, b.bestBlock, Parent(t, x)) && t[x].height > t[b.validationIndex].height
    requires Coherent(p.genesis, t, Store(hs, s.slots), Shortened(b, Parent(t, x), t[x].height))
    ensures AccMatches(p, t, Store(hs, s.slots), Shortened(b, Parent(t, x), t[x].height), blocks, acc)
  {
    SameAcc(p, t, s, b.bestBlock, t[b.validationIndex].height, t[x].height - 1, hs, blocks, acc);
  }

  /** In no other case does it. */
  lemma InvalidateOnly(g: Header, t: Tree, s: Store, b: BestChain, x: BlockHash, hs: Headers)
    requires Coherent(g, t, s, b) && x in t && x != g.hash
    requires InvalidatedTo(g, t, s.headers, hs, b.bestBlock, t[x].height, b.depth + 1)
    requires Coherent(g, t, Store(hs, s.slots), Shortened(b, Parent(t, x), t[x].height))
    ensures OnChain(g, t, b.bestBlock, Parent(t, x)) && t[x].height > t[b.validationIndex].height
  {
    var vi, v, y := t[b.validationIndex].height, b.validationIndex, Parent(t, x);
    assert StateAt(g, t, y, vi, v, hs[v]);
    assert StateAt(g, t, y, vi, y, hs[y]);
    assert StateAt(g, t, b.bestBlock, vi, v, s.headers[v]);
    assert StateAt(g, t, b.bestBlock, vi, y, s.headers[y]);
    assert hs[v] == Invalidated(g, t, b.bestBlock, t[x].height, b.depth + 1, v, s.headers[v]);
    assert hs[y] == Invalidated(g, t, b.bestBlock, t[x].height, b.depth + 1, y, s.headers[y]);
  }

  lemma InvalidateOutcome(p: Params, t: Tree, s: Store, b: BestChain, x: BlockHash, hs: Headers, blocks: Blocks,
                          acc: Stump)
    requires Coherent(p.genesis, t, s, b) && x in t && x != p.genesis.hash
    requires InvalidatedTo(p.genesis, t, s.headers, hs, b.bestBlock, t[x].height, b.depth + 1)
    ensures Coherent(p.genesis, t, Store(hs, s.slots), Shortened(b, Parent(t, x), t[x].height)) <==>
            OnChain(p.genesis, t, b.bestBlock, Parent(t, x)) && t[x].height > t[b.validationIndex].height
    ensures Coherent(p.genesis, t, Store(hs, s.slots), Shortened(b, Parent(t, x), t[x].height)) &&
            AccMatches(p, t, s, b, blocks, acc) ==>
              AccMatches(p, t, Store(hs, s.slots), Shortened(b, Parent(t, x), t[x].height), blocks, acc)
  {
    var b' := Shortened(b, Parent(t, x), t[x].height);
    if Coherent(p.genesis, t, Store(hs, s.slots), b') {
      InvalidateOnly(p.genesis, t, s, b, x, hs);
      if AccMatches(p, t, s, b, blocks, acc) {
        InvalidateKeepsAcc(p, t, s, b, x, hs, blocks, acc);
      }
    }
    if OnChain(p.genesis, t, b.bestBlock, Parent(t, x)) && t[x].height > t[b.validationIndex].height {
      InvalidateKeeps(p.genesis, t, s, b, x, hs);
    }
  }

  /** Genesis is always active ... */
  lemma GenesisActive(g: Header, t: Tree, s: Store, b: BestChain)
    requires Coherent(g, t, s, b)
    ensures g.hash in s.headers && s.headers[g.hash].MainChain() && OnChain(g, t, b.bestBlock, g.hash)
  {
    AncZero(g, t, b.bestBlock);
    assert StateAt(g, t, b.bestBlock, t[b.validationIndex].height, g.hash, s.headers[g.hash]);
  }

  /** ... so that marking it invalid leaves no coherent chain. */
  lemma GenesisInvalidated(g: Header, t: Tree, s: Store, b: BestChain, hs: Headers)
    requires Coherent(g, t, s, b) && InvalidatedTo(g, t, s.headers, hs, b.bestBlock, 0, b.depth + 1)
    ensures !Coherent(g, t, Store(hs, s.slots), b)
  {
    GenesisActive(g, t, s, b);
    assert hs[g.hash] == Invalidated(g, t, b.bestBlock, 0, b.depth + 1, g.hash, s.headers[g.hash]);
    var active := StateAt(g, t, b.bestBlock, t[b.validationIndex].height, g.hash, hs[g.hash]);
  }

  /** Marks the active chain from the height of a stored block up as invalid and shortens the record. */
  method InvalidateFrom(p: Params, s: Store, b: BestChain, block: BlockHash,
                        ghost t: Tree, ghost blocks: Blocks, ghost acc: Stump)
    returns (s': Store, r: Result<BestChain, Error>, ops: seq<Op>)
    requires Coherent(p.genesis, t, s, b) && block in s.headers && s.headers[block].Height().Some?
    ensures block in t && s'.slots == s.slots
    ensures InvalidatedTo(p.genesis, t, s.headers, s'.headers, b.bestBlock, t[block].height, b.depth + 1)
    ensures block == p.genesis.hash ==>
              r == Err(BlockNotPresent) && t[block].height == 0 && !Coherent(p.genesis, t, s', b)
    ensures block != p.genesis.hash ==>
              && t[block].height >= 1 && r == Ok(Shortened(b, Parent(t, block), t[block].height))
              && (Coherent(p.genesis, t, s', r.value) <==>
                  OnChain(p.genesis, t, b.bestBlock, Parent(t, block)) && t[block].height > t[b.validationIndex].height)
              && (Coherent(p.genesis, t, s', r.value) && AccMatches(p, t, s, b, blocks, acc) ==>
                  AccMatches(p, t, s', r.value, blocks, acc))
              && (RootsFull(t, s, b) ==> RootsFull(t, s', r.value))
              && Traced(p.genesis, s, s', ops)
  {
    var height := s.headers[block].height;
    var header := s.headers[block].header;
    StatusBacked(p.genesis, t, s.headers, b.bestBlock, t[b.validationIndex].height);
    StoredNode(p.genesis, t, s.headers, block);
    s', ops := MarkInvalid(p.genesis, s, height, t, b.bestBlock, b.depth);
    assert s' == Store(s'.headers, s.slots);
    if header.prev !in s'.headers {
      GenesisInvalidated(p.genesis, t, s, b, s'.headers);
      r := Err(BlockNotPresent);
    } else {
      InvalidateOutcome(p, t, s, b, block, s'.headers, blocks, acc);
      r := Ok(b.(bestBlock := header.prev, depth := height - 1));
      if RootsFull(t, s, b) {
        RootsSame(s, s', t[b.validationIndex].height);
      }
    }
  }

  // ---------- connecting ----------

  lemma ConnectNext(g: Header, t: Tree, s: Store, b: BestChain, h: Header, acc: Stump)
    requires Coherent(g, t, s, b) && h.hash in t && h == t[h.hash].header
    requires s.headers[h.hash] == HeadersOnly(h, t[b.validationIndex].height + 1)
    ensures t[b.validationIndex].height < b.depth
    ensures h.hash == Anc(g, t, b.bestBlock, t[b.validationIndex].height + 1)
    ensures Coherent(g, t, Connected(s, h, t[b.validationIndex].height + 1, acc), b.(validationIndex := h.hash))
  {
    assert StateAt(g, t, b.bestBlock, t[b.validationIndex].height, h.hash, s.headers[h.hash]);
    ConnectStep(g, t, s, b.bestBlock, t[b.validationIndex].height, h, acc);
  }

  lemma ConnectNextAcc(p: Params, t: Tree, s: Store, b: BestChain, block: Block, blocks: Blocks, acc: Stump,
                       acc': Stump)
    requires AccMatches(p, t, s, b, blocks, acc) && block.header.hash in t
    requires t[b.validationIndex].height < b.depth
    requires block.header.hash == Anc(p.genesis, t, b.bestBlock, t[b.validationIndex].height + 1)
    requires p.updateAcc(acc, block, t[b.validationIndex].height + 1) == Some(acc')
    requires Coherent(p.genesis, t, Connected(s, block.header, t[b.validationIndex].height + 1, acc'),
                      b.(validationIndex := block.header.hash))
    ensures AccMatches(p, t, Connected(s, block.header, t[b.validationIndex].height + 1, acc'),
                       b.(validationIndex := block.header.hash), blocks[block.header.hash := block], acc')
  {
    ConnectAccStep(p, t, s, b.bestBlock, t[b.validationIndex].height, blocks, acc, block, acc');
  }

  /** Connecting the validation index itself once more keeps the chain ... */
  lemma ConnectAgain(g: Header, t: Tree, s: Store, b: BestChain, h: Header, acc: Stump)
    requires Coherent(g, t, s, b) && h == t[b.validationIndex].header
    ensures Coherent(g, t, Connected(s, h, t[b.validationIndex].height, acc), b)
  {
    var vi := t[b.validationIndex].height;
    ConnectedIs(s, h, vi, acc);
    assert StateAt(g, t, b.bestBlock, vi, h.hash, s.headers[h.hash]);
    assert s.headers[h.hash := FullyValid(h, vi)] == s.headers;
    ConnectSlots(g, t, s, b.bestBlock, vi, h, acc);
  }

  /** ... but the accumulator stays right only if the block left it unchanged. */
  lemma ConnectAgainAcc(p: Params, t: Tree, s: Store, b: BestChain, h: Header, blocks: Blocks, acc: Stump, acc': Stump)
    requires AccMatches(p, t, s, b, blocks, acc) && h == t[b.validationIndex].header
    requires Coherent(p.genesis, t, Connected(s, h, t[b.validationIndex].height, acc'), b)
    ensures AccMatches(p, t, Connected(s, h, t[b.validationIndex].height, acc'), b, blocks, acc') <==> acc' == acc
  {
    var vi := t[b.validationIndex].height;
    var s' := Connected(s, h, vi, acc');
    ConnectedIs(s, h, vi, acc');
    assert forall n: nat {:trigger s'.LoadRoots(n)} :: n != vi ==> s'.LoadRoots(n) == s.LoadRoots(n);
  }

  /** Header `x` is next to be connected, or the last that was. */
  ghost predicate CanConnect(t: Tree, s: Store, b: BestChain, x: BlockHash)
    requires x in t && x in s.headers && b.validationIndex in t
  {
    x == b.validationIndex || s.headers[x] == HeadersOnly(t[x].header, t[b.validationIndex].height + 1)
  }

  lemma ConnectOutcome(p: Params, t: Tree, s: Store, b: BestChain, block: Block, blocks: Blocks, acc: Stump,
                       acc': Stump, n: nat, s': Store, b': BestChain, blocks': Blocks)
    requires Coherent(p.genesis, t, s, b) && block.header.hash in t && t[block.header.hash] == Node(block.header, n)
    requires CanConnect(t, s, b, block.header.hash)
    requires p.updateAcc(acc, block, n) == Some(acc')
    requires s' == Connected(s, block.header, n, acc') && b' == b.(validationIndex := block.header.hash)
    requires blocks' == if block.header.hash == b.validationIndex then blocks else blocks[block.header.hash := block]
    ensures Coherent(p.genesis, t, s', b')
    ensures block.header.hash != b.validationIndex && AccMatches(p, t, s, b, blocks, acc) ==>
              AccMatches(p, t, s', b', blocks', acc')
    ensures block.header.hash == b.validationIndex && AccMatches(p, t, s, b, blocks, acc) ==>
              (AccMatches(p, t, s', b', blocks', acc') <==> acc' == acc)
  {
    if block.header.hash == b.validationIndex {
      ConnectAgain(p.genesis, t, s, b, block.header, acc');
      if AccMatches(p, t, s, b, blocks, acc) {
        ConnectAgainAcc(p, t, s, b, block.header, blocks, acc, acc');
      }
    } else {
      assert StateAt(p.genesis, t, b.bestBlock, t[b.validationIndex].height, block.header.hash,
                     s.headers[block.header.hash]);
      ConnectNext(p.genesis, t, s, b, block.header, acc');
      if AccMatches(p, t, s, b, blocks, acc) {
        ConnectNextAcc(p, t, s, b, block, blocks, acc, acc');
      }
    }
  }

  /** The block being connected has the slot of its height already. */
  lemma ConnectWrites(p: Params, t: Tree, s: Store, b: BestChain, block: Block, acc': Stump, n: nat)
    requires Coherent(p.genesis, t, s, b) && block.header.hash in t && t[block.header.hash] == Node(block.header, n)
    requires CanConnect(t, s, b, block.header.hash)
    ensures Traced(p.genesis, s, Connected(s, block.header, n, acc'),
                   [Place(FullyValid(block.header, n)), Roots(acc', n)])
  {
    var x := block.header.hash;
    assert StateAt(p.genesis, t, b.bestBlock, t[b.validationIndex].height, x, s.headers[x]);
    ActiveSlot(p.genesis, t, s, b.bestBlock, n);
    assert Holds(s, n, x);
    var placed := Apply(s, Place(FullyValid(block.header, n)));
    TracedOne(p.genesis, s, Place(FullyValid(block.header, n)));
    TracedStep(p.genesis, s, placed, [Place(FullyValid(block.header, n))], Roots(acc', n));
    assert [Place(FullyValid(block.header, n)), Roots(acc', n)] ==
           [Place(FullyValid(block.header, n))] + [Roots(acc', n)];
  }

  /** The connected height has its accumulator saved, and the others keep theirs. */
  lemma ConnectRootsKept(g: Header, t: Tree, s: Store, b: BestChain, h: Header, acc': Stump, n: nat)
    requires RootsFull(t, s, b) && Coherent(g, t, s, b) && h.hash in t && t[h.hash] == Node(h, n)
    requires CanConnect(t, s, b, h.hash)
    ensures RootsFull(t, Connected(s, h, n, acc'), b.(validationIndex := h.hash))
  {
    var s' := Connected(s, h, n, acc');
    ConnectedIs(s, h, n, acc');
    assert StateAt(g, t, b.bestBlock, t[b.validationIndex].height, h.hash, s.headers[h.hash]);
    forall k: nat | 1 <= k <= n
      ensures s'.LoadRoots(k).Some?
    {
      assert k < n ==> s.LoadRoots(k).Some?;
    }
  }
}
