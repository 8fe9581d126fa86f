/** What the list of alternative tips stands for, over runs of headers. */
module AlternativeTips {
  import opened Prelude
  import opened ChainTypes
  import opened BlockTree
  import opened ChainInvariants
  import opened ForkChoice
  import opened Marking
  import opened Accepting
  import opened ChainRuns

  ghost predicate NoRepeats(tips: seq<BlockHash>) {
    forall i, j :: 0 <= i < j < |tips| ==> tips[i] != tips[j]
  }

  /** No header of the tree builds on `x`. */
  ghost predicate Childless(t: Tree, x: BlockHash) {
    forall y :: y in t ==> t[y].header.prev != x
  }

  /** The end of a branch that is not the active one. */
  ghost predicate SideTip(g: Header, t: Tree, tip: BlockHash, x: BlockHash)
    requires TreeOk(g, t) && tip in t
  {
    x in t && !OnChain(g, t, tip, x) && Childless(t, x)
  }

  /** The alternative tips are the ends of all other branches, each once. */
  ghost predicate TipsOk(g: Header, t: Tree, b: BestChain)
    requires TreeOk(g, t) && b.bestBlock in t
  {
    && NoRepeats(b.alternativeTips)
    && forall x {:trigger SideTip(g, t, b.bestBlock, x)} :: x in b.alternativeTips <==> SideTip(g, t, b.bestBlock, x)
  }

  lemma ChildlessNew(g: Header, t: Tree, h: Header, x: BlockHash)
    requires TreeOk(g, t) && h.prev in t && h.hash !in t && h.hash != g.prev
    ensures Childless(Extend(t, h), x) <==> Childless(t, x) && x != h.prev
    ensures Childless(Extend(t, h), h.hash)
  {
    var t' := Extend(t, h);
    assert t'[h.hash].header == h;
    forall y | y in t
      ensures t'[y] == t[y] && t[y].header.prev != h.hash
    {
      if y != g.hash {
        assert Parent(t, y) in t;
      }
    }
    if Childless(t', x) {
      forall y | y in t
        ensures t[y].header.prev != x
      {
        assert y in t';
      }
    }
  }

  /** A header on the tip is the end of no other branch and leaves the other ends as they are. */
  lemma TipsOnTip(g: Header, t: Tree, b: BestChain, h: Header, b': BestChain)
    requires TreeOk(g, t) && b.bestBlock in t && TipsOk(g, t, b)
    requires h.prev == b.bestBlock && h.hash !in t && h.hash != g.prev && TreeOk(g, Extend(t, h))
    requires b'.bestBlock == h.hash && b'.alternativeTips == b.alternativeTips
    ensures TipsOk(g, Extend(t, h), b')
  {
    forall x
      ensures SideTip(g, Extend(t, h), h.hash, x) <==> SideTip(g, t, b.bestBlock, x)
    {
      ChildlessNew(g, t, h, x);
      OnChainAfterTip(g, t, h, x);
      assert OnChain(g, t, b.bestBlock, b.bestBlock);
    }
    forall x
      ensures x in b'.alternativeTips <==> SideTip(g, Extend(t, h), h.hash, x)
    {
      assert x in b.alternativeTips <==> SideTip(g, t, b.bestBlock, x);
    }
  }

  lemma RecordedHolds(tips: seq<BlockHash>, tip: Header, tips': seq<BlockHash>, x: BlockHash)
    requires NoRepeats(tips) && tip.hash !in tips && TipRecorded(tips, tip, tips')
    ensures NoRepeats(tips')
    ensures x in tips' <==> x == tip.hash || (x in tips && x != tip.prev)
  {
    if tip.prev in tips {
      var i: nat :| FirstAt(tips, tip.prev, i) && tips' == tips[..i] + tips[i + 1..] + [tip.hash];
      assert tips == tips[..i] + [tips[i]] + tips[i + 1..];
    }
  }

  /** A fork header takes the place of its parent. */
  lemma TipsFork(g: Header, t: Tree, b: BestChain, h: Header, b': BestChain)
    requires TreeOk(g, t) && b.bestBlock in t && TipsOk(g, t, b)
    requires h.prev in t && h.prev != b.bestBlock && h.hash !in t && h.hash != g.prev && TreeOk(g, Extend(t, h))
    requires b'.bestBlock == b.bestBlock && TipRecorded(b.alternativeTips, h, b'.alternativeTips)
    ensures TipsOk(g, Extend(t, h), b')
  {
    assert h.hash in b.alternativeTips <==> SideTip(g, t, b.bestBlock, h.hash);
    RecordedHolds(b.alternativeTips, h, b'.alternativeTips, h.hash);
    forall x
      ensures x in b'.alternativeTips <==> SideTip(g, Extend(t, h), b.bestBlock, x)
    {
      RecordedHolds(b.alternativeTips, h, b'.alternativeTips, x);
      ChildlessNew(g, t, h, x);
      ExtendOnChain(g, t, h, b.bestBlock, x);
      assert x in b.alternativeTips <==> SideTip(g, t, b.bestBlock, x);
    }
  }

  /** A reorganisation leaves the old tip off the list. */
  lemma TipsReorg(g: Header, t: Tree, b: BestChain, h: Header, b': BestChain)
    requires TreeOk(g, t) && b.bestBlock in t && TipsOk(g, t, b) && Childless(t, b.bestBlock)
    requires h.prev in t && h.prev != b.bestBlock && h.hash !in t && h.hash != g.prev && TreeOk(g, Extend(t, h))
    requires b'.bestBlock == h.hash && b'.alternativeTips == b.alternativeTips
    ensures b.bestBlock !in b'.alternativeTips && SideTip(g, Extend(t, h), h.hash, b.bestBlock)
    ensures !TipsOk(g, Extend(t, h), b')
  {
    var x := b.bestBlock;
    assert x in b.alternativeTips <==> SideTip(g, t, x, x);
    ChildlessNew(g, t, h, x);
    OnChainAfterTip(g, t, h, x);
    if OnChain(g, t, h.prev, x) {
      ChildOnChain(g, t, h.prev, x);
    }
    assert SideTip(g, Extend(t, h), b'.bestBlock, x);
  }

  /** A strict ancestor has a child. */
  lemma {:induction false} ChildOnChain(g: Header, t: Tree, y: BlockHash, x: BlockHash)
    requires TreeOk(g, t) && y in t && OnChain(g, t, y, x) && x != y
    ensures !Childless(t, x)
    decreases t[y].height
  {
    AncZero(g, t, y);
    if Parent(t, y) != x {
      ChildOnChain(g, t, Parent(t, y), x);
    }
  }

  /** An accepted header keeps the list right exactly if it does not reorganise the chain. */
  lemma TipsExactly(p: Params, t: Tree, s: Store, b: BestChain, acc: Stump, h: Header, blocks: Blocks,
                    s': Store, b': BestChain, acc': Stump)
    requires Accepted(p, t, s, b, acc, h, blocks, s', b', acc') && h.hash !in t && h.hash != p.genesis.prev
    requires TipsOk(p.genesis, t, b) && Childless(t, b.bestBlock)
    ensures Childless(Extend(t, h), b'.bestBlock)
    ensures TipsOk(p.genesis, Extend(t, h), b') <==> h.prev == b.bestBlock || b'.bestBlock == b.bestBlock
  {
    ChildlessNew(p.genesis, t, h, b'.bestBlock);
    if h.prev == b.bestBlock {
      TipsOnTip(p.genesis, t, b, h, b');
    } else if b'.bestBlock == b.bestBlock {
      TipsFork(p.genesis, t, b, h, b');
    } else {
      TipsReorg(p.genesis, t, b, h, b');
    }
  }

  // ---------- over runs ----------

  /** The header is refused, known, stored as a fork, or extends the tip. */
  ghost predicate Steady(headers: seq<Header>, states: seq<State>, k: nat)
    requires k < |headers| && k + 1 < |states|
  {
    headers[k].prev == states[k].best.bestBlock || states[k + 1].best.bestBlock == states[k].best.bestBlock
  }

  ghost predicate ListRight(p: Params, s: State) {
    && Coherent(p.genesis, s.tree, s.store, s.best)
    && TipsOk(p.genesis, s.tree, s.best) && Childless(s.tree, s.best.bestBlock)
  }

  lemma FirstList(p: Params)
    requires p.genesis.hash != p.genesis.prev && Coherent(p.genesis, First(p).tree, First(p).store, First(p).best)
    ensures ListRight(p, First(p))
  {
    forall x
      ensures !SideTip(p.genesis, First(p).tree, p.genesis.hash, x)
    {
      assert x == p.genesis.hash ==> OnChain(p.genesis, First(p).tree, p.genesis.hash, x);
    }
  }

  lemma NextList(p: Params, s: State, h: Header, ok: bool, s': State)
    requires ListRight(p, s) && HeaderTaken(p, s, h, ok, s') && h.hash != p.genesis.prev
    requires h.prev == s.best.bestBlock || s'.best.bestBlock == s.best.bestBlock
    ensures ListRight(p, s')
  {
    if h.hash !in s.tree && ok {
      TipsExactly(p, s.tree, s.store, s.best, s.acc, h, s.blocks, s'.store, s'.best, s'.acc);
    }
  }

  /** Over any run of headers in which none reorganises the chain, the alternative tips are at all times the ends of all
      branches but the active one, each once. */
  lemma {:induction false} TipsOverRun(p: Params, headers: seq<Header>, oks: seq<bool>, states: seq<State>, k: nat)
    requires p.genesis.hash != p.genesis.prev && Coherent(p.genesis, First(p).tree, First(p).store, First(p).best)
    requires Headed(p, headers, |headers|, oks, states) && k <= |headers|
    requires forall j: nat :: j < k ==> Steady(headers, states, j)
    ensures ListRight(p, states[k])
    decreases k
  {
    if k == 0 {
      FirstList(p);
    } else {
      TipsOverRun(p, headers, oks, states, k - 1);
      assert HeaderOk(p, headers, oks, states, k - 1) && Steady(headers, states, k - 1);
      if headers[k - 1].hash != p.genesis.prev {
        NextList(p, states[k - 1], headers[k - 1], oks[k - 1], states[k]);
      }
    }
  }
}
