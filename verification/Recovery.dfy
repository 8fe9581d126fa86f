/** Rebuilding the best-chain record and realigning the accumulator from what the store holds. */
module Recovery {
  import opened Prelude
  import opened ChainTypes
  import opened BlockTree
  import opened ChainInvariants
  import opened ChainWalks
  import opened ForkChoice
  import opened Marking
  import opened StoreOps

  /** `n` is the highest height from 1 to `vi` with a saved accumulator, or 0 if there is none. */
  ghost predicate IsLastRoots(s: Store, vi: nat, n: nat) {
    && n <= vi
    && (n > 0 ==> s.LoadRoots(n).Some?)
    && forall k: nat {:trigger s.LoadRoots(k)} :: n < k <= vi ==> s.LoadRoots(k).None?
  }

  method FindLastRoots(s: Store, vi: nat) returns (n: nat)
    ensures IsLastRoots(s, vi, n)
  {
    n := vi;
    while n > 0 && s.LoadRoots(n).None?
      invariant n <= vi
      invariant forall k: nat {:trigger s.LoadRoots(k)} :: n < k <= vi ==> s.LoadRoots(k).None?
    {
      n := n - 1;
    }
  }

  lemma ReindexedCoherent(g: Header, t: Tree, s: Store, tip: BlockHash, vi: nat, b: BestChain)
    requires StoreOk(g, t, s, tip, vi)
    requires b.bestBlock == tip && b.depth == t[tip].height && b.validationIndex == Anc(g, t, tip, vi)
    ensures Coherent(g, t, s, b) && t[b.validationIndex].height == vi
  {
  }

  /** Finds the chain the store describes, whatever the record said. If an accumulator is saved for some
      validated block, validation resumes at the highest such block: the validated blocks above it become
      pending again. Otherwise the store and the accumulator stay as they are. */
  method ReindexChain(p: Params, s: Store, acc: Stump, ghost t: Tree, ghost tip: BlockHash, ghost vi: nat,
                      ghost blocks: Blocks)
    returns (s': Store, b: BestChain, acc': Stump, ghost n: nat, ops: seq<Op>)
    requires StoreOk(p.genesis, t, s, tip, vi)
    ensures IsLastRoots(s, vi, n)
    ensures Coherent(p.genesis, t, s', b)
    ensures b == BestChain(tip, t[tip].height, Anc(p.genesis, t, tip, if n > 0 then n else vi), [])
    ensures n == 0 ==> s' == s && acc' == acc
    ensures n > 0 ==> ActivatedTo(p.genesis, t, s, s', tip, n, vi)
    ensures n > 0 && RootsSound(p, t, s, tip, vi, blocks) ==> AccMatches(p, t, s', b, blocks, acc')
    ensures Traced(p.genesis, s, s', ops)
  {
    ops := [];
    StatusBacked(p.genesis, t, s.headers, tip, vi);
    b := FindBestChain(s, p.genesis, t, tip, vi);
    AncestorStored(p.genesis, t, s.headers, tip, vi);
    assert StateAt(p.genesis, t, tip, vi, b.validationIndex, s.headers[b.validationIndex]);
    var validated := s.headers[b.validationIndex].height;
    var last := FindLastRoots(s, validated);
    n := last;
    if last == 0 {
      ReindexedCoherent(p.genesis, t, s, tip, vi, b);
      s', acc' := s, acc;
      return;
    }
    s', ops := RollBack(s, last, validated, p.genesis, t, tip);
    RollbackStep(p.genesis, t, s, s', tip, last, vi);
    ActiveSlot(p.genesis, t, s', tip, last);
    b := b.(validationIndex := s'.slots[last].disk.header.hash);
    acc' := s.LoadRoots(last).value;
    ReindexedCoherent(p.genesis, t, s', tip, last, b);
    if RootsSound(p, t, s, tip, vi, blocks) {
      RollbackAccStep(p, t, s, s', tip, last, vi, blocks, acc');
    }
  }
}
