/**
  What every step of `ChainState` keeps: the store describes one active chain of
  the header tree, and the accumulator is the one reached by its validated part.
  Each lemma below is one kind of step, stated on values.
 */
module ChainInvariants {
  import opened Prelude
  import opened ChainTypes
  import opened BlockTree

  type Headers = map<BlockHash, DiskBlockHeader>

  /** Header `x`, if stored, is a tree node with its own height, and its parent is stored too. */
  ghost predicate BackedAt(g: Header, t: Tree, hs: Headers, x: BlockHash)
    requires TreeOk(g, t)
  {
    x in hs ==>
      && x in t
      && hs[x].header == t[x].header
      && (x != g.hash ==> Parent(t, x) in hs)
      && (hs[x].Height().Some? ==> hs[x].height == t[x].height)
  }

  /** Walks back from stored headers stay inside the store. */
  ghost predicate Backed(g: Header, t: Tree, hs: Headers)
    requires TreeOk(g, t)
  {
    g.hash in hs && forall x {:trigger BackedAt(g, t, hs, x)} :: BackedAt(g, t, hs, x)
  }

  /** The state a header has on the active chain. */
  ghost function ActiveState(n: Node, vi: nat): DiskBlockHeader {
    if n.height <= vi then FullyValid(n.header, n.height) else HeadersOnly(n.header, n.height)
  }

  /** The state `d` of header `x` when the chain ending at `tip` is active. */
  ghost predicate StateAt(g: Header, t: Tree, tip: BlockHash, vi: nat, x: BlockHash, d: DiskBlockHeader)
    requires TreeOk(g, t) && tip in t && x in t
  {
    if OnChain(g, t, tip, x) then d == ActiveState(t[x], vi)
    else d == InFork(t[x].header, t[x].height) || d == InvalidChain(t[x].header)
  }

  /** Status of the headers stored so far; the one being accepted may be missing. */
  ghost predicate PartialStatus(g: Header, t: Tree, hs: Headers, tip: BlockHash, vi: nat)
    requires TreeOk(g, t) && tip in t
  {
    hs.Keys <= t.Keys && forall x {:trigger StateAt(g, t, tip, vi, x, hs[x])} :: x in hs ==>
      StateAt(g, t, tip, vi, x, hs[x])
  }

  /** Exactly the chain ending at `tip` is active: validated up to height `vi`,
      pending above it. Everything else is a fork or invalid. */
  ghost predicate StatusOk(g: Header, t: Tree, hs: Headers, tip: BlockHash, vi: nat)
    requires TreeOk(g, t) && tip in t
  {
    hs.Keys == t.Keys && PartialStatus(g, t, hs, tip, vi)
  }

  /** A slot holds a header of its own height. */
  ghost predicate SlotSound(t: Tree, s: Store, n: nat) {
    n in s.slots ==> s.slots[n].hash in t && t[s.slots[n].hash] == Node(s.slots[n].disk.header, n)
  }

  /** The slot of an active height holds the active header, as it is stored under its hash. */
  ghost predicate SlotAt(g: Header, t: Tree, s: Store, tip: BlockHash, n: nat)
    requires TreeOk(g, t) && tip in t
  {
    n <= t[tip].height ==>
      && n in s.slots
      && s.slots[n].hash == Anc(g, t, tip, n)
      && (s.slots[n].hash in s.headers ==> s.slots[n].disk == s.headers[s.slots[n].hash])
  }

  /** The height index holds the active chain; slots above it may be stale, but
      still hold a header of their own height. */
  ghost predicate SlotsOk(g: Header, t: Tree, s: Store, tip: BlockHash)
    requires TreeOk(g, t) && tip in t
  {
    && (forall n: nat {:trigger SlotSound(t, s, n)} :: SlotSound(t, s, n))
    && (forall n: nat {:trigger SlotAt(g, t, s, tip, n)} :: SlotAt(g, t, s, tip, n))
  }

  ghost predicate StoreOk(g: Header, t: Tree, s: Store, tip: BlockHash, vi: nat) {
    && TreeOk(g, t)
    && tip in t
    && vi <= t[tip].height
    && StatusOk(g, t, s.headers, tip, vi)
    && SlotsOk(g, t, s, tip)
  }

  lemma StatusBacked(g: Header, t: Tree, hs: Headers, tip: BlockHash, vi: nat)
    requires TreeOk(g, t) && tip in t && StatusOk(g, t, hs, tip, vi)
    ensures Backed(g, t, hs)
  {
    forall x
      ensures BackedAt(g, t, hs, x)
    {
      if x in hs {
        assert StateAt(g, t, tip, vi, x, hs[x]);
        assert x != g.hash ==> Parent(t, x) in t;
      }
    }
  }

  /** What `SlotsOk` says of one active height. */
  lemma ActiveSlot(g: Header, t: Tree, s: Store, tip: BlockHash, n: nat)
    requires TreeOk(g, t) && tip in t && SlotsOk(g, t, s, tip) && n <= t[tip].height
    ensures n in s.slots
    ensures s.slots[n].hash == Anc(g, t, tip, n)
    ensures s.slots[n].disk.header == t[Anc(g, t, tip, n)].header
    ensures s.slots[n].hash in s.headers ==> s.slots[n].disk == s.headers[s.slots[n].hash]
  {
    assert SlotAt(g, t, s, tip, n);
    assert SlotSound(t, s, n);
  }

  // ---------- accumulator ----------

  type Blocks = map<BlockHash, Block>

  /** The accumulator reached by applying, from genesis, the block connected for
      each ancestor of `x` and for `x` itself. */
  ghost function AccOf(p: Params, t: Tree, blocks: Blocks, x: BlockHash): Option<Stump>
    requires TreeOk(p.genesis, t) && x in t
    decreases t[x].height
  {
    if x == p.genesis.hash then Some(EMPTY_STUMP)
    else if x !in blocks then None
    else match AccOf(p, t, blocks, Parent(t, x))
      case None => None
      case Some(a) => p.updateAcc(a, blocks[x], t[x].height)
  }

  /** Accumulators saved at or below the validated block are those reached there. */
  ghost predicate RootsSound(p: Params, t: Tree, s: Store, tip: BlockHash, vi: nat, blocks: Blocks)
    requires TreeOk(p.genesis, t) && tip in t && vi <= t[tip].height
  {
    forall n: nat {:trigger s.LoadRoots(n)} :: 1 <= n <= vi && s.LoadRoots(n).Some? ==>
      AccOf(p, t, blocks, Anc(p.genesis, t, tip, n)) == s.LoadRoots(n)
  }

  /** `acc` belongs to the validated block and so do all accumulators saved at or below it. */
  ghost predicate AccOk(p: Params, t: Tree, s: Store, tip: BlockHash, vi: nat, blocks: Blocks, acc: Stump)
    requires TreeOk(p.genesis, t) && tip in t && vi <= t[tip].height
  {
    match AccOf(p, t, blocks, Anc(p.genesis, t, tip, vi))
    case None => false
    case Some(a) => a == acc && RootsSound(p, t, s, tip, vi, blocks)
  }

  lemma {:induction false} AccExtend(p: Params, t: Tree, h: Header, blocks: Blocks, x: BlockHash)
    requires TreeOk(p.genesis, t) && h.prev in t && h.hash !in t && TreeOk(p.genesis, Extend(t, h))
    requires x in t
    ensures AccOf(p, Extend(t, h), blocks, x) == AccOf(p, t, blocks, x)
    decreases t[x].height
  {
    if x != p.genesis.hash {
      AccExtend(p, t, h, blocks, Parent(t, x));
    }
  }

  /** Connecting a block changes no accumulator below its height. */
  lemma {:induction false} AccConnectFrame(p: Params, t: Tree, blocks: Blocks, b: Block, x: BlockHash)
    requires TreeOk(p.genesis, t) && x in t && b.header.hash in t
    requires t[x].height < t[b.header.hash].height
    ensures AccOf(p, t, blocks[b.header.hash := b], x) == AccOf(p, t, blocks, x)
    decreases t[x].height
  {
    if x != p.genesis.hash {
      AccConnectFrame(p, t, blocks, b, Parent(t, x));
    }
  }

  // ---------- a new header ----------

  lemma StatusExtend(g: Header, t: Tree, hs: Headers, tip: BlockHash, vi: nat, h: Header, d: DiskBlockHeader)
    requires TreeOk(g, t) && tip in t && StatusOk(g, t, hs, tip, vi)
    requires h.prev in t && h.hash !in t && TreeOk(g, Extend(t, h))
    requires d == InFork(h, t[h.prev].height + 1)
    ensures StatusOk(g, Extend(t, h), hs[h.hash := d], tip, vi)
  {
    var hs' := hs[h.hash := d];
    forall x | x in hs'
      ensures StateAt(g, Extend(t, h), tip, vi, x, hs'[x])
    {
      ExtendOnChain(g, t, h, tip, x);
      assert x != h.hash ==> StateAt(g, t, tip, vi, x, hs[x]);
    }
  }

  lemma SlotsExtend(g: Header, t: Tree, s: Store, tip: BlockHash, h: Header, d: DiskBlockHeader)
    requires TreeOk(g, t) && tip in t && SlotsOk(g, t, s, tip)
    requires h.prev in t && h.hash !in t && TreeOk(g, Extend(t, h))
    requires d == InFork(h, t[h.prev].height + 1)
    ensures SlotsOk(g, Extend(t, h), s.SaveHeader(d), tip)
  {
    var s' := s.SaveHeader(d);
    forall n: nat
      ensures SlotSound(Extend(t, h), s', n) && SlotAt(g, Extend(t, h), s', tip, n)
    {
      assert SlotSound(t, s, n) && SlotAt(g, t, s, tip, n);
      if n <= t[tip].height {
        ExtendAnc(g, t, h, tip, n);
      }
    }
  }

  /** Storing a header as a fork leaves the active chain as it was. */
  lemma AddForkStep(g: Header, t: Tree, s: Store, tip: BlockHash, vi: nat, h: Header)
    requires StoreOk(g, t, s, tip, vi) && h.prev in t && h.hash !in t && h.hash != g.prev
    ensures StoreOk(g, Extend(t, h), s.SaveHeader(InFork(h, t[h.prev].height + 1)), tip, vi)
  {
    var d := InFork(h, t[h.prev].height + 1);
    ExtendOk(g, t, h);
    StatusExtend(g, t, s.headers, tip, vi, h, d);
    SlotsExtend(g, t, s, tip, h, d);
  }

  /** The store after a header has been saved and indexed at its height. */
  ghost function Saved(s: Store, d: DiskBlockHeader): Store
    requires d.MainChain()
  {
    s.SaveHeader(d).UpdateBlockIndex(d.height, d.header.hash)
  }

  lemma SavedIs(s: Store, d: DiskBlockHeader)
    requires d.MainChain()
    ensures Saved(s, d) == Store(s.headers[d.header.hash := d], s.slots[d.height := Slot(d, d.header.hash, None)])
  {
  }

  lemma OnChainAfterTip(g: Header, t: Tree, h: Header, x: BlockHash)
    requires TreeOk(g, t) && h.prev in t && h.hash !in t && TreeOk(g, Extend(t, h))
    ensures OnChain(g, Extend(t, h), h.hash, x) <==> x == h.hash || OnChain(g, t, h.prev, x)
  {
    var t' := Extend(t, h);
    if x in t && t[x].height <= t[h.prev].height {
      ExtendAnc(g, t, h, h.prev, t[x].height);
    }
  }

  lemma ExtendTipStatus(g: Header, t: Tree, s: Store, vi: nat, h: Header)
    requires TreeOk(g, t) && h.prev in t && vi <= t[h.prev].height && StatusOk(g, t, s.headers, h.prev, vi)
    requires h.hash !in t && TreeOk(g, Extend(t, h))
    ensures StatusOk(g, Extend(t, h), Saved(s, HeadersOnly(h, t[h.prev].height + 1)).headers, h.hash, vi)
  {
    var t' := Extend(t, h);
    var hs' := Saved(s, HeadersOnly(h, t[h.prev].height + 1)).headers;
    forall x | x in hs'
      ensures StateAt(g, t', h.hash, vi, x, hs'[x])
    {
      OnChainAfterTip(g, t, h, x);
      assert x != h.hash ==> StateAt(g, t, h.prev, vi, x, s.headers[x]);
    }
  }

  lemma ExtendTipSlots(g: Header, t: Tree, s: Store, h: Header)
    requires TreeOk(g, t) && h.prev in t && SlotsOk(g, t, s, h.prev) && h.hash !in t && TreeOk(g, Extend(t, h))
    ensures SlotsOk(g, Extend(t, h), Saved(s, HeadersOnly(h, t[h.prev].height + 1)), h.hash)
  {
    var t' := Extend(t, h);
    var s' := Saved(s, HeadersOnly(h, t[h.prev].height + 1));
    SavedIs(s, HeadersOnly(h, t[h.prev].height + 1));
    forall n: nat
      ensures SlotSound(t', s', n) && SlotAt(g, t', s', h.hash, n)
    {
      assert SlotSound(t, s, n) && SlotAt(g, t, s, h.prev, n);
      if n <= t[h.prev].height {
        ExtendAnc(g, t, h, h.prev, n);
      }
    }
  }

  /** A header on top of the tip makes the active chain one longer. */
  lemma ExtendTipStep(g: Header, t: Tree, s: Store, vi: nat, h: Header)
    requires StoreOk(g, t, s, h.prev, vi) && h.hash !in t && h.hash != g.prev
    ensures StoreOk(g, Extend(t, h), Saved(s, HeadersOnly(h, t[h.prev].height + 1)), h.hash, vi)
  {
    ExtendOk(g, t, h);
    ExtendTipStatus(g, t, s, vi, h);
    ExtendTipSlots(g, t, s, h);
  }

  lemma AccAfterExtend(p: Params, t: Tree, s: Store, tip: BlockHash, vi: nat, blocks: Blocks, acc: Stump,
                       h: Header, s': Store, tip': BlockHash)
    requires TreeOk(p.genesis, t) && tip in t && vi <= t[tip].height
    requires AccOk(p, t, s, tip, vi, blocks, acc)
    requires h.prev in t && h.hash !in t && TreeOk(p.genesis, Extend(t, h))
    requires tip' == tip || (tip' == h.hash && h.prev == tip)
    requires forall n: nat {:trigger s'.LoadRoots(n)} :: n <= vi ==> s'.LoadRoots(n) == s.LoadRoots(n)
    ensures AccOk(p, Extend(t, h), s', tip', vi, blocks, acc)
  {
    forall n: nat | n <= vi
      ensures Anc(p.genesis, Extend(t, h), tip', n) == Anc(p.genesis, t, tip, n)
      ensures AccOf(p, Extend(t, h), blocks, Anc(p.genesis, t, tip, n)) ==
              AccOf(p, t, blocks, Anc(p.genesis, t, tip, n))
    {
      ExtendAnc(p.genesis, t, h, tip, n);
      AccExtend(p, t, h, blocks, Anc(p.genesis, t, tip, n));
    }
  }

  // ---------- reorganisation ----------

  /** The state of `x` when headers of the chain of `tip` above height `n` have become forks. */
  ghost function Deactivated(g: Header, t: Tree, tip: BlockHash, n: nat, x: BlockHash,
                             d: DiskBlockHeader): DiskBlockHeader
    requires TreeOk(g, t) && tip in t
  {
    if OnChain(g, t, tip, x) && n < t[x].height then InFork(t[x].header, t[x].height) else d
  }

  /** Headers of the old chain above height `n` have become forks; nothing else moved. */
  ghost predicate DeactivatedTo(g: Header, t: Tree, hs0: Headers, hs: Headers, tip: BlockHash, n: nat)
    requires TreeOk(g, t) && tip in t
  {
    && hs.Keys == hs0.Keys
    && forall x {:trigger Deactivated(g, t, tip, n, x, hs0[x])} :: x in hs ==>
         hs[x] == Deactivated(g, t, tip, n, x, hs0[x])
  }

  /** The state of `x` when headers of the chain of `tip` from height `lo`, exclusive, to `hi` are pending. */
  ghost function Activated(g: Header, t: Tree, tip: BlockHash, lo: nat, hi: nat, x: BlockHash,
                           d: Option<DiskBlockHeader>): Option<DiskBlockHeader>
    requires TreeOk(g, t) && tip in t
  {
    if OnChain(g, t, tip, x) && lo < t[x].height <= hi then Some(HeadersOnly(t[x].header, t[x].height)) else d
  }

  ghost function ActivatedSlot(g: Header, t: Tree, tip: BlockHash, lo: nat, hi: nat, k: nat,
                               d: Option<Slot>): Option<Slot>
    requires TreeOk(g, t) && tip in t && hi <= t[tip].height
  {
    if lo < k <= hi then
      var a := Anc(g, t, tip, k);
      Some(Slot(HeadersOnly(t[a].header, k), a, None))
    else d
  }

  /** Headers of the chain of `tip` above height `lo`, up to `hi`, are pending, in the headers and in
      the slots; nothing else moved. */
  ghost predicate ActivatedTo(g: Header, t: Tree, s0: Store, s: Store, tip: BlockHash, lo: nat, hi: nat)
    requires TreeOk(g, t) && tip in t && hi <= t[tip].height
  {
    && (forall x {:trigger Get(s.headers, x)} ::
          Get(s.headers, x) == Activated(g, t, tip, lo, hi, x, Get(s0.headers, x)))
    && (forall k: nat {:trigger Get(s.slots, k)} ::
          Get(s.slots, k) == ActivatedSlot(g, t, tip, lo, hi, k, Get(s0.slots, k)))
  }

  /** `f` is the highest strict ancestor of `tip'` on the chain of `tip`, and all
      ancestors in between are forks. */
  ghost predicate IsForkPoint(g: Header, t: Tree, hs: Headers, tip: BlockHash, tip': BlockHash, f: BlockHash)
    requires TreeOk(g, t) && tip in t && tip' in t
  {
    && OnChain(g, t, tip, f)
    && t[f].height < t[tip'].height && OnChain(g, t, tip', f)
    && forall k: nat :: t[f].height < k < t[tip'].height ==>
         var a := Anc(g, t, tip', k);
         a in hs && hs[a].InFork? && !OnChain(g, t, tip, a)
  }

  /** Below the fork point both chains are the same. */
  lemma SharedBelow(g: Header, t: Tree, tip: BlockHash, tip': BlockHash, f: BlockHash, n: nat)
    requires TreeOk(g, t) && tip in t && tip' in t
    requires OnChain(g, t, tip, f) && OnChain(g, t, tip', f) && n <= t[f].height
    ensures Anc(g, t, tip, n) == Anc(g, t, tip', n) == Anc(g, t, f, n)
  {
    AncTrans(g, t, tip, t[f].height, n);
    AncTrans(g, t, tip', t[f].height, n);
  }

  lemma SharedOnChain(g: Header, t: Tree, tip: BlockHash, tip': BlockHash, f: BlockHash, x: BlockHash)
    requires TreeOk(g, t) && tip in t && tip' in t
    requires OnChain(g, t, tip, f) && OnChain(g, t, tip', f)
    requires x in t && t[x].height <= t[f].height
    ensures OnChain(g, t, tip, x) <==> OnChain(g, t, tip', x)
  {
    SharedBelow(g, t, tip, tip', f, t[x].height);
  }

  ghost function Min(a: nat, b: nat): nat {
    if a < b then a else b
  }

  /** One header before and after a reorganisation from the chain of `tip` to that of `tip'`. */
  lemma ReorgHeader(g: Header, t: Tree, hs0: Headers, s1: Store, s2: Store,
                    tip: BlockHash, vi: nat, tip': BlockHash, f: BlockHash, x: BlockHash)
    requires TreeOk(g, t) && tip in t && tip' in t && vi <= t[tip].height
    requires PartialStatus(g, t, hs0, tip, vi)
    requires OnChain(g, t, tip, f) && OnChain(g, t, tip', f) && t[f].height < t[tip'].height
    requires DeactivatedTo(g, t, hs0, s1.headers, tip, t[f].height)
    requires ActivatedTo(g, t, s1, s2, tip', t[f].height, t[tip'].height)
    ensures x in s2.headers <==> x in hs0 || (OnChain(g, t, tip', x) && t[f].height < t[x].height)
    ensures x in s2.headers ==> x in t && StateAt(g, t, tip', Min(vi, t[f].height), x, s2.headers[x])
    ensures x in hs0 && t[x].height <= t[f].height ==> s2.headers[x] == hs0[x]
  {
    assert Get(s2.headers, x) == Activated(g, t, tip', t[f].height, t[tip'].height, x, Get(s1.headers, x));
    if x in hs0 {
      assert s1.headers[x] == Deactivated(g, t, tip, t[f].height, x, hs0[x]);
      assert StateAt(g, t, tip, vi, x, hs0[x]);
      if t[x].height <= t[f].height {
        SharedOnChain(g, t, tip, tip', f, x);
      }
    }
  }

  lemma ReorgStatus(g: Header, t: Tree, hs0: Headers, s1: Store, s2: Store,
                    tip: BlockHash, vi: nat, tip': BlockHash, f: BlockHash)
    requires TreeOk(g, t) && tip in t && tip' in t && vi <= t[tip].height
    requires hs0.Keys + {tip'} == t.Keys
    requires PartialStatus(g, t, hs0, tip, vi)
    requires OnChain(g, t, tip, f) && OnChain(g, t, tip', f) && t[f].height < t[tip'].height
    requires DeactivatedTo(g, t, hs0, s1.headers, tip, t[f].height)
    requires ActivatedTo(g, t, s1, s2, tip', t[f].height, t[tip'].height)
    ensures StatusOk(g, t, s2.headers, tip', Min(vi, t[f].height))
  {
    forall x
      ensures x in s2.headers <==> x in t
      ensures x in s2.headers ==> StateAt(g, t, tip', Min(vi, t[f].height), x, s2.headers[x])
    {
      ReorgHeader(g, t, hs0, s1, s2, tip, vi, tip', f, x);
    }
  }

  lemma ReorgSlotAt(g: Header, t: Tree, s0: Store, s1: Store, s2: Store,
                    tip: BlockHash, vi: nat, tip': BlockHash, f: BlockHash, n: nat)
    requires TreeOk(g, t) && tip in t && tip' in t && vi <= t[tip].height
    requires PartialStatus(g, t, s0.headers, tip, vi) && SlotsOk(g, t, s0, tip)
    requires OnChain(g, t, tip, f) && OnChain(g, t, tip', f) && t[f].height < t[tip'].height
    requires s1.slots == s0.slots
    requires DeactivatedTo(g, t, s0.headers, s1.headers, tip, t[f].height)
    requires ActivatedTo(g, t, s1, s2, tip', t[f].height, t[tip'].height)
    ensures SlotSound(t, s2, n) && SlotAt(g, t, s2, tip', n)
  {
    assert Get(s2.slots, n) == ActivatedSlot(g, t, tip', t[f].height, t[tip'].height, n, Get(s0.slots, n));
    assert SlotSound(t, s0, n) && SlotAt(g, t, s0, tip, n);
    if n <= t[tip'].height {
      var a := Anc(g, t, tip', n);
      ReorgHeader(g, t, s0.headers, s1, s2, tip, vi, tip', f, a);
      assert Get(s2.headers, a) == Activated(g, t, tip', t[f].height, t[tip'].height, a, Get(s1.headers, a));
      if n <= t[f].height {
        SharedBelow(g, t, tip, tip', f, n);
      }
    }
  }

  /** After a reorganisation the new branch is the active chain, and the blocks
      validated on it are those it shares with the old one. */
  lemma ReorgStep(g: Header, t: Tree, s0: Store, s1: Store, s2: Store,
                  tip: BlockHash, vi: nat, tip': BlockHash, f: BlockHash)
    requires TreeOk(g, t) && tip in t && tip' in t && vi <= t[tip].height
    requires s0.headers.Keys + {tip'} == t.Keys
    requires PartialStatus(g, t, s0.headers, tip, vi) && SlotsOk(g, t, s0, tip)
    requires IsForkPoint(g, t, s0.headers, tip, tip', f)
    requires s1.slots == s0.slots
    requires DeactivatedTo(g, t, s0.headers, s1.headers, tip, t[f].height)
    requires ActivatedTo(g, t, s1, s2, tip', t[f].height, t[tip'].height)
    ensures StoreOk(g, t, s2, tip', Min(vi, t[f].height))
  {
    ReorgStatus(g, t, s0.headers, s1, s2, tip, vi, tip', f);
    forall n: nat
      ensures SlotSound(t, s2, n) && SlotAt(g, t, s2, tip', n)
    {
      ReorgSlotAt(g, t, s0, s1, s2, tip, vi, tip', f, n);
    }
  }

  /** The accumulator saved for the shared validated block is the right one to go on from. */
  lemma ReorgAccStep(p: Params, t: Tree, s0: Store, s2: Store, tip: BlockHash, vi: nat,
                     tip': BlockHash, f: BlockHash, blocks: Blocks, acc: Stump, acc': Stump)
    requires TreeOk(p.genesis, t) && tip in t && tip' in t && vi <= t[tip].height
    requires OnChain(p.genesis, t, tip, f) && OnChain(p.genesis, t, tip', f)
    requires forall n: nat {:trigger s2.LoadRoots(n)} :: n <= t[f].height ==> s2.LoadRoots(n) == s0.LoadRoots(n)
    requires AccOk(p, t, s0, tip, vi, blocks, acc)
    requires var v := Min(vi, t[f].height);
             if v == 0 then acc' == EMPTY_STUMP else s0.LoadRoots(v) == Some(acc')
    ensures AccOk(p, t, s2, tip', Min(vi, t[f].height), blocks, acc')
  {
    var v := Min(vi, t[f].height);
    forall n: nat | n <= v
      ensures Anc(p.genesis, t, tip, n) == Anc(p.genesis, t, tip', n)
    {
      SharedBelow(p.genesis, t, tip, tip', f, n);
    }
    AncZero(p.genesis, t, tip');
  }

  // ---------- connecting the next block ----------

  /** The store once the pending block at height `n` has been validated and its accumulator saved. */
  ghost function Connected(s: Store, h: Header, n: nat, acc: Stump): Store {
    Saved(s, FullyValid(h, n)).SaveRoots(acc, n)
  }

  lemma ConnectedIs(s: Store, h: Header, n: nat, acc: Stump)
    ensures Connected(s, h, n, acc) ==
            Store(s.headers[h.hash := FullyValid(h, n)],
                  s.slots[n := Slot(FullyValid(h, n), h.hash, Some(acc))])
  {
    SavedIs(s, FullyValid(h, n));
  }

  lemma ConnectStatus(g: Header, t: Tree, hs: Headers, tip: BlockHash, vi: nat, h: Header)
    requires TreeOk(g, t) && tip in t && vi < t[tip].height && StatusOk(g, t, hs, tip, vi)
    requires h.hash == Anc(g, t, tip, vi + 1) && h == t[h.hash].header
    ensures StatusOk(g, t, hs[h.hash := FullyValid(h, vi + 1)], tip, vi + 1)
  {
    var hs' := hs[h.hash := FullyValid(h, vi + 1)];
    forall x | x in hs'
      ensures StateAt(g, t, tip, vi + 1, x, hs'[x])
    {
      assert StateAt(g, t, tip, vi, x, hs[x]);
    }
  }

  lemma ConnectSlots(g: Header, t: Tree, s: Store, tip: BlockHash, n: nat, h: Header, acc: Stump)
    requires TreeOk(g, t) && tip in t && SlotsOk(g, t, s, tip) && n <= t[tip].height
    requires h.hash == Anc(g, t, tip, n) && h == t[h.hash].header
    ensures SlotsOk(g, t, Connected(s, h, n, acc), tip)
  {
    var s' := Connected(s, h, n, acc);
    ConnectedIs(s, h, n, acc);
    forall k: nat
      ensures SlotSound(t, s', k) && SlotAt(g, t, s', tip, k)
    {
      assert SlotSound(t, s, k) && SlotAt(g, t, s, tip, k);
    }
  }

  lemma ConnectStep(g: Header, t: Tree, s: Store, tip: BlockHash, vi: nat, h: Header, acc: Stump)
    requires StoreOk(g, t, s, tip, vi) && vi < t[tip].height
    requires h.hash == Anc(g, t, tip, vi + 1) && h == t[h.hash].header
    ensures StoreOk(g, t, Connected(s, h, vi + 1, acc), tip, vi + 1)
  {
    ConnectStatus(g, t, s.headers, tip, vi, h);
    ConnectSlots(g, t, s, tip, vi + 1, h, acc);
    ConnectedIs(s, h, vi + 1, acc);
  }

  lemma ConnectRoots(p: Params, t: Tree, s: Store, s': Store, tip: BlockHash, vi: nat, blocks: Blocks, b: Block)
    requires TreeOk(p.genesis, t) && tip in t && vi < t[tip].height
    requires RootsSound(p, t, s, tip, vi, blocks)
    requires b.header.hash == Anc(p.genesis, t, tip, vi + 1)
    requires forall n: nat {:trigger s'.LoadRoots(n)} :: n <= vi ==> s'.LoadRoots(n) == s.LoadRoots(n)
    ensures AccOf(p, t, blocks[b.header.hash := b], Anc(p.genesis, t, tip, vi))
         == AccOf(p, t, blocks, Anc(p.genesis, t, tip, vi))
    ensures RootsSound(p, t, s', tip, vi, blocks[b.header.hash := b])
  {
    forall n: nat | n <= vi
      ensures AccOf(p, t, blocks[b.header.hash := b], Anc(p.genesis, t, tip, n))
           == AccOf(p, t, blocks, Anc(p.genesis, t, tip, n))
    {
      AccConnectFrame(p, t, blocks, b, Anc(p.genesis, t, tip, n));
    }
  }

  lemma ConnectTop(p: Params, t: Tree, tip: BlockHash, n: nat, blocks: Blocks, b: Block, acc: Stump)
    requires TreeOk(p.genesis, t) && tip in t && 1 <= n <= t[tip].height
    requires b.header.hash == Anc(p.genesis, t, tip, n)
    requires AccOf(p, t, blocks[b.header.hash := b], Anc(p.genesis, t, tip, n - 1)) == Some(acc)
    ensures AccOf(p, t, blocks[b.header.hash := b], b.header.hash) == p.updateAcc(acc, b, n)
  {
    AncLinked(p.genesis, t, tip, n);
  }

  lemma RootsUp(p: Params, t: Tree, s: Store, tip: BlockHash, vi: nat, blocks: Blocks)
    requires TreeOk(p.genesis, t) && tip in t && vi < t[tip].height
    requires RootsSound(p, t, s, tip, vi, blocks)
    requires AccOf(p, t, blocks, Anc(p.genesis, t, tip, vi + 1)) == s.LoadRoots(vi + 1)
    ensures RootsSound(p, t, s, tip, vi + 1, blocks)
  {
  }

  lemma ConnectAccStep(p: Params, t: Tree, s: Store, tip: BlockHash, vi: nat, blocks: Blocks, acc: Stump,
                       b: Block, acc': Stump)
    requires TreeOk(p.genesis, t) && tip in t && vi < t[tip].height
    requires AccOk(p, t, s, tip, vi, blocks, acc)
    requires b.header.hash == Anc(p.genesis, t, tip, vi + 1)
    requires p.updateAcc(acc, b, vi + 1) == Some(acc')
    ensures AccOk(p, t, Connected(s, b.header, vi + 1, acc'), tip, vi + 1, blocks[b.header.hash := b], acc')
  {
    var s' := Connected(s, b.header, vi + 1, acc');
    ConnectedIs(s, b.header, vi + 1, acc');
    ConnectRoots(p, t, s, s', tip, vi, blocks, b);
    ConnectTop(p, t, tip, vi + 1, blocks, b, acc);
    RootsUp(p, t, s', tip, vi, blocks[b.header.hash := b]);
  }

  // ---------- invalidation ----------

  ghost function Invalidated(g: Header, t: Tree, tip: BlockHash, k: nat, n: nat, x: BlockHash,
                             d: DiskBlockHeader): DiskBlockHeader
    requires TreeOk(g, t) && tip in t
  {
    if OnChain(g, t, tip, x) && k <= t[x].height < n then InvalidChain(t[x].header) else d
  }

  /** Headers of the active chain from height `k` up to, not including, `n` are invalid. */
  ghost predicate InvalidatedTo(g: Header, t: Tree, hs0: Headers, hs: Headers, tip: BlockHash, k: nat, n: nat)
    requires TreeOk(g, t) && tip in t
  {
    && hs.Keys == hs0.Keys
    && forall x {:trigger Invalidated(g, t, tip, k, n, x, hs0[x])} :: x in hs ==>
         hs[x] == Invalidated(g, t, tip, k, n, x, hs0[x])
  }

  lemma ShorterChain(g: Header, t: Tree, tip: BlockHash, k: nat, x: BlockHash)
    requires TreeOk(g, t) && tip in t && k <= t[tip].height
    ensures OnChain(g, t, Anc(g, t, tip, k), x) <==> OnChain(g, t, tip, x) && t[x].height <= k
  {
    if x in t && t[x].height <= k {
      AncTrans(g, t, tip, k, t[x].height);
    }
  }

  lemma InvalidateStatus(g: Header, t: Tree, hs0: Headers, hs: Headers, tip: BlockHash, vi: nat, k: nat)
    requires TreeOk(g, t) && tip in t && StatusOk(g, t, hs0, tip, vi) && vi < k <= t[tip].height + 1
    requires InvalidatedTo(g, t, hs0, hs, tip, k, t[tip].height + 1)
    ensures StatusOk(g, t, hs, Anc(g, t, tip, k - 1), vi)
  {
    forall x | x in hs
      ensures StateAt(g, t, Anc(g, t, tip, k - 1), vi, x, hs[x])
    {
      assert StateAt(g, t, tip, vi, x, hs0[x]);
      assert hs[x] == Invalidated(g, t, tip, k, t[tip].height + 1, x, hs0[x]);
      ShorterChain(g, t, tip, k - 1, x);
    }
  }

  lemma InvalidateSlots(g: Header, t: Tree, s: Store, hs: Headers, tip: BlockHash, k: nat)
    requires TreeOk(g, t) && tip in t && SlotsOk(g, t, s, tip) && 1 <= k <= t[tip].height + 1
    requires InvalidatedTo(g, t, s.headers, hs, tip, k, t[tip].height + 1)
    ensures SlotsOk(g, t, Store(hs, s.slots), Anc(g, t, tip, k - 1))
  {
    var s', tip' := Store(hs, s.slots), Anc(g, t, tip, k - 1);
    forall n: nat
      ensures SlotSound(t, s', n) && SlotAt(g, t, s', tip', n)
    {
      assert SlotSound(t, s, n) && SlotAt(g, t, s, tip, n);
      if n <= k - 1 {
        AncTrans(g, t, tip, k - 1, n);
        var x := Anc(g, t, tip, n);
        assert x in hs ==> hs[x] == Invalidated(g, t, tip, k, t[tip].height + 1, x, s.headers[x]);
      }
    }
  }

  lemma InvalidateStep(g: Header, t: Tree, s: Store, tip: BlockHash, vi: nat, k: nat, hs: Headers)
    requires StoreOk(g, t, s, tip, vi) && vi < k <= t[tip].height + 1
    requires InvalidatedTo(g, t, s.headers, hs, tip, k, t[tip].height + 1)
    ensures StoreOk(g, t, Store(hs, s.slots), Anc(g, t, tip, k - 1), vi)
  {
    InvalidateStatus(g, t, s.headers, hs, tip, vi, k);
    InvalidateSlots(g, t, s, hs, tip, k);
  }

  lemma SameAcc(p: Params, t: Tree, s: Store, tip: BlockHash, vi: nat, k: nat, hs: Headers, blocks: Blocks, acc: Stump)
    requires TreeOk(p.genesis, t) && tip in t && vi <= k <= t[tip].height
    requires AccOk(p, t, s, tip, vi, blocks, acc)
    ensures AccOk(p, t, Store(hs, s.slots), Anc(p.genesis, t, tip, k), vi, blocks, acc)
  {
    var s' := Store(hs, s.slots);
    forall n: nat | n <= vi
      ensures Anc(p.genesis, t, Anc(p.genesis, t, tip, k), n) == Anc(p.genesis, t, tip, n)
      ensures s'.LoadRoots(n) == s.LoadRoots(n)
    {
      AncTrans(p.genesis, t, tip, k, n);
    }
  }

  // ---------- rolling back blocks whose accumulator was lost ----------

  /** Validated headers above height `r` that have become pending again are validated no more. */
  lemma RollbackStep(g: Header, t: Tree, s0: Store, s: Store, tip: BlockHash, r: nat, vi: nat)
    requires StoreOk(g, t, s0, tip, vi) && r <= vi
    requires ActivatedTo(g, t, s0, s, tip, r, vi)
    ensures StoreOk(g, t, s, tip, r)
  {
    forall x
      ensures x in s.headers <==> x in t
      ensures x in s.headers ==> StateAt(g, t, tip, r, x, s.headers[x])
    {
      assert Get(s.headers, x) == Activated(g, t, tip, r, vi, x, Get(s0.headers, x));
      assert x in s0.headers ==> StateAt(g, t, tip, vi, x, s0.headers[x]);
    }
    forall n: nat
      ensures SlotSound(t, s, n) && SlotAt(g, t, s, tip, n)
    {
      RollbackSlotAt(g, t, s0, s, tip, r, vi, n);
    }
  }

  lemma RollbackSlotAt(g: Header, t: Tree, s0: Store, s: Store, tip: BlockHash, r: nat, vi: nat, n: nat)
    requires StoreOk(g, t, s0, tip, vi) && r <= vi
    requires ActivatedTo(g, t, s0, s, tip, r, vi)
    ensures SlotSound(t, s, n) && SlotAt(g, t, s, tip, n)
  {
    assert SlotSound(t, s0, n) && SlotAt(g, t, s0, tip, n);
    assert Get(s.slots, n) == ActivatedSlot(g, t, tip, r, vi, n, Get(s0.slots, n));
    if n <= t[tip].height {
      var x := Anc(g, t, tip, n);
      assert Get(s.headers, x) == Activated(g, t, tip, r, vi, x, Get(s0.headers, x));
    }
  }

  lemma RollbackAccStep(p: Params, t: Tree, s0: Store, s: Store, tip: BlockHash, r: nat, vi: nat,
                        blocks: Blocks, acc: Stump)
    requires TreeOk(p.genesis, t) && tip in t && 1 <= r <= vi <= t[tip].height
    requires RootsSound(p, t, s0, tip, vi, blocks)
    requires s0.LoadRoots(r) == Some(acc)
    requires ActivatedTo(p.genesis, t, s0, s, tip, r, vi)
    ensures AccOk(p, t, s, tip, r, blocks, acc)
  {
    forall n: nat | n <= r
      ensures s.LoadRoots(n) == s0.LoadRoots(n)
    {
      assert Get(s.slots, n) == ActivatedSlot(p.genesis, t, tip, r, vi, n, Get(s0.slots, n));
    }
  }

  // ---------- single steps of the marking loops ----------

  lemma DeactivateOne(g: Header, t: Tree, hs0: Headers, hs: Headers, tip: BlockHash, n: nat)
    requires TreeOk(g, t) && tip in t && 1 <= n <= t[tip].height
    requires DeactivatedTo(g, t, hs0, hs, tip, n) && Anc(g, t, tip, n) in hs0
    ensures var x := Anc(g, t, tip, n);
            DeactivatedTo(g, t, hs0, hs[x := InFork(t[x].header, n)], tip, n - 1)
  {
    var x := Anc(g, t, tip, n);
    var hs' := hs[x := InFork(t[x].header, n)];
    forall y | y in hs'
      ensures hs'[y] == Deactivated(g, t, tip, n - 1, y, hs0[y])
    {
      assert hs[y] == Deactivated(g, t, tip, n, y, hs0[y]);
    }
  }

  /** Activation one height further down. */
  lemma ActivateOne(g: Header, t: Tree, s0: Store, s: Store, tip: BlockHash, n: nat, hi: nat)
    requires TreeOk(g, t) && tip in t && 1 <= n <= hi <= t[tip].height
    requires ActivatedTo(g, t, s0, s, tip, n, hi)
    ensures ActivatedTo(g, t, s0, Saved(s, HeadersOnly(t[Anc(g, t, tip, n)].header, n)), tip, n - 1, hi)
  {
    var a := Anc(g, t, tip, n);
    var s' := Saved(s, HeadersOnly(t[a].header, n));
    SavedIs(s, HeadersOnly(t[a].header, n));
    forall x
      ensures Get(s'.headers, x) == Activated(g, t, tip, n - 1, hi, x, Get(s0.headers, x))
    {
      assert Get(s.headers, x) == Activated(g, t, tip, n, hi, x, Get(s0.headers, x));
    }
    forall k: nat
      ensures Get(s'.slots, k) == ActivatedSlot(g, t, tip, n - 1, hi, k, Get(s0.slots, k))
    {
      assert Get(s.slots, k) == ActivatedSlot(g, t, tip, n, hi, k, Get(s0.slots, k));
    }
  }

  /** Activation one height further up. */
  lemma RollbackOne(g: Header, t: Tree, s0: Store, s: Store, tip: BlockHash, r: nat, m: nat)
    requires TreeOk(g, t) && tip in t && r <= m < t[tip].height
    requires ActivatedTo(g, t, s0, s, tip, r, m)
    ensures ActivatedTo(g, t, s0, s.SaveHeader(HeadersOnly(t[Anc(g, t, tip, m + 1)].header, m + 1)), tip, r, m + 1)
  {
    var a := Anc(g, t, tip, m + 1);
    var s' := s.SaveHeader(HeadersOnly(t[a].header, m + 1));
    forall x
      ensures Get(s'.headers, x) == Activated(g, t, tip, r, m + 1, x, Get(s0.headers, x))
    {
      assert Get(s.headers, x) == Activated(g, t, tip, r, m, x, Get(s0.headers, x));
    }
    forall k: nat
      ensures Get(s'.slots, k) == ActivatedSlot(g, t, tip, r, m + 1, k, Get(s0.slots, k))
    {
      assert Get(s.slots, k) == ActivatedSlot(g, t, tip, r, m, k, Get(s0.slots, k));
    }
  }

  lemma InvalidateOne(g: Header, t: Tree, hs0: Headers, hs: Headers, tip: BlockHash, k: nat, n: nat)
    requires TreeOk(g, t) && tip in t && k <= n <= t[tip].height
    requires InvalidatedTo(g, t, hs0, hs, tip, k, n) && Anc(g, t, tip, n) in hs0
    ensures var x := Anc(g, t, tip, n);
            InvalidatedTo(g, t, hs0, hs[x := InvalidChain(t[x].header)], tip, k, n + 1)
  {
    var x := Anc(g, t, tip, n);
    var hs' := hs[x := InvalidChain(t[x].header)];
    forall y | y in hs'
      ensures hs'[y] == Invalidated(g, t, tip, k, n + 1, y, hs0[y])
    {
      assert hs[y] == Invalidated(g, t, tip, k, n, y, hs0[y]);
    }
  }
}
