/**
  The tree of all headers ever accepted. It only grows, so ancestry and
  cumulative work are stated once here and never disturbed by a reorganisation.
 */
module BlockTree {
  import opened Prelude
  import opened ChainTypes

  datatype Node = Node(header: Header, height: nat)

  type Tree = map<BlockHash, Node>

  ghost function Parent(t: Tree, x: BlockHash): BlockHash
    requires x in t
  {
    t[x].header.prev
  }

  /** `g` is the root, without a parent, and every other node hangs one height
      below a known parent. */
  ghost predicate TreeOk(g: Header, t: Tree) {
    && g.hash in t && t[g.hash] == Node(g, 0) && g.prev !in t
    && (forall x :: x in t ==> t[x].header.hash == x)
    && (forall x {:trigger Parent(t, x)} :: x in t && x != g.hash ==>
          Parent(t, x) in t && t[x].height == t[Parent(t, x)].height + 1)
  }

  /** The ancestor of `x` at height `n`, reached by following previous hashes. */
  ghost function Anc(g: Header, t: Tree, x: BlockHash, n: nat): (a: BlockHash)
    requires TreeOk(g, t) && x in t && n <= t[x].height
    ensures a in t && t[a].height == n
    decreases t[x].height
  {
    if t[x].height == n then x else Anc(g, t, Parent(t, x), n)
  }

  lemma {:induction false} AncTrans(g: Header, t: Tree, x: BlockHash, m: nat, n: nat)
    requires TreeOk(g, t) && x in t && n <= m <= t[x].height
    ensures Anc(g, t, Anc(g, t, x, m), n) == Anc(g, t, x, n)
    decreases t[x].height
  {
    if t[x].height != m {
      AncTrans(g, t, Parent(t, x), m, n);
    }
  }

  /** Neighbouring ancestors are linked by previous hash. */
  lemma AncLinked(g: Header, t: Tree, x: BlockHash, n: nat)
    requires TreeOk(g, t) && x in t && 1 <= n <= t[x].height
    ensures Parent(t, Anc(g, t, x, n)) == t[Anc(g, t, x, n)].header.prev == Anc(g, t, x, n - 1)
  {
    AncTrans(g, t, x, n, n - 1);
  }

  lemma {:induction false} AncZero(g: Header, t: Tree, x: BlockHash)
    requires TreeOk(g, t) && x in t
    ensures Anc(g, t, x, 0) == g.hash
    decreases t[x].height
  {
    if x != g.hash {
      AncZero(g, t, Parent(t, x));
    }
  }

  /** `x` is `tip` or one of its ancestors. */
  ghost predicate OnChain(g: Header, t: Tree, tip: BlockHash, x: BlockHash)
    requires TreeOk(g, t) && tip in t
  {
    x in t && t[x].height <= t[tip].height && Anc(g, t, tip, t[x].height) == x
  }

  /** A chain is closed downwards. */
  lemma OnChainDown(g: Header, t: Tree, tip: BlockHash, x: BlockHash, n: nat)
    requires TreeOk(g, t) && tip in t && OnChain(g, t, tip, x) && n <= t[x].height
    ensures Anc(g, t, x, n) == Anc(g, t, tip, n)
    ensures OnChain(g, t, tip, Anc(g, t, x, n))
  {
    AncTrans(g, t, tip, t[x].height, n);
  }

  /** Different headers of one chain have different heights. */
  lemma OnChainDistinct(g: Header, t: Tree, tip: BlockHash, x: BlockHash, y: BlockHash)
    requires TreeOk(g, t) && tip in t && OnChain(g, t, tip, x) && OnChain(g, t, tip, y) && x != y
    ensures t[x].height != t[y].height
  {
  }

  ghost function CumWork(g: Header, work: nat -> nat, t: Tree, x: BlockHash): nat
    requires TreeOk(g, t) && x in t
    decreases t[x].height
  {
    work(t[x].header.bits) + if x == g.hash then 0 else CumWork(g, work, t, Parent(t, x))
  }

  /** The tree after header `h`, whose parent is known, has been added. */
  ghost function Extend(t: Tree, h: Header): Tree
    requires h.prev in t
  {
    t[h.hash := Node(h, t[h.prev].height + 1)]
  }

  lemma ExtendOk(g: Header, t: Tree, h: Header)
    requires TreeOk(g, t) && h.prev in t && h.hash !in t && h.hash != g.prev
    ensures TreeOk(g, Extend(t, h))
  {
    var t' := Extend(t, h);
    forall x | x in t' && x != g.hash
      ensures Parent(t', x) in t' && t'[x].height == t'[Parent(t', x)].height + 1
    {
      if x != h.hash {
        assert Parent(t', x) == Parent(t, x);
      }
    }
  }

  lemma {:induction false} ExtendAnc(g: Header, t: Tree, h: Header, x: BlockHash, n: nat)
    requires TreeOk(g, t) && h.prev in t && h.hash !in t && TreeOk(g, Extend(t, h))
    requires x in t && n <= t[x].height
    ensures Anc(g, Extend(t, h), x, n) == Anc(g, t, x, n)
    decreases t[x].height
  {
    if t[x].height != n {
      ExtendAnc(g, t, h, Parent(t, x), n);
    }
  }

  lemma {:induction false} ExtendWork(g: Header, work: nat -> nat, t: Tree, h: Header, x: BlockHash)
    requires TreeOk(g, t) && h.prev in t && h.hash !in t && TreeOk(g, Extend(t, h))
    requires x in t
    ensures CumWork(g, work, Extend(t, h), x) == CumWork(g, work, t, x)
    decreases t[x].height
  {
    if x != g.hash {
      ExtendWork(g, work, t, h, Parent(t, x));
    }
  }

  /** Adding a header changes neither ancestry nor work of the headers already there. */
  lemma ExtendOnChain(g: Header, t: Tree, h: Header, tip: BlockHash, x: BlockHash)
    requires TreeOk(g, t) && h.prev in t && h.hash !in t && TreeOk(g, Extend(t, h))
    requires tip in t
    ensures OnChain(g, Extend(t, h), tip, x) <==> OnChain(g, t, tip, x)
  {
    var t' := Extend(t, h);
    if x in t && t[x].height <= t[tip].height {
      ExtendAnc(g, t, h, tip, t[x].height);
    }
    if x == h.hash && t'[x].height <= t[tip].height {
      ExtendAnc(g, t, h, tip, t'[x].height);
    }
  }

  // ---------- work along a chain, epoch by epoch ----------

  /** Within a retarget period every header repeats the bits of its parent. */
  ghost predicate EpochBits(g: Header, t: Tree)
    requires TreeOk(g, t)
  {
    forall x {:trigger Parent(t, x)} :: x in t && !RetargetHeight(t[x].height) ==>
      t[x].header.bits == t[Parent(t, x)].header.bits
  }

  lemma InsideEpoch(s: nat, n: nat)
    requires RetargetHeight(s) && s < n < s + RETARGET_INTERVAL
    ensures !RetargetHeight(n)
  {
  }

  lemma EpochStep(g: Header, t: Tree, tip: BlockHash, n: nat)
    requires TreeOk(g, t) && tip in t && EpochBits(g, t)
    requires 1 <= n <= t[tip].height && !RetargetHeight(n)
    ensures t[Anc(g, t, tip, n)].header.bits == t[Anc(g, t, tip, n - 1)].header.bits
  {
    AncLinked(g, t, tip, n);
  }

  /** The header at height `n` has the bits of the first header of its period. */
  lemma {:induction false} EpochConstant(g: Header, t: Tree, tip: BlockHash, s: nat, n: nat)
    requires TreeOk(g, t) && tip in t && EpochBits(g, t)
    requires RetargetHeight(s) && s <= n < s + RETARGET_INTERVAL && n <= t[tip].height
    ensures t[Anc(g, t, tip, n)].header.bits == t[Anc(g, t, tip, s)].header.bits
    decreases n
  {
    if n != s {
      InsideEpoch(s, n);
      EpochStep(g, t, tip, n);
      EpochConstant(g, t, tip, s, n - 1);
    }
  }

  /** Cumulative work of the first `n` headers of the chain ending at `tip`. */
  ghost function PrefixWork(g: Header, work: nat -> nat, t: Tree, tip: BlockHash, n: nat): nat
    requires TreeOk(g, t) && tip in t && n <= t[tip].height + 1
  {
    if n == 0 then 0 else CumWork(g, work, t, Anc(g, t, tip, n - 1))
  }

  lemma PrefixStep(g: Header, work: nat -> nat, t: Tree, tip: BlockHash, n: nat)
    requires TreeOk(g, t) && tip in t && n <= t[tip].height
    ensures PrefixWork(g, work, t, tip, n + 1) ==
            PrefixWork(g, work, t, tip, n) + work(t[Anc(g, t, tip, n)].header.bits)
  {
    if n == 0 {
      AncZero(g, t, tip);
    } else {
      AncLinked(g, t, tip, n);
    }
  }

  /** `k` times the work `w`. */
  ghost function Times(w: nat, k: nat): nat {
    if k == 0 then 0 else Times(w, k - 1) + w
  }

  lemma {:induction false} TimesIsProduct(w: nat, k: nat)
    ensures Times(w, k) == w * k
  {
    if k != 0 {
      TimesIsProduct(w, k - 1);
    }
  }

  /** A run of `k` headers with equal bits, from height `s`. */
  lemma {:induction false} SameBitsWork(g: Header, work: nat -> nat, t: Tree, tip: BlockHash, s: nat, k: nat, b: nat)
    requires TreeOk(g, t) && tip in t && s + k <= t[tip].height + 1
    requires forall n :: s <= n < s + k ==> t[Anc(g, t, tip, n)].header.bits == b
    ensures PrefixWork(g, work, t, tip, s + k) == PrefixWork(g, work, t, tip, s) + Times(work(b), k)
    decreases k
  {
    if k != 0 {
      SameBitsWork(g, work, t, tip, s, k - 1, b);
      PrefixStep(g, work, t, tip, s + k - 1);
    }
  }

  /** One multiplication per period gives the same sum as adding header by header. */
  lemma EpochWork(g: Header, work: nat -> nat, t: Tree, tip: BlockHash, s: nat, k: nat)
    requires TreeOk(g, t) && tip in t && EpochBits(g, t)
    requires RetargetHeight(s) && k <= RETARGET_INTERVAL && s + k <= t[tip].height + 1 && s <= t[tip].height
    ensures PrefixWork(g, work, t, tip, s + k) ==
            PrefixWork(g, work, t, tip, s) + Times(work(t[Anc(g, t, tip, s)].header.bits), k)
  {
    var b := t[Anc(g, t, tip, s)].header.bits;
    forall n | s <= n < s + k
      ensures t[Anc(g, t, tip, n)].header.bits == b
    {
      EpochConstant(g, t, tip, s, n);
    }
    SameBitsWork(g, work, t, tip, s, k, b);
  }
}
