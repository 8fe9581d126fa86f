/**
  When the work shortcut, one multiplication per retarget period, is the cumulative
  work: an exact condition for every chain, and a chain that fails it.
 */
module WorkShortcut {
  import opened Prelude
  import opened ChainTypes
  import opened BlockTree
  import opened ChainInvariants
  import opened ChainWalks

  /** The first height of the period of height `n`, looked for from `s` on. */
  ghost function PeriodStart(s: nat, n: nat): (r: nat)
    requires s <= n && RetargetHeight(s)
    ensures s <= r <= n < r + RETARGET_INTERVAL && RetargetHeight(r)
    decreases n - s
  {
    if s + RETARGET_INTERVAL <= n then
      assert RetargetHeight(s + RETARGET_INTERVAL) by { NextEpoch(s); }
      PeriodStart(s + RETARGET_INTERVAL, n)
    else s
  }

  /** The work of the first header of the period of `x`, on the chain of `x`. */
  ghost function PeriodWork(p: Params, t: Tree, x: BlockHash, s: nat): nat
    requires TreeOk(p.genesis, t) && x in t && s <= t[x].height && RetargetHeight(s)
  {
    p.work(t[Anc(p.genesis, t, x, PeriodStart(s, t[x].height))].header.bits)
  }

  lemma OneTime(w: nat)
    ensures Times(w, 1) == w
  {
    assert Times(w, 0) == 0;
  }

  /** A full period counts the same for a header and its parent. */
  lemma FullPeriod(p: Params, t: Tree, x: BlockHash, s: nat)
    requires TreeOk(p.genesis, t) && x in t && x != p.genesis.hash && s + RETARGET_INTERVAL <= t[x].height
    ensures Parent(t, x) in t && t[x].height == t[Parent(t, x)].height + 1
    ensures EpochProduct(p, t, x, s) == EpochProduct(p, t, Parent(t, x), s)
  {
    assert EpochCount(s, t[x].height) == EpochCount(s, t[Parent(t, x)].height) == RETARGET_INTERVAL;
  }

  /** In the last period each header adds the work of the first one. */
  lemma LastPeriod(p: Params, t: Tree, x: BlockHash, s: nat)
    requires TreeOk(p.genesis, t) && x in t && x != p.genesis.hash && s <= t[x].height < s + RETARGET_INTERVAL
    ensures Parent(t, x) in t && t[x].height == t[Parent(t, x)].height + 1
    ensures ShortcutWork(p, t, x, s) ==
            ShortcutWork(p, t, Parent(t, x), s) + p.work(t[Anc(p.genesis, t, x, s)].header.bits)
  {
    var w := p.work(t[Anc(p.genesis, t, x, s)].header.bits);
    LastEpoch(p, t, x, s);
    if s == t[x].height {
      OneTime(w);
    } else {
      LastEpoch(p, t, Parent(t, x), s);
      assert EpochCount(s, t[x].height) == EpochCount(s, t[Parent(t, x)].height) + 1;
    }
  }

  /** The shortcut of a header exceeds that of its parent by the work of the first header of its period. */
  lemma {:induction false} ShortcutStep(p: Params, t: Tree, x: BlockHash, s: nat)
    requires TreeOk(p.genesis, t) && x in t && x != p.genesis.hash && s <= t[x].height && RetargetHeight(s)
    ensures Parent(t, x) in t
    ensures ShortcutWork(p, t, x, s) == ShortcutWork(p, t, Parent(t, x), s) + PeriodWork(p, t, x, s)
    decreases t[x].height - s
  {
    if s + RETARGET_INTERVAL <= t[x].height {
      FullPeriod(p, t, x, s);
      NextEpoch(s);
      ShortcutStep(p, t, x, s + RETARGET_INTERVAL);
    } else {
      LastPeriod(p, t, x, s);
    }
  }

  // ---------- the condition ----------

  /** The header has the work of the first header of its period. */
  ghost predicate SameWork(p: Params, t: Tree, x: BlockHash)
    requires TreeOk(p.genesis, t) && x in t
  {
    p.work(t[x].header.bits) == PeriodWork(p, t, x, 0)
  }

  ghost predicate SameWorkBelow(p: Params, t: Tree, x: BlockHash)
    requires TreeOk(p.genesis, t) && x in t
    decreases t[x].height
  {
    SameWork(p, t, x) && (x == p.genesis.hash || SameWorkBelow(p, t, Parent(t, x)))
  }

  ghost predicate Exact(p: Params, t: Tree, x: BlockHash)
    requires TreeOk(p.genesis, t) && x in t
  {
    ShortcutWork(p, t, x, 0) == CumWork(p.genesis, p.work, t, x)
  }

  ghost predicate ExactBelow(p: Params, t: Tree, x: BlockHash)
    requires TreeOk(p.genesis, t) && x in t
    decreases t[x].height
  {
    Exact(p, t, x) && (x == p.genesis.hash || ExactBelow(p, t, Parent(t, x)))
  }

  lemma GenesisExact(p: Params, t: Tree)
    requires TreeOk(p.genesis, t)
    ensures Exact(p, t, p.genesis.hash) && SameWork(p, t, p.genesis.hash)
  {
    LastEpoch(p, t, p.genesis.hash, 0);
    OneTime(p.work(p.genesis.bits));
  }

  /** For every chain: the shortcut is the cumulative work at the tip and at all its ancestors if and only if each of
      them has the work of the first header of its period. */
  lemma {:induction false} ShortcutExactly(p: Params, t: Tree, x: BlockHash)
    requires TreeOk(p.genesis, t) && x in t
    ensures ExactBelow(p, t, x) <==> SameWorkBelow(p, t, x)
    decreases t[x].height
  {
    if x == p.genesis.hash {
      GenesisExact(p, t);
    } else {
      ShortcutStep(p, t, x, 0);
      ShortcutExactly(p, t, Parent(t, x));
      assert ExactBelow(p, t, Parent(t, x)) ==> Exact(p, t, Parent(t, x));
    }
  }

  /** Then it is at every block of the chain. */
  lemma {:induction false} ExactOnChain(p: Params, t: Tree, x: BlockHash, f: BlockHash)
    requires TreeOk(p.genesis, t) && x in t && ExactBelow(p, t, x) && OnChain(p.genesis, t, x, f)
    ensures Exact(p, t, f)
    decreases t[x].height
  {
    if x != f {
      OnChainParent(p.genesis, t, x, f);
      ExactOnChain(p, t, Parent(t, x), f);
    }
  }

  lemma OnChainParent(g: Header, t: Tree, x: BlockHash, f: BlockHash)
    requires TreeOk(g, t) && x in t && OnChain(g, t, x, f) && x != f
    ensures x != g.hash && Parent(t, x) in t && OnChain(g, t, Parent(t, x), f)
  {
    AncZero(g, t, x);
  }

  /** Constant bits within each period are enough. */
  lemma {:induction false} BitsSameWork(p: Params, t: Tree, x: BlockHash)
    requires TreeOk(p.genesis, t) && x in t && EpochBits(p.genesis, t)
    ensures SameWorkBelow(p, t, x)
  {
    BitsExact(p, t, x);
    ShortcutExactly(p, t, x);
  }

  lemma {:induction false} BitsExact(p: Params, t: Tree, x: BlockHash)
    requires TreeOk(p.genesis, t) && x in t && EpochBits(p.genesis, t)
    ensures ExactBelow(p, t, x)
    decreases t[x].height
  {
    ShortcutWorkExact(p, t, x);
    if x != p.genesis.hash {
      BitsExact(p, t, Parent(t, x));
    }
  }

  // ---------- a chain that fails it ----------

  /** A minimum-difficulty header, late enough after its parent, is valid, and the shortcut is wrong at it whenever it
      was right before and the period started with another work. */
  lemma MinDifficultyBreaks(p: Params, t: Tree, h: Header)
    requires TreeOk(p.genesis, t) && h.prev in t && h.hash !in t && h.hash != p.genesis.prev && Exact(p, t, h.prev)
    requires p.allowMinDifficulty && !RetargetHeight(t[h.prev].height + 1)
    requires t[h.prev].header.time + 2 * p.targetSpacing < h.time && h.bits == p.compact(p.maxTarget)
    requires p.powOk(h) && h.version >= p.minVersion(t[h.prev].height + 1)
    ensures HeaderValid(p, t, h) && TreeOk(p.genesis, Extend(t, h))
    ensures Exact(p, Extend(t, h), h.hash) <==> SameWork(p, Extend(t, h), h.hash)
  {
    var t' := Extend(t, h);
    ExtendOk(p.genesis, t, h);
    assert Parent(t', h.hash) == h.prev;
    ShortcutStep(p, t', h.hash, 0);
    ExtendWork(p.genesis, p.work, t, h, h.prev);
    ExtendShortcut(p, t, h, h.prev, 0);
  }

  lemma {:induction false} ExtendShortcut(p: Params, t: Tree, h: Header, x: BlockHash, s: nat)
    requires TreeOk(p.genesis, t) && h.prev in t && h.hash !in t && TreeOk(p.genesis, Extend(t, h)) && x in t
    ensures ShortcutWork(p, Extend(t, h), x, s) == ShortcutWork(p, t, x, s)
    decreases t[x].height + 1 - s
  {
    if s <= t[x].height {
      ExtendAnc(p.genesis, t, h, x, s);
      ExtendShortcut(p, t, h, x, s + RETARGET_INTERVAL);
    }
  }

  /** A network on which bits are their own work and target, with work 1 as the minimum. */
  function ExampleParams(): Params {
    Params(Header(1, 0, 7, 0, 0), true, false, false, 600, 1,
           _ => true, b => b, b => b, b => b, (_, _) => 1, (_, _) => true, _ => 0, (_, _, _) => None)
  }

  /** There, a header half an hour after genesis is valid, and the shortcut counts 14 where the work is 8. */
  lemma MinDifficultyExample()
    ensures var p := ExampleParams();
            var h := Header(2, 1, 1, 1800, 0);
            var t := map[1 := Node(p.genesis, 0)];
            && p.CompactOk() && TreeOk(p.genesis, t) && TreeOk(p.genesis, Extend(t, h)) && HeaderValid(p, t, h)
            && ShortcutWork(p, Extend(t, h), 2, 0) == 14 && CumWork(p.genesis, p.work, Extend(t, h), 2) == 8
  {
    var p := ExampleParams();
    var h := Header(2, 1, 1, 1800, 0);
    var t := map[1 := Node(p.genesis, 0)];
    var t' := Extend(t, h);
    assert t'[2] == Node(h, 1);
    assert Parent(t', 2) == 1;
    assert PeriodStart(0, 1) == 0;
    ShortcutStep(p, t', 2, 0);
    GenesisExact(p, t');
  }
}
