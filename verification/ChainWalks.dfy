/**
  The loops of `ChainState` that only read the store: walks along previous
  hashes and their shortcuts through the height index. `t` is the tree of
  accepted headers and appears in specifications only.
 */
module ChainWalks {
  import opened Prelude
  import opened ChainTypes
  import opened BlockTree
  import opened ChainInvariants

  /** `tip` is a node of the tree the store is backed by. It need not be stored itself. */
  ghost predicate Known(g: Header, t: Tree, hs: Headers, tip: Header) {
    && TreeOk(g, t)
    && Backed(g, t, hs)
    && tip.hash in t
    && t[tip.hash].header == tip
  }

  /** The walk back from `tip` has reached `header`. */
  ghost predicate Walked(g: Header, t: Tree, hs: Headers, tip: Header, header: Header)
    requires Known(g, t, hs, tip)
  {
    && header.hash in t
    && t[header.hash].header == header
    && OnChain(g, t, tip.hash, header.hash)
    && (header == tip || header.hash in hs)
  }

  /** One step back along the previous hash. */
  lemma StepBack(g: Header, t: Tree, hs: Headers, tip: Header, header: Header)
    requires Known(g, t, hs, tip) && Walked(g, t, hs, tip, header) && header.hash != g.hash
    ensures t[header.hash].height >= 1 && header.prev in t && t[header.prev].height == t[header.hash].height - 1
    ensures header.prev == Parent(t, header.hash) == Anc(g, t, tip.hash, t[header.hash].height - 1)
    ensures header.prev in hs ==>
              hs[header.prev].header.hash == header.prev && Walked(g, t, hs, tip, hs[header.prev].header)
    ensures header.hash in hs ==> header.prev in hs
  {
    assert header.prev == Parent(t, header.hash);
    assert BackedAt(g, t, hs, header.hash) && BackedAt(g, t, hs, header.prev);
    AncLinked(g, t, tip.hash, t[header.hash].height);
    AncTrans(g, t, tip.hash, t[header.hash].height, t[header.hash].height - 1);
  }

  lemma StoredNode(g: Header, t: Tree, hs: Headers, x: BlockHash)
    requires TreeOk(g, t) && Backed(g, t, hs) && x in hs
    ensures x in t && hs[x].header == t[x].header && hs[x].header.hash == x
    ensures hs[x].Height().Some? ==> hs[x].height == t[x].height
    ensures x != g.hash ==> Parent(t, x) in hs
  {
    assert BackedAt(g, t, hs, x);
  }

  /** Accepts a branch exactly when no strict ancestor of its tip is missing or an orphan. */
  method CheckBranch(g: Header, hs: Headers, tip: Header, ghost t: Tree) returns (r: Result<(), Error>)
    requires Known(g, t, hs, tip)
    ensures r.Ok? <==> (tip == g || tip.prev in hs) &&
                       forall k: nat :: k < t[tip.hash].height ==>
                         Anc(g, t, tip.hash, k) in hs && !hs[Anc(g, t, tip.hash, k)].Orphan?
    ensures r.Err? ==> r.error == if tip.prev in hs then InvalidTip else BlockNotPresent
  {
    var header := tip;
    while header.hash != g.hash
      invariant Walked(g, t, hs, tip, header)
      invariant header == tip || tip.prev in hs
      invariant forall k: nat :: t[header.hash].height <= k < t[tip.hash].height ==>
                  Anc(g, t, tip.hash, k) in hs && !hs[Anc(g, t, tip.hash, k)].Orphan?
      decreases t[header.hash].height
    {
      StepBack(g, t, hs, tip, header);
      if header.prev !in hs {
        return Err(BlockNotPresent);
      }
      var ancestor := hs[header.prev];
      if ancestor.Orphan? {
        return Err(InvalidTip);
      }
      header := ancestor.header;
    }
    return Ok(());
  }

  /** Counts the blocks of a branch: its tip's height. */
  method GetChainDepth(g: Header, hs: Headers, tip: Header, ghost t: Tree) returns (r: Result<nat, Error>)
    requires Known(g, t, hs, tip)
    ensures r == if tip == g || tip.prev in hs then Ok(t[tip.hash].height) else Err(BlockNotPresent)
  {
    var header := tip;
    var counter := 0;
    while header.hash != g.hash
      invariant Walked(g, t, hs, tip, header)
      invariant header == tip || tip.prev in hs
      invariant counter + t[header.hash].height == t[tip.hash].height
      decreases t[header.hash].height
    {
      StepBack(g, t, hs, tip, header);
      if header.prev !in hs {
        return Err(BlockNotPresent);
      }
      header := hs[header.prev].header;
      counter := counter + 1;
    }
    return Ok(counter);
  }

  /** All strict ancestors of `tip` above height `n` are stored as forks. */
  ghost predicate ForksAbove(g: Header, t: Tree, hs: Headers, tip: BlockHash, n: nat)
    requires TreeOk(g, t) && tip in t
  {
    forall k: nat :: n < k < t[tip].height ==>
      Anc(g, t, tip, k) in hs && hs[Anc(g, t, tip, k)].InFork?
  }

  /** `tip` branches off above genesis: some strict ancestor other than genesis is in
      an active state, with only forks between them. */
  ghost predicate HasForkPoint(g: Header, t: Tree, hs: Headers, tip: BlockHash)
    requires TreeOk(g, t) && tip in t
  {
    exists n: nat :: 1 <= n < t[tip].height && Anc(g, t, tip, n) in hs &&
                     hs[Anc(g, t, tip, n)].MainChain() && ForksAbove(g, t, hs, tip, n)
  }

  lemma NoForkPoint(g: Header, t: Tree, hs: Headers, tip: Header)
    requires Known(g, t, hs, tip) && tip.prev !in hs
    ensures !HasForkPoint(g, t, hs, tip.hash)
  {
    if 1 <= t[tip.hash].height {
      AncLinked(g, t, tip.hash, t[tip.hash].height);
      assert tip.prev == Anc(g, t, tip.hash, t[tip.hash].height - 1);
    }
  }

  /** A walk through forks that ends at a header neither active nor a fork, or at
      genesis, shows that there is no fork point. */
  lemma {:induction false} BlockedForkPoint(g: Header, t: Tree, hs: Headers, tip: Header, n: nat)
    requires Known(g, t, hs, tip) && n < t[tip.hash].height
    requires ForksAbove(g, t, hs, tip.hash, n)
    requires var a := Anc(g, t, tip.hash, n); n == 0 || (a in hs && (hs[a].Orphan? || hs[a].InvalidChain?))
    ensures !HasForkPoint(g, t, hs, tip.hash)
  {
  }

  lemma ForksDown(g: Header, t: Tree, hs: Headers, tip: BlockHash, n: nat)
    requires TreeOk(g, t) && tip in t && 1 <= n <= t[tip].height && ForksAbove(g, t, hs, tip, n)
    requires n == t[tip].height || (Anc(g, t, tip, n) in hs && hs[Anc(g, t, tip, n)].InFork?)
    ensures ForksAbove(g, t, hs, tip, n - 1)
  {
  }

  /** Finds where a branch leaves the active chain. The walk stops in front of genesis,
      so a branch from genesis itself has no fork point. */
  method FindForkPoint(g: Header, hs: Headers, tip: Header, ghost t: Tree) returns (r: Result<Header, Error>)
    requires Known(g, t, hs, tip)
    ensures r.Ok? <==> HasForkPoint(g, t, hs, tip.hash)
    ensures r.Ok? ==>
              var f := r.value.hash;
              && f in hs && f in t && t[f].header == r.value && hs[f].MainChain()
              && 1 <= t[f].height < t[tip.hash].height && OnChain(g, t, tip.hash, f)
              && ForksAbove(g, t, hs, tip.hash, t[f].height)
    ensures r.Err? ==> r.error == if tip.prev in hs then InvalidTip else BlockNotPresent
  {
    if tip.prev !in hs {
      NoForkPoint(g, t, hs, tip);
      return Err(BlockNotPresent);
    }
    StoredNode(g, t, hs, tip.prev);
    StepBack(g, t, hs, tip, tip);
    var header := hs[tip.prev].header;
    while header.hash != g.hash
      invariant Walked(g, t, hs, tip, header) && header.hash in hs
      invariant t[header.hash].height < t[tip.hash].height
      invariant ForksAbove(g, t, hs, tip.hash, t[header.hash].height)
      decreases t[header.hash].height
    {
      StepBack(g, t, hs, tip, header);
      StoredNode(g, t, hs, header.hash);
      ghost var n := t[header.hash].height;
      match hs[header.hash] {
        case HeadersOnly(block, _) => return Ok(block);
        case FullyValid(block, _) => return Ok(block);
        case AssumedValid(block, _) => return Ok(block);
        case InFork(block, _) =>
          ForksDown(g, t, hs, tip.hash, n);
          header := hs[block.prev].header;
        case Orphan(_) =>
          BlockedForkPoint(g, t, hs, tip, n);
          return Err(InvalidTip);
        case InvalidChain(_) =>
          BlockedForkPoint(g, t, hs, tip, n);
          return Err(InvalidTip);
      }
    }
    BlockedForkPoint(g, t, hs, tip, 0);
    return Err(InvalidTip);
  }

  /** No strict ancestor of `tip` above height `n` has been validated or rejected. */
  ghost predicate PendingAbove(g: Header, t: Tree, hs: Headers, tip: BlockHash, n: nat)
    requires TreeOk(g, t) && tip in t
  {
    forall k: nat :: n < k < t[tip].height ==>
      Anc(g, t, tip, k) in hs && (hs[Anc(g, t, tip, k)].InFork? || hs[Anc(g, t, tip, k)].HeadersOnly?)
  }

  lemma PendingDown(g: Header, t: Tree, hs: Headers, tip: BlockHash, n: nat)
    requires TreeOk(g, t) && tip in t && 1 <= n < t[tip].height && PendingAbove(g, t, hs, tip, n)
    requires var a := Anc(g, t, tip, n); a in hs && (hs[a].InFork? || hs[a].HeadersOnly?)
    ensures PendingAbove(g, t, hs, tip, n - 1)
  {
  }

  /** The validated block a branch must be validated from: the highest strict ancestor
      that is validated, provided no ancestor above it is an orphan or invalid. Genesis for genesis itself. */
  method GetLastValidBlock(g: Header, hs: Headers, tip: Header, ghost t: Tree)
    returns (r: Result<BlockHash, Error>)
    requires Known(g, t, hs, tip)
    ensures tip.hash == g.hash ==> r == Ok(g.hash)
    ensures r.Ok? && tip.hash != g.hash ==>
              && r.value in hs && r.value in t
              && (r.value == g.hash || hs[r.value].FullyValid? || hs[r.value].AssumedValid?)
              && t[r.value].height < t[tip.hash].height && OnChain(g, t, tip.hash, r.value)
              && PendingAbove(g, t, hs, tip.hash, t[r.value].height)
    ensures r.Err? && tip.prev in hs ==>
              exists n: nat :: n < t[tip.hash].height && PendingAbove(g, t, hs, tip.hash, n) &&
                var a := Anc(g, t, tip.hash, n); a in hs && (hs[a].Orphan? || hs[a].InvalidChain?)
    ensures r.Err? ==> r.error == if tip.prev in hs then InvalidTip else BlockNotPresent
  {
    var header := tip;
    while header.hash != g.hash
      invariant Walked(g, t, hs, tip, header)
      invariant PendingAbove(g, t, hs, tip.hash, t[header.hash].height)
      invariant header == tip || (tip.prev in hs && (hs[header.hash].InFork? || hs[header.hash].HeadersOnly?))
      decreases t[header.hash].height
    {
      StepBack(g, t, hs, tip, header);
      if header.prev !in hs {
        return Err(BlockNotPresent);
      }
      var ancestor := hs[header.prev];
      ghost var n := t[header.hash].height - 1;
      if header != tip {
        PendingDown(g, t, hs, tip.hash, n + 1);
      }
      if ancestor.FullyValid? || ancestor.AssumedValid? {
        return Ok(ancestor.header.hash);
      }
      if ancestor.Orphan? || ancestor.InvalidChain? {
        assert header.prev == Anc(g, t, tip.hash, n);
        return Err(InvalidTip);
      }
      header := ancestor.header;
    }
    return Ok(header.hash);
  }

  // ---------- cumulative work ----------

  /** Blocks from height `s` to the end of its period, or to height `n`. */
  function EpochCount(s: nat, n: nat): nat
    requires s <= n
  {
    (if s + RETARGET_INTERVAL - 1 < n then s + RETARGET_INTERVAL - 1 else n) - s + 1
  }

  ghost function EpochProduct(p: Params, t: Tree, x: BlockHash, s: nat): nat
    requires TreeOk(p.genesis, t) && x in t && s <= t[x].height
  {
    Times(p.work(t[Anc(p.genesis, t, x, s)].header.bits), EpochCount(s, t[x].height))
  }

  /** What `GetBranchWork` adds up from period start `s` on: one product per period. */
  ghost function ShortcutWork(p: Params, t: Tree, x: BlockHash, s: nat): nat
    requires TreeOk(p.genesis, t) && x in t
    decreases t[x].height + 1 - s
  {
    if s > t[x].height then 0
    else EpochProduct(p, t, x, s) + ShortcutWork(p, t, x, s + RETARGET_INTERVAL)
  }

  /** The product for the period starting at `s` is the work of its headers. */
  ghost predicate EpochSummed(p: Params, t: Tree, x: BlockHash, s: nat)
    requires TreeOk(p.genesis, t) && x in t && s <= t[x].height
  {
    PrefixWork(p.genesis, p.work, t, x, s) + EpochProduct(p, t, x, s) ==
    PrefixWork(p.genesis, p.work, t, x, s + EpochCount(s, t[x].height))
  }

  lemma EpochTotal(p: Params, t: Tree, x: BlockHash, s: nat)
    requires TreeOk(p.genesis, t) && x in t && EpochBits(p.genesis, t)
    requires RetargetHeight(s) && s <= t[x].height
    ensures EpochSummed(p, t, x, s)
  {
    EpochWork(p.genesis, p.work, t, x, s, EpochCount(s, t[x].height));
  }

  lemma LastEpoch(p: Params, t: Tree, x: BlockHash, s: nat)
    requires TreeOk(p.genesis, t) && x in t && s <= t[x].height < s + RETARGET_INTERVAL
    ensures PrefixWork(p.genesis, p.work, t, x, s + EpochCount(s, t[x].height)) == CumWork(p.genesis, p.work, t, x)
    ensures ShortcutWork(p, t, x, s) == EpochProduct(p, t, x, s)
  {
  }

  lemma ShortcutNext(p: Params, t: Tree, x: BlockHash, s: nat)
    requires TreeOk(p.genesis, t) && x in t && s + RETARGET_INTERVAL <= t[x].height && EpochSummed(p, t, x, s)
    ensures PrefixWork(p.genesis, p.work, t, x, s) + ShortcutWork(p, t, x, s) ==
            PrefixWork(p.genesis, p.work, t, x, s + RETARGET_INTERVAL) + ShortcutWork(p, t, x, s + RETARGET_INTERVAL)
  {
    assert EpochCount(s, t[x].height) == RETARGET_INTERVAL;
  }

  lemma {:induction false} ShortcutFrom(p: Params, t: Tree, x: BlockHash, s: nat)
    requires TreeOk(p.genesis, t) && x in t && EpochBits(p.genesis, t)
    requires RetargetHeight(s) && s <= t[x].height
    ensures PrefixWork(p.genesis, p.work, t, x, s) + ShortcutWork(p, t, x, s) == CumWork(p.genesis, p.work, t, x)
    decreases t[x].height - s
  {
    EpochTotal(p, t, x, s);
    if s + RETARGET_INTERVAL <= t[x].height {
      ShortcutNext(p, t, x, s);
      NextEpoch(s);
      ShortcutFrom(p, t, x, s + RETARGET_INTERVAL);
    } else {
      LastEpoch(p, t, x, s);
    }
  }

  lemma NextEpoch(s: nat)
    requires RetargetHeight(s)
    ensures RetargetHeight(s + RETARGET_INTERVAL)
  {
  }

  /** When bits are constant within each period the shortcut is the cumulative work. */
  lemma ShortcutWorkExact(p: Params, t: Tree, x: BlockHash)
    requires TreeOk(p.genesis, t) && x in t && EpochBits(p.genesis, t)
    ensures ShortcutWork(p, t, x, 0) == CumWork(p.genesis, p.work, t, x)
  {
    ShortcutFrom(p, t, x, 0);
  }

  /** The products of the periods that start below height `n` fit 256 bits. */
  ghost predicate NoOverflowBelow(p: Params, t: Tree, x: BlockHash, n: nat)
    requires TreeOk(p.genesis, t) && x in t
  {
    forall e: nat :: RetargetHeight(e) && e < n && e <= t[x].height ==> EpochProduct(p, t, x, e) < WORK_LIMIT
  }

  lemma NoOverflowStep(p: Params, t: Tree, x: BlockHash, s: nat)
    requires TreeOk(p.genesis, t) && x in t && RetargetHeight(s) && s <= t[x].height
    requires NoOverflowBelow(p, t, x, s) && EpochProduct(p, t, x, s) < WORK_LIMIT
    ensures NoOverflowBelow(p, t, x, s + RETARGET_INTERVAL)
  {
    forall e: nat | RetargetHeight(e) && e < s + RETARGET_INTERVAL && e <= t[x].height
      ensures EpochProduct(p, t, x, e) < WORK_LIMIT
    {
      if s < e {
        InsideEpoch(s, e);
      }
    }
  }

  /** The work of a branch of the active chain, in one lookup per retarget period. Fails
      exactly when the product of some period does not fit 256 bits. */
  method GetBranchWork(p: Params, s: Store, header: Header, ghost t: Tree, ghost tip: BlockHash)
    returns (r: Result<nat, Error>)
    requires Known(p.genesis, t, s.headers, header) && header.hash in s.headers && s.headers[header.hash].MainChain()
    requires tip in t && tip in s.headers && SlotsOk(p.genesis, t, s, tip) && OnChain(p.genesis, t, tip, header.hash)
    ensures r.Ok? ==> r.value == ShortcutWork(p, t, header.hash, 0)
    ensures r.Ok? && EpochBits(p.genesis, t) ==> r.value == CumWork(p.genesis, p.work, t, header.hash)
    ensures r.Ok? <==> NoOverflowBelow(p, t, header.hash, t[header.hash].height + 1)
    ensures r.Err? ==> r.error == ChainWorkOverflow
  {
    StoredNode(p.genesis, t, s.headers, header.hash);
    var blockHeight := s.headers[header.hash].height;
    var total := 0;
    var epoch := 0;
    while epoch <= blockHeight
      invariant RetargetHeight(epoch)
      invariant total + ShortcutWork(p, t, header.hash, epoch) == ShortcutWork(p, t, header.hash, 0)
      invariant NoOverflowBelow(p, t, header.hash, epoch)
      decreases blockHeight + 1 - epoch
    {
      OnChainDown(p.genesis, t, tip, header.hash, epoch);
      ActiveSlot(p.genesis, t, s, tip, epoch);
      AncestorStored(p.genesis, t, s.headers, tip, epoch);
      StoredNode(p.genesis, t, s.headers, Anc(p.genesis, t, tip, epoch));
      var count := EpochCount(epoch, blockHeight);
      var epochHash := s.slots[epoch].hash;
      var epochHeader := s.headers[epochHash].header;
      var product := p.work(epochHeader.bits) * count;
      TimesIsProduct(p.work(epochHeader.bits), count);
      if product >= WORK_LIMIT {
        return Err(ChainWorkOverflow);
      }
      total := total + product;
      NextEpoch(epoch);
      NoOverflowStep(p, t, header.hash, epoch);
      epoch := epoch + RETARGET_INTERVAL;
    }
    if EpochBits(p.genesis, t) {
      ShortcutWorkExact(p, t, header.hash);
    }
    return Ok(total);
  }

  /** All ancestors of a stored header are stored. */
  lemma {:induction false} AncestorStored(g: Header, t: Tree, hs: Headers, x: BlockHash, n: nat)
    requires TreeOk(g, t) && Backed(g, t, hs) && x in hs && x in t && n <= t[x].height
    ensures Anc(g, t, x, n) in hs
    decreases t[x].height
  {
    StoredNode(g, t, hs, x);
    if t[x].height != n {
      AncestorStored(g, t, hs, Parent(t, x), n);
    }
  }

  /** Adds up the work of a branch, header by header, down to an ancestor. */
  method AddWorkTo(p: Params, hs: Headers, newTip: Header, forkPoint: BlockHash, base: nat, ghost t: Tree)
    returns (work: nat)
    requires Known(p.genesis, t, hs, newTip) && (newTip.hash in hs || newTip.prev in hs)
    requires forkPoint in t && OnChain(p.genesis, t, newTip.hash, forkPoint)
    ensures work + CumWork(p.genesis, p.work, t, forkPoint) == base + CumWork(p.genesis, p.work, t, newTip.hash)
  {
    var header := newTip;
    work := base;
    while header.hash != forkPoint
      invariant Walked(p.genesis, t, hs, newTip, header)
      invariant t[forkPoint].height <= t[header.hash].height
      invariant work + CumWork(p.genesis, p.work, t, header.hash) == base + CumWork(p.genesis, p.work, t, newTip.hash)
      decreases t[header.hash].height
    {
      StepBack(p.genesis, t, hs, newTip, header);
      work := work + p.work(header.bits);
      header := hs[header.prev].header;
    }
  }

  /** The shortcut work of `f` plus the work of the headers above it up to `x`, unless the shortcut overflows. */
  ghost predicate IsForkWork(p: Params, t: Tree, f: BlockHash, x: BlockHash, r: Result<nat, Error>)
    requires TreeOk(p.genesis, t) && f in t && x in t
  {
    match r
    case Ok(work) =>
      && NoOverflowBelow(p, t, f, t[f].height + 1)
      && work + CumWork(p.genesis, p.work, t, f) == ShortcutWork(p, t, f, 0) + CumWork(p.genesis, p.work, t, x)
    case Err(e) =>
      && !NoOverflowBelow(p, t, f, t[f].height + 1)
      && e == ChainWorkOverflow
  }

  /** With bits constant per period, that is the cumulative work. */
  lemma {:induction false} ForkWorkExact(p: Params, t: Tree, f: BlockHash, x: BlockHash, r: Result<nat, Error>)
    requires TreeOk(p.genesis, t) && f in t && x in t && EpochBits(p.genesis, t) && IsForkWork(p, t, f, x, r)
    ensures r.Ok? ==> r.value == CumWork(p.genesis, p.work, t, x)
  {
    ShortcutWorkExact(p, t, f);
  }

  /** The work of a fork: that of the fork point, through the index, and of the headers above it. */
  method GetForkWork(p: Params, s: Store, newTip: Header, forkPoint: BlockHash, ghost t: Tree, ghost tip: BlockHash)
    returns (r: Result<nat, Error>)
    requires Known(p.genesis, t, s.headers, newTip) && (newTip.hash in s.headers || newTip.prev in s.headers)
    requires tip in t && tip in s.headers && SlotsOk(p.genesis, t, s, tip)
    requires forkPoint in s.headers && s.headers[forkPoint].MainChain()
    requires OnChain(p.genesis, t, tip, forkPoint) && OnChain(p.genesis, t, newTip.hash, forkPoint)
    ensures IsForkWork(p, t, forkPoint, newTip.hash, r)
  {
    StoredNode(p.genesis, t, s.headers, forkPoint);
    var base := GetBranchWork(p, s, s.headers[forkPoint].header, t, tip);
    if base.Err? {
      return Err(ChainWorkOverflow);
    }
    var work := AddWorkTo(p, s.headers, newTip, forkPoint, base.value, t);
    return Ok(work);
  }

  // ---------- ancestors and required work ----------

  /** The slot of `header`'s height holds `header`. */
  predicate IndexHit(s: Store, header: Header, height: nat) {
    height in s.slots && s.slots[height].hash == header.hash
  }

  /** The index leads to the ancestor of `x` at a height: `x` is not the header in the slot of its own height, so that
      the walk is taken, or the ancestor is on the active chain, where that reaches. Above the active chain the slot
      must still hold it. */
  ghost predicate Served(g: Header, t: Tree, s: Store, tip: BlockHash, x: BlockHash, target: nat)
    requires TreeOk(g, t) && tip in t && x in t && target <= t[x].height
  {
    || !IndexHit(s, t[x].header, t[x].height)
    || if target <= t[tip].height then OnChain(g, t, tip, Anc(g, t, x, target))
       else s.GetBlockHash(target) == Some(Anc(g, t, x, target))
  }

  /** So it does for every header not above the tip. */
  lemma ServedBelowTip(g: Header, t: Tree, s: Store, tip: BlockHash, x: BlockHash, target: nat)
    requires TreeOk(g, t) && tip in t && x in t && SlotsOk(g, t, s, tip) && target <= t[x].height <= t[tip].height
    ensures Served(g, t, s, tip, x, target)
  {
    if IndexHit(s, t[x].header, t[x].height) {
      ActiveSlot(g, t, s, tip, t[x].height);
      OnChainDown(g, t, tip, x, target);
    }
  }

  /** Index lookup when the slot holds the header, walk otherwise: right exactly where the index serves the ancestor. */
  method GetAncestorAtHeight(g: Header, s: Store, header: Header, headerHeight: nat, targetHeight: nat,
                             ghost t: Tree, ghost tip: BlockHash)
    returns (r: Result<Header, Error>)
    requires Known(g, t, s.headers, header) && header.hash in s.headers
    requires t[header.hash].height == headerHeight && targetHeight <= headerHeight
    requires tip in t && SlotsOk(g, t, s, tip)
    ensures r == Ok(t[Anc(g, t, header.hash, targetHeight)].header) <==> Served(g, t, s, tip, header.hash, targetHeight)
    ensures headerHeight <= t[tip].height ==> r == Ok(t[Anc(g, t, header.hash, targetHeight)].header)
    ensures r.Ok? ==> r.value.hash in t && t[r.value.hash] == Node(r.value, targetHeight)
    // elsewhere the header that happens to be in the slot
    ensures !Served(g, t, s, tip, header.hash, targetHeight) ==>
              r == if targetHeight in s.slots then Ok(s.slots[targetHeight].disk.header) else Err(BlockNotPresent)
  {
    if headerHeight <= t[tip].height {
      ServedBelowTip(g, t, s, tip, header.hash, targetHeight);
    }
    if IndexHit(s, header, headerHeight) {
      if targetHeight <= t[tip].height {
        ActiveSlot(g, t, s, tip, targetHeight);
      }
      assert SlotSound(t, s, targetHeight);
      if targetHeight !in s.slots {
        return Err(BlockNotPresent);
      }
      return Ok(s.slots[targetHeight].disk.header);
    }
    var ancestor := WalkBack(g, s.headers, header, headerHeight, targetHeight, t);
    return Ok(ancestor);
  }

  method WalkBack(g: Header, hs: Headers, header: Header, headerHeight: nat, targetHeight: nat, ghost t: Tree)
    returns (ancestor: Header)
    requires Known(g, t, hs, header) && header.hash in hs
    requires t[header.hash].height == headerHeight && targetHeight <= headerHeight
    ensures ancestor == t[Anc(g, t, header.hash, targetHeight)].header
  {
    ancestor := header;
    for i := targetHeight to headerHeight
      invariant Walked(g, t, hs, header, ancestor) && ancestor.hash in hs
      invariant t[ancestor.hash].height == headerHeight - (i - targetHeight)
    {
      StepBack(g, t, hs, header, ancestor);
      ancestor := hs[ancestor.prev].header;
    }
  }

  /** The ancestor at height `n`, inside a period, states the lowest difficulty. */
  ghost predicate MinDifficultyAt(p: Params, t: Tree, x: BlockHash, n: nat)
    requires TreeOk(p.genesis, t) && x in t && n <= t[x].height
  {
    !RetargetHeight(n) && t[Anc(p.genesis, t, x, n)].header.bits == p.compact(p.maxTarget)
  }

  ghost predicate RegularAt(p: Params, t: Tree, x: BlockHash, n: nat)
    requires TreeOk(p.genesis, t) && x in t && n <= t[x].height
  {
    RetargetHeight(n) || t[Anc(p.genesis, t, x, n)].header.bits != p.compact(p.maxTarget)
  }

  /** All of `x` and its ancestors above height `n` are minimum-difficulty blocks inside one period. */
  ghost predicate MinDifficultyAbove(p: Params, t: Tree, x: BlockHash, n: nat)
    requires TreeOk(p.genesis, t) && x in t
  {
    forall k: nat :: n < k <= t[x].height ==> MinDifficultyAt(p, t, x, k)
  }

  lemma MinDifficultyDown(p: Params, t: Tree, x: BlockHash, n: nat)
    requires TreeOk(p.genesis, t) && x in t && 1 <= n <= t[x].height
    requires MinDifficultyAbove(p, t, x, n) && MinDifficultyAt(p, t, x, n)
    ensures MinDifficultyAbove(p, t, x, n - 1)
  {
  }

  lemma FullEpochBefore(n: nat)
    requires RetargetHeight(n) && n >= 1
    ensures n >= RETARGET_INTERVAL
  {
  }

  /** The last of `x` and its ancestors, within the period, that did not use the minimum-difficulty rule. */
  ghost function LastRegular(p: Params, t: Tree, x: BlockHash): (a: BlockHash)
    requires TreeOk(p.genesis, t) && x in t
    ensures a in t
    decreases t[x].height
  {
    if RetargetHeight(t[x].height) || t[x].header.bits != p.compact(p.maxTarget) then x
    else LastRegular(p, t, Parent(t, x))
  }

  /** The target the header after `last` must state, by the tree alone. */
  ghost function RequiredTarget(p: Params, t: Tree, last: BlockHash, next: Header): nat
    requires TreeOk(p.genesis, t) && last in t
  {
    var node := t[last];
    if !RetargetHeight(node.height + 1) then
      if !p.allowMinDifficulty then p.target(node.header.bits)
      else if node.header.time + 2 * p.targetSpacing < next.time then p.maxTarget
      else p.target(t[LastRegular(p, t, last)].header.bits)
    else if p.noRetargeting then p.target(node.header.bits)
    else
      assert node.height + 1 >= RETARGET_INTERVAL by { FullEpochBefore(node.height + 1); }
      Clamp(p, p.calcNextWork(node.header, t[Anc(p.genesis, t, last, node.height + 1 - RETARGET_INTERVAL)].header))
  }

  /** The last ancestor-or-self not mined under the minimum-difficulty rule, but at most
      back to the first block of the period. */
  method LastRegularHeader(p: Params, hs: Headers, last: Header, height: nat, ghost t: Tree)
    returns (header: Header)
    requires Known(p.genesis, t, hs, last) && last.hash in hs && t[last.hash].height == height
    ensures header.hash in t && t[header.hash].header == header && OnChain(p.genesis, t, last.hash, header.hash)
    ensures RegularAt(p, t, last.hash, t[header.hash].height)
    ensures MinDifficultyAbove(p, t, last.hash, t[header.hash].height)
    ensures header.hash == LastRegular(p, t, last.hash)
  {
    header := last;
    var h := height;
    while !RetargetHeight(h) && header.bits == p.compact(p.maxTarget)
      invariant h <= height
      invariant Walked(p.genesis, t, hs, last, header) && header.hash in hs && t[header.hash].height == h
      invariant LastRegular(p, t, header.hash) == LastRegular(p, t, last.hash)
      invariant MinDifficultyAbove(p, t, last.hash, h)
      decreases h
    {
      StepBack(p.genesis, t, hs, last, header);
      MinDifficultyDown(p, t, last.hash, h);
      header := hs[header.prev].header;
      h := h - 1;
    }
  }

  function Clamp(p: Params, target: nat): nat {
    if target < p.maxTarget then target else p.maxTarget
  }

  /** The target recalculated from whatever header the slot of height `n` holds. */
  function TargetFromSlot(p: Params, s: Store, last: Header, n: nat): Result<nat, Error> {
    if n in s.slots then Ok(Clamp(p, p.calcNextWork(last, s.slots[n].disk.header))) else Err(BlockNotPresent)
  }

  /** The recalculated target at the start of a period, from both ends of the previous one. */
  method RetargetWork(p: Params, s: Store, last: Header, nextHeight: nat, ghost t: Tree, ghost tip: BlockHash)
    returns (r: Result<nat, Error>)
    requires Known(p.genesis, t, s.headers, last) && last.hash in s.headers && t[last.hash].height + 1 == nextHeight
    requires nextHeight >= RETARGET_INTERVAL
    requires tip in t && SlotsOk(p.genesis, t, s, tip)
    ensures Served(p.genesis, t, s, tip, last.hash, nextHeight - RETARGET_INTERVAL) ==>
              var first := t[Anc(p.genesis, t, last.hash, nextHeight - RETARGET_INTERVAL)].header;
              r == Ok(Clamp(p, p.calcNextWork(last, first)))
    ensures !Served(p.genesis, t, s, tip, last.hash, nextHeight - RETARGET_INTERVAL) ==>
              r == TargetFromSlot(p, s, last, nextHeight - RETARGET_INTERVAL)
    ensures r.Ok? ==> r.value <= p.maxTarget
  {
    var first := GetAncestorAtHeight(p.genesis, s, last, nextHeight - 1, nextHeight - RETARGET_INTERVAL, t, tip);
    ghost var a := Anc(p.genesis, t, last.hash, nextHeight - RETARGET_INTERVAL);
    assert Served(p.genesis, t, s, tip, last.hash, nextHeight - RETARGET_INTERVAL) ==> first == Ok(t[a].header);
    r := if first.Err? then Err(first.error) else Ok(Clamp(p, p.calcNextWork(last, first.value)));
  }

  /** The required target does not depend on an ancestor that the index misses. */
  ghost predicate TargetServed(p: Params, t: Tree, s: Store, tip: BlockHash, last: BlockHash)
    requires TreeOk(p.genesis, t) && tip in t && last in t
  {
    var next := t[last].height + 1;
    RetargetHeight(next) && !p.noRetargeting ==>
      next >= RETARGET_INTERVAL && Served(p.genesis, t, s, tip, last, next - RETARGET_INTERVAL)
  }

  lemma TargetServedBelowTip(p: Params, t: Tree, s: Store, tip: BlockHash, last: BlockHash)
    requires TreeOk(p.genesis, t) && tip in t && last in t && SlotsOk(p.genesis, t, s, tip) &&
             t[last].height <= t[tip].height
    ensures TargetServed(p, t, s, tip, last)
  {
    var next := t[last].height + 1;
    if RetargetHeight(next) {
      FullEpochBefore(next);
      ServedBelowTip(p.genesis, t, s, tip, last, next - RETARGET_INTERVAL);
    }
  }

  /** The target the header after `last` must state. */
  method GetNextRequiredWork(p: Params, s: Store, last: Header, nextHeight: nat, next: Header,
                             ghost t: Tree, ghost tip: BlockHash)
    returns (r: Result<nat, Error>)
    requires Known(p.genesis, t, s.headers, last) && last.hash in s.headers && t[last.hash].height + 1 == nextHeight
    requires tip in t && SlotsOk(p.genesis, t, s, tip)
    ensures TargetServed(p, t, s, tip, last.hash) ==> r == Ok(RequiredTarget(p, t, last.hash, next))
    ensures !TargetServed(p, t, s, tip, last.hash) ==>
              nextHeight >= RETARGET_INTERVAL && r == TargetFromSlot(p, s, last, nextHeight - RETARGET_INTERVAL)
  {
    if !RetargetHeight(nextHeight) {
      if !p.allowMinDifficulty {
        return Ok(p.target(last.bits));
      }
      if last.time + 2 * p.targetSpacing < next.time {
        return Ok(p.maxTarget);
      }
      var header := LastRegularHeader(p, s.headers, last, nextHeight - 1, t);
      return Ok(p.target(header.bits));
    }
    if p.noRetargeting {
      return Ok(p.target(last.bits));
    }
    FullEpochBefore(nextHeight);
    r := RetargetWork(p, s, last, nextHeight, t, tip);
  }

  /** What an accepted header has shown about itself and its parent. */
  ghost predicate HeaderChecked(p: Params, prev: DiskBlockHeader, h: Header)
    requires prev.Height().Some?
  {
    && h.version >= p.minVersion(prev.height + 1)
    && p.compact(p.target(h.bits)) == h.bits
    && (!p.allowMinDifficulty && !RetargetHeight(prev.height + 1) ==> h.bits == p.compact(p.target(prev.header.bits)))
    && (p.enforceBip94 && RetargetHeight(prev.height + 1) ==> p.bip94TimeOk(h, prev.header))
  }

  /** A header that states the required difficulty and passes the checks on work, time and version. */
  ghost predicate HeaderValid(p: Params, t: Tree, h: Header) {
    && p.powOk(h) && TreeOk(p.genesis, t) && h.prev in t
    && h.bits == p.compact(RequiredTarget(p, t, h.prev, h))
    && (p.enforceBip94 && RetargetHeight(t[h.prev].height + 1) ==> p.bip94TimeOk(h, t[h.prev].header))
    && h.version >= p.minVersion(t[h.prev].height + 1)
  }

  /** The target the node asks of a header on `last`: the required one, unless that depends on an ancestor that the
      index misses. */
  ghost function TargetAsked(p: Params, t: Tree, s: Store, tip: BlockHash, last: BlockHash,
                             h: Header): Result<nat, Error>
    requires TreeOk(p.genesis, t) && tip in t && last in t
  {
    if TargetServed(p, t, s, tip, last) then Ok(RequiredTarget(p, t, last, h))
    else TargetFromSlot(p, s, t[last].header, t[last].height - 2015)
  }

  /** The first of the checks against the parent that fails: difficulty, then time warp, then version. */
  ghost function FirstFault(p: Params, asked: Result<nat, Error>, height: nat, prev: Header, h: Header): Option<Error> {
    if asked.Err? then Some(asked.error)
    else if h.bits != p.compact(asked.value) then Some(BadDiffBits)
    else if p.enforceBip94 && height % 2016 == 0 && !p.bip94TimeOk(h, prev) then Some(Bip94TimeWarp)
    else if h.version < p.minVersion(height) then Some(BadVersion)
    else None
  }

  /** The checks of a header against its parent: difficulty, time warp and version. */
  method CheckAgainstParent(p: Params, s: Store, prev: DiskBlockHeader, h: Header, ghost t: Tree, ghost tip: BlockHash)
    returns (r: Result<BlockHash, Error>)
    requires p.CompactOk() && Known(p.genesis, t, s.headers, prev.header)
    requires prev.header.hash in s.headers && prev == s.headers[prev.header.hash] && prev.Height().Some?
    requires tip in t && SlotsOk(p.genesis, t, s, tip)
    ensures r.Ok? ==> r.value == h.hash && HeaderChecked(p, prev, h)
    ensures FirstFault(p, TargetAsked(p, t, s, tip, prev.header.hash, h), prev.height + 1, prev.header, h) ==
            if r.Ok? then None else Some(r.error)
    ensures h.prev == prev.header.hash && p.powOk(h) && TargetServed(p, t, s, tip, h.prev) ==>
              (r.Ok? <==> HeaderValid(p, t, h))
  {
    StoredNode(p.genesis, t, s.headers, prev.header.hash);
    var height := prev.height + 1;
    var expected := GetNextRequiredWork(p, s, prev.header, height, h, t, tip);
    r :=
      if expected.Err? then Err(expected.error)
      else if h.bits != p.compact(expected.value) then Err(BadDiffBits)
      else if p.enforceBip94 && RetargetHeight(height) && !p.bip94TimeOk(h, prev.header) then Err(Bip94TimeWarp)
      else if h.version < p.minVersion(height) then Err(BadVersion)
      else Ok(h.hash);
  }

  /** Proof of work first, then the parent, then the checks against it. */
  method ValidateHeader(p: Params, s: Store, h: Header, ghost t: Tree, ghost tip: BlockHash)
    returns (r: Result<BlockHash, Error>)
    requires p.CompactOk() && TreeOk(p.genesis, t) && Backed(p.genesis, t, s.headers)
    requires tip in t && SlotsOk(p.genesis, t, s, tip)
    ensures r.Ok? ==> r.value == h.hash && p.powOk(h) && h.prev in s.headers && s.headers[h.prev].Height().Some?
    ensures r.Ok? ==> HeaderChecked(p, s.headers[h.prev], h)
    ensures !p.powOk(h) ==> r == Err(NotEnoughPow)
    ensures p.powOk(h) && h.prev !in s.headers ==> r == Err(BlockNotPresent)
    ensures p.powOk(h) && h.prev in s.headers && s.headers[h.prev].Height().None? ==>
              r == Err(BlockExtendsAnOrphanChain)
    ensures p.powOk(h) && h.prev in s.headers && h.prev in t && s.headers[h.prev].Height().Some? ==>
              FirstFault(p, TargetAsked(p, t, s, tip, h.prev, h), t[h.prev].height + 1, t[h.prev].header, h) ==
              if r.Ok? then None else Some(r.error)
    // complete unless the required target depends on an ancestor that the index misses
    ensures h.prev in s.headers && h.prev in t && s.headers[h.prev].Height().Some? &&
            TargetServed(p, t, s, tip, h.prev) ==>
              (r.Ok? <==> HeaderValid(p, t, h))
  {
    if !p.powOk(h) {
      return Err(NotEnoughPow);
    }
    if h.prev !in s.headers {
      return Err(BlockNotPresent);
    }
    StoredNode(p.genesis, t, s.headers, h.prev);
    var prev := s.headers[h.prev];
    if prev.Height().None? {
      return Err(BlockExtendsAnOrphanChain);
    }
    r := CheckAgainstParent(p, s, prev, h, t, tip);
  }

  // ---------- recovering the best chain ----------

  /** A slot holds an active header exactly up to the tip. */
  lemma SlotActive(g: Header, t: Tree, s: Store, tip: BlockHash, vi: nat, n: nat)
    requires StoreOk(g, t, s, tip, vi) && n in s.slots
    ensures s.slots[n].hash in s.headers
    ensures s.headers[s.slots[n].hash].MainChain() <==> n <= t[tip].height
    ensures n <= t[tip].height ==> s.headers[s.slots[n].hash] == ActiveState(t[Anc(g, t, tip, n)], vi)
  {
    var x := s.slots[n].hash;
    assert SlotSound(t, s, n) && SlotAt(g, t, s, tip, n);
    assert StateAt(g, t, tip, vi, x, s.headers[x]);
  }

  /** Rebuilds the best-chain record from slots and headers alone. The heights found there
      always agree with the slots, so the assertion in the loop holds. */
  method FindBestChain(s: Store, ghost g: Header, ghost t: Tree, ghost tip: BlockHash, ghost vi: nat)
    returns (b: BestChain)
    requires StoreOk(g, t, s, tip, vi)
    ensures b == BestChain(tip, t[tip].height, Anc(g, t, tip, vi), [])
  {
    AncZero(g, t, tip);
    ActiveSlot(g, t, s, tip, 0);
    var bestBlock := s.slots[0].hash;
    var depth := 0;
    var validationIndex := bestBlock;
    while depth + 1 in s.slots
      invariant depth <= t[tip].height
      invariant bestBlock == Anc(g, t, tip, depth)
      invariant validationIndex == Anc(g, t, tip, Min(depth, vi))
      decreases t[tip].height - depth
    {
      var hash := s.slots[depth + 1].hash;
      assert SlotAt(g, t, s, tip, depth + 1) && SlotSound(t, s, depth + 1);
      SlotActive(g, t, s, tip, vi, depth + 1);
      var disk := s.headers[hash];
      if !disk.MainChain() {
        break;
      }
      assert disk.height == depth + 1;
      if disk.FullyValid? {
        validationIndex := hash;
      }
      bestBlock := hash;
      depth := depth + 1;
    }
    assert SlotAt(g, t, s, tip, depth + 1);
    b := BestChain(bestBlock, depth, validationIndex, []);
  }
}
