/**
  The chain state on top of the flat store: every write that `ChainState` makes is
  one the flat store can take, so the files always answer as the store in memory.
 */
module ChainOnDisk {
  import opened Prelude
  import opened ChainTypes
  import opened BlockTree
  import opened StoreOps
  import opened FlatDisk
  import opened FlatChainStores
  import ProbeTable
  import ChainStates
  import ChainRuns

  // ---------- where blocks are filed ----------

  /** The store without its saved accumulators, which have a file of their own. */
  ghost function Bare(s: Store): Store {
    Store(s.headers, map n | n in s.slots :: s.slots[n].(roots := None))
  }

  lemma BareApply(s: Store, op: Op)
    ensures Bare(Apply(s, op)) == if op.Roots? then Bare(s) else Apply(Bare(s), op)
  {
  }

  lemma BareAllowed(g: Header, s: Store, op: Op)
    ensures Allowed(g, Bare(s), op) <==> Allowed(g, s, op)
  {
  }

  /** A best-chain header is found through its height, any other in the fork file. */
  ghost predicate Filed(d: Disk, genesis: BlockHash, at: Seats, headers: map<BlockHash, DiskBlockHeader>,
                        x: BlockHash) {
    x in headers ==>
      if headers[x].MainChain() then Seated(d, genesis, at, headers[x].height, x) else InForkFile(d, at, x)
  }

  ghost predicate AllFiled(d: Disk, genesis: BlockHash, at: Seats, headers: map<BlockHash, DiskBlockHeader>) {
    forall x {:trigger Filed(d, genesis, at, headers, x)} :: Filed(d, genesis, at, headers, x)
  }

  /** A write that loses no header finds its slot free. */
  lemma MayPlace(d: Disk, home: Home, g: Header, at: Seats, store: Store, h: DiskBlockHeader)
    requires DiskOk(d, home, g.hash, at, store, {}) && AllFiled(d, g.hash, at, store.headers)
    requires Allowed(g, store, Place(h)) && h.height < FORK_BIT && h.height < |d.headers|
    ensures MayWrite(d, at, h.height, h.header.hash)
  {
    var x := d.headers[h.height].hash;
    assert SlotOk(d, store, h.height) && Filed(d, g.hash, at, store.headers, x);
    assert Latest(d, g.hash, at, store, {}, x);
  }

  lemma MayRestate(d: Disk, home: Home, g: Header, at: Seats, store: Store, h: DiskBlockHeader)
    requires DiskOk(d, home, g.hash, at, store, {}) && AllFiled(d, g.hash, at, store.headers)
    requires Allowed(g, store, Restate(h)) && h.height < FORK_BIT && h.height < |d.headers|
    ensures MayWrite(d, at, h.height, h.header.hash) && Seated(d, g.hash, at, h.height, h.header.hash)
  {
    assert SlotOk(d, store, h.height) && Filed(d, g.hash, at, store.headers, h.header.hash);
  }

  /** Saving a block that is filed under its height already leaves all blocks where they are. */
  lemma Kept(d: Disk, at: Seats, d': Disk, g: Header, store: Store, h: DiskBlockHeader)
    requires AllFiled(d, g.hash, at, store.headers) && d'.buckets == d.buckets
    requires h.MainChain() && Seated(d, g.hash, at, h.height, h.header.hash)
    ensures AllFiled(d', g.hash, at, store.headers[h.header.hash := h])
  {
    var headers' := store.headers[h.header.hash := h];
    forall x
      ensures Filed(d', g.hash, at, headers', x)
    {
      assert Filed(d, g.hash, at, store.headers, x);
    }
  }

  /** Refiling one block leaves the others where they are. */
  lemma Refiled(d: Disk, at: Seats, d': Disk, at': Seats, home: Home, g: Header, store: Store, store': Store,
                h: DiskBlockHeader)
    requires AllFiled(d, g.hash, at, store.headers) && Reseated(d, at, d', at', h.header.hash)
    requires DiskOk(d', home, g.hash, at', store', {}) && store'.headers == store.headers[h.header.hash := h]
    requires Filed(d', g.hash, at', store'.headers, h.header.hash)
    ensures AllFiled(d', g.hash, at', store'.headers)
  {
    forall x
      ensures Filed(d', g.hash, at', store'.headers, x)
    {
      assert Filed(d, g.hash, at, store.headers, x);
      assert ProbeTable.Registered(KeysOf(d'), at', x) && ProbeTable.Registered(KeysOf(d'), at', h.header.hash);
    }
  }

  // ---------- one write ----------

  /** The files stand for the store, and leave no lookup in doubt. */
  ghost predicate Mirrors(f: FlatChainStore, g: Header, s: Store)
    reads f, f.buckets, f.headers, f.forks
  {
    && f.Valid() && f.genesis == g.hash && f.pending == {} && f.stale == {}
    && f.store == Bare(s)
    && AllFiled(f.View(), g.hash, f.at, f.store.headers)
  }

  /** The files have room for the write. */
  predicate Room(f: FlatChainStore, op: Op)
    reads f
  {
    match op
    case Move(_) => f.forkCount < FORK_BIT && f.forkCount < f.forks.Length && f.occupancy + 1 < f.buckets.Length
    case Place(d) =>
      && d.MainChain() && d.height < FORK_BIT && d.height < f.headers.Length
      && f.occupancy + 1 < f.buckets.Length
    case Restate(d) => d.MainChain() && d.height < FORK_BIT && d.height < f.headers.Length
    case Roots(_, _) => true
  }

  /** How much of the files one write uses up at most. */
  twostate predicate Grown(f: FlatChainStore)
    reads f
  {
    f.forkCount <= old(f.forkCount) + 1 && f.occupancy <= old(f.occupancy) + 1
  }

  method WriteMove(f: FlatChainStore, d: DiskBlockHeader, ghost g: Header, ghost s: Store) returns (ok: bool)
    requires Mirrors(f, g, s) && Allowed(g, s, Move(d)) && g.prev == NO_HASH
    modifies f, f.buckets, f.headers, f.forks
    ensures f.Valid() && ok == old(Room(f, Move(d)))
    ensures ok ==> Mirrors(f, g, Apply(s, Move(d))) && Grown(f)
  {
    ghost var v, at, store := f.View(), f.at, f.store;
    BareApply(s, Move(d));
    var r := f.SaveHeader(d);
    ok := r.Ok?;
    if ok {
      ForkSavedKeeps(v, f.genesis, at, f.View(), d);
      Refiled(v, at, f.View(), f.at, f.home, g, store, f.store, d);
    }
  }

  method WriteRestate(f: FlatChainStore, d: DiskBlockHeader, ghost g: Header, ghost s: Store) returns (ok: bool)
    requires Mirrors(f, g, s) && Allowed(g, s, Restate(d)) && g.prev == NO_HASH
    modifies f, f.buckets, f.headers, f.forks
    ensures f.Valid() && ok == old(Room(f, Restate(d)))
    ensures ok ==> Mirrors(f, g, Apply(s, Restate(d))) && Grown(f)
  {
    ghost var v, at, store := f.View(), f.at, f.store;
    BareApply(s, Restate(d));
    BareAllowed(g, s, Restate(d));
    if d.height < FORK_BIT && d.height < f.headers.Length {
      MayRestate(v, f.home, g, at, store, d);
    }
    var r := f.SaveHeader(d);
    ok := r.Ok?;
    if ok {
      Kept(v, at, f.View(), g, store, d);
    }
  }

  /** Saves a best-chain header and points its bucket at the slot. */
  method SaveAndIndex(f: FlatChainStore, d: DiskBlockHeader) returns (ok: bool)
    requires f.Valid() && f.pending == {} && f.stale == {} && d.MainChain() && d.header.hash != NO_HASH
    requires d.header.hash == f.genesis ==> d.height == 0
    requires d.height < FORK_BIT && d.height < f.headers.Length ==> MayWrite(f.View(), f.at, d.height, d.header.hash)
    modifies f, f.buckets, f.headers, f.forks
    ensures f.Valid() && ok == old(Room(f, Place(d)))
    ensures ok ==>
              && f.pending == {} && f.stale == {} && Grown(f)
              && f.store == old(f.store).SaveHeader(d)
              && Seated(f.View(), f.genesis, f.at, d.height, d.header.hash)
              && if d.header.hash == f.genesis then f.at == old(f.at) && f.View().buckets == old(f.View().buckets)
                 else Reseated(old(f.View()), old(f.at), f.View(), f.at, d.header.hash)
  {
    var r := f.SaveHeader(d);
    if r.Err? {
      return false;
    }
    assert SlotOk(f.View(), f.store, d.height);
    ghost var b;
    r, b := f.UpdateBlockIndex(d.height, d.header.hash);
    ok := r.Ok?;
  }

  method WritePlace(f: FlatChainStore, d: DiskBlockHeader, ghost g: Header, ghost s: Store) returns (ok: bool)
    requires Mirrors(f, g, s) && Allowed(g, s, Place(d)) && g.prev == NO_HASH
    modifies f, f.buckets, f.headers, f.forks
    ensures f.Valid() && ok == old(Room(f, Place(d)))
    ensures ok ==> Mirrors(f, g, Apply(s, Place(d))) && Grown(f)
  {
    ghost var v, at, store := f.View(), f.at, f.store;
    BareApply(s, Place(d));
    BareAllowed(g, s, Place(d));
    if d.height < FORK_BIT && d.height < f.headers.Length {
      MayPlace(v, f.home, g, at, store, d);
    }
    ok := SaveAndIndex(f, d);
    if ok {
      assert f.store == Apply(store, Place(d));
      if d.header.hash == g.hash {
        Kept(v, at, f.View(), g, store, d);
      } else {
        Refiled(v, at, f.View(), f.at, f.home, g, store, f.store, d);
      }
    }
  }

  /** One write of the chain state, made on the files: it is refused only for want of room. */
  method Write(f: FlatChainStore, op: Op, ghost g: Header, ghost s: Store) returns (ok: bool)
    requires Mirrors(f, g, s) && Allowed(g, s, op) && g.prev == NO_HASH
    modifies f, f.buckets, f.headers, f.forks
    ensures f.Valid() && ok == old(Room(f, op))
    ensures ok ==> Mirrors(f, g, Apply(s, op)) && Grown(f)
  {
    match op {
      case Move(d) =>
        ok := WriteMove(f, d, g, s);
      case Place(d) =>
        ok := WritePlace(f, d, g, s);
      case Restate(d) =>
        ok := WriteRestate(f, d, g, s);
      case Roots(_, _) =>
        BareApply(s, op);
        ok := true;
    }
  }

  // ---------- any run ----------

  /** No best-chain header is above the last height of the files. */
  predicate HeightsFit(ops: seq<Op>, size: nat) {
    forall op :: op in ops && (op.Place? || op.Restate?) && op.disk.MainChain() ==>
      op.disk.height < FORK_BIT && op.disk.height < size
  }

  /** The files are large enough for all the writes, each taking up a fork slot or a bucket at most. */
  predicate Roomy(f: FlatChainStore, ops: seq<Op>)
    reads f
  {
    && f.forkCount + |ops| <= FORK_BIT && f.forkCount + |ops| <= f.forks.Length
    && f.occupancy + |ops| < f.buckets.Length
    && HeightsFit(ops, f.headers.Length)
  }

  lemma {:induction false} AllowedUpTo(g: Header, s: Store, ops: seq<Op>, i: nat)
    requires AllAllowed(g, s, ops) && i < |ops|
    ensures AllAllowed(g, s, ops[..i]) && Allowed(g, ApplyAll(s, ops[..i]), ops[i])
    ensures ApplyAll(s, ops[..i + 1]) == Apply(ApplyAll(s, ops[..i]), ops[i])
    decreases |ops|
  {
    var n := |ops| - 1;
    if i < n {
      AllowedUpTo(g, s, ops[..n], i);
      assert ops[..n][..i] == ops[..i] && ops[..n][..i + 1] == ops[..i + 1];
    } else {
      assert ops[..i + 1] == ops;
    }
    assert ops[..i + 1][..i] == ops[..i];
  }

  /** Any writes that lose no header can be made on the files, as long as there is room. */
  method Replay(f: FlatChainStore, ops: seq<Op>, ghost g: Header, ghost s: Store) returns (ok: bool)
    requires Mirrors(f, g, s) && AllAllowed(g, s, ops) && g.prev == NO_HASH
    modifies f, f.buckets, f.headers, f.forks
    ensures f.Valid()
    ensures ok ==> Mirrors(f, g, ApplyAll(s, ops))
    ensures old(Roomy(f, ops)) ==> ok
  {
    ghost var roomy := Roomy(f, ops);
    ghost var forkCount, occupancy := f.forkCount, f.occupancy;
    for i := 0 to |ops|
      invariant Mirrors(f, g, ApplyAll(s, ops[..i]))
      invariant f.forkCount <= forkCount + i && f.occupancy <= occupancy + i
    {
      AllowedUpTo(g, s, ops, i);
      assert roomy ==> Room(f, ops[i]);
      ok := Write(f, ops[i], g, ApplyAll(s, ops[..i]));
      if !ok {
        return;
      }
    }
    assert ops[..|ops|] == ops;
    ok := true;
  }

  /** New files stand for the new store. */
  method NewFiles(g: Header, home: Home, indexSize: nat, headersSize: nat, forkSize: nat, cacheSize: nat)
    returns (f: FlatChainStore)
    requires g.hash != NO_HASH && ProbeTable.HomeOk(home, indexSize) && headersSize > 0 && cacheSize > 0
    ensures fresh(f) && fresh(f.buckets) && fresh(f.headers) && fresh(f.forks)
    ensures Mirrors(f, g, NewStore(g)) && f.forkCount == 0 && f.occupancy == 0
    ensures f.buckets.Length == indexSize && f.headers.Length == headersSize && f.forks.Length == forkSize
  {
    f := new FlatChainStore(g, home, indexSize, headersSize, forkSize, cacheSize);
    assert Bare(NewStore(g)) == NewStore(g) == Store(map[], map[]).SaveHeader(FullyValid(g, 0));
  }

  /** What the three lookups of the files give. */
  datatype Answers = Answers(
    byHash: Result<Option<DiskBlockHeader>, FlatError>,
    byHeight: Result<Option<DiskBlockHeader>, FlatError>,
    hashAt: Result<Option<BlockHash>, FlatError>)

  /** The answers are those of the store, as far as the files reach. */
  ghost predicate Right(s: Store, a: Answers, hash: BlockHash, height: nat, size: nat) {
    && a.byHash == Ok(Get(s.headers, hash))
    && (height < FORK_BIT && height < size ==>
          && a.byHeight == Ok(if height in s.slots then Some(s.slots[height].disk) else None)
          && a.hashAt == Ok(s.GetBlockHash(height)))
  }

  /** Files that stand for a store answer as it does. */
  method LookUp(f: FlatChainStore, hash: BlockHash, height: nat, ghost g: Header, ghost s: Store) returns (a: Answers)
    requires Mirrors(f, g, s)
    modifies f
    ensures Right(s, a, hash, height, f.headers.Length)
  {
    var byHash := f.GetHeader(hash);
    var byHeight := f.GetHeaderByHeight(height);
    var hashAt := f.GetBlockHash(height);
    a := Answers(byHash, byHeight, hashAt);
  }

  /** The files have room for the writes, starting empty. */
  predicate LargeEnough(ops: seq<Op>, indexSize: nat, headersSize: nat, forkSize: nat) {
    |ops| <= FORK_BIT && |ops| <= forkSize && |ops| < indexSize && HeightsFit(ops, headersSize)
  }

  method ReplayNew(g: Header, ops: seq<Op>, home: Home, indexSize: nat, headersSize: nat, forkSize: nat, cacheSize: nat)
    returns (f: FlatChainStore, ok: bool)
    requires g.hash != NO_HASH == g.prev && ProbeTable.HomeOk(home, indexSize) && headersSize > 0 && cacheSize > 0
    requires AllAllowed(g, NewStore(g), ops)
    ensures fresh(f) && fresh(f.buckets) && fresh(f.headers) && fresh(f.forks) && f.headers.Length == headersSize
    ensures ok ==> Mirrors(f, g, ApplyAll(NewStore(g), ops))
    ensures LargeEnough(ops, indexSize, headersSize, forkSize) ==> ok
  {
    f := NewFiles(g, home, indexSize, headersSize, forkSize, cacheSize);
    ok := Replay(f, ops, g, NewStore(g));
  }

  /** The chain state from genesis through any calls, and the same writes on new files: if the files have room, a
      lookup by hash or by height finds what the chain state has after the run. */
  method AnyRun(params: Params, steps: seq<ChainRuns.Step>, home: Home, indexSize: nat, headersSize: nat, forkSize: nat,
                cacheSize: nat, hash: BlockHash, height: nat)
    returns (c: ChainStates.ChainState, outcomes: seq<ChainRuns.Outcome>, ghost states: seq<ChainRuns.State>,
             ops: seq<Op>, ok: bool, a: Answers)
    requires params.CompactOk() && params.genesis.hash != NO_HASH == params.genesis.prev
    requires ProbeTable.HomeOk(home, indexSize) && headersSize > 0 && cacheSize > 0
    ensures ChainRuns.Fine(c) && Traced(params.genesis, NewStore(params.genesis), c.store, ops)
    ensures ChainRuns.Ran(params, steps, |steps|, outcomes, states) && ChainRuns.Now(c) == states[|steps|]
    ensures ok ==> Right(c.store, a, hash, height, headersSize)
    ensures LargeEnough(ops, indexSize, headersSize, forkSize) ==> ok
  {
    c, outcomes, states, ops := ChainRuns.AnyRun(params, steps);
    var f;
    f, ok := ReplayNew(params.genesis, ops, home, indexSize, headersSize, forkSize, cacheSize);
    a := Answers(Ok(None), Ok(None), Ok(None));
    if ok {
      a := LookUp(f, hash, height, params.genesis, c.store);
    }
  }
}
