/**
  The flat chain store: memory-mapped arrays probed in place, with a cache of
  recently used headers on top.
 */
module FlatChainStores {
  import opened Prelude
  import opened ChainTypes
  import opened ProbeTable
  import opened FlatDisk

  // ---------- the cache ----------

  /** Cached headers, most recently used first. */
  type Cache = seq<(BlockHash, DiskBlockHeader)>

  function Cached(c: Cache, h: BlockHash): (r: Option<DiskBlockHeader>)
    ensures r.Some? ==> (h, r.value) in c
    ensures r.None? ==> forall d :: (h, d) !in c
  {
    if c == [] then None else if c[0].0 == h then Some(c[0].1) else Cached(c[1..], h)
  }

  function Uncached(c: Cache, h: BlockHash): (r: Cache)
    ensures |r| <= |c| && (Cached(c, h).Some? ==> |r| < |c|)
    ensures forall e :: e in r ==> e in c && e.0 != h
  {
    if c == [] then [] else if c[0].0 == h then Uncached(c[1..], h) else [c[0]] + Uncached(c[1..], h)
  }

  /** Makes the header the most recent one, dropping the oldest when there is no room. */
  function Put(c: Cache, size: nat, h: BlockHash, d: DiskBlockHeader): (r: Cache)
    requires size > 0 && |c| <= size
    ensures |r| <= size
    ensures forall e :: e in r ==> e == (h, d) || (e in c && e.0 != h)
    ensures Cached(r, h) == Some(d)
  {
    var all := [(h, d)] + Uncached(c, h);
    if |all| <= size then all else all[..size]
  }

  /** A cached header is the newest one saved, except for the hashes in `stale`. */
  ghost predicate Fresh(headers: map<BlockHash, DiskBlockHeader>, stale: set<BlockHash>,
                        e: (BlockHash, DiskBlockHeader)) {
    e.0 in stale || Get(headers, e.0) == Some(e.1)
  }

  ghost predicate Coherent(c: Cache, headers: map<BlockHash, DiskBlockHeader>, stale: set<BlockHash>) {
    forall e {:trigger Fresh(headers, stale, e)} :: e in c ==> Fresh(headers, stale, e)
  }

  lemma PutKeeps(c: Cache, size: nat, headers: map<BlockHash, DiskBlockHeader>, stale: set<BlockHash>, h: BlockHash,
                 d: DiskBlockHeader)
    requires size > 0 && |c| <= size && Coherent(c, headers, stale)
    ensures Coherent(Put(c, size, h, d), headers[h := d], stale - {h})
    ensures Coherent(Put(c, size, h, d), headers, if Get(headers, h) == Some(d) then stale - {h} else stale + {h})
  {
    var c' := Put(c, size, h, d);
    var stale' := if Get(headers, h) == Some(d) then stale - {h} else stale + {h};
    forall e | e in c'
      ensures Fresh(headers[h := d], stale - {h}, e) && Fresh(headers, stale', e)
    {
      assert e in c ==> Fresh(headers, stale, e);
    }
  }

  // ---------- the store ----------

  datatype IndexBucket = Empty(ptr: nat) | Occupied(ptr: nat, header: DiskBlockHeader)

  class FlatChainStore {
    const genesis: BlockHash
    // the short hash, masked to the capacity
    const home: Home
    const cacheSize: nat
    const buckets: array<nat>
    const headers: array<HashedDiskHeader>
    const forks: array<HashedDiskHeader>
    var forkCount: nat
    var occupancy: nat
    var cache: Cache
    // the store that the files stand for
    ghost var store: Store
    // in which bucket each block sits
    ghost var at: Seats
    // saved to a best-chain slot that no bucket leads to yet
    ghost var pending: set<BlockHash>
    // cached although it is not the newest header saved
    ghost var stale: set<BlockHash>

    ghost function View(): Disk
      reads this, buckets, headers, forks
    {
      Disk(buckets[..], headers[..], forks[..], forkCount, occupancy)
    }

    ghost predicate Valid()
      reads this, buckets, headers, forks
    {
      && headers != forks
      && DiskOk(View(), home, genesis, at, store, pending)
      && cacheSize > 0 && |cache| <= cacheSize && Coherent(cache, store.headers, stale)
    }

    /** A store that was created and given its genesis header. */
    constructor (g: Header, home: Home, indexSize: nat, headersSize: nat, forkSize: nat, cacheSize: nat)
      requires g.hash != NO_HASH && HomeOk(home, indexSize) && headersSize > 0 && cacheSize > 0
      ensures Valid() && fresh(buckets) && fresh(headers) && fresh(forks)
      ensures store == Store(map[], map[]).SaveHeader(FullyValid(g, 0)) && pending == {} && stale == {}
      ensures genesis == g.hash && buckets.Length == indexSize && headers.Length == headersSize &&
              forks.Length == forkSize
      ensures forkCount == 0 && occupancy == 0
    {
      var blank := HashedDiskHeader(Orphan(g), NO_HASH);
      genesis, this.home, this.cacheSize := g.hash, home, cacheSize;
      buckets := new nat[indexSize](_ => 0);
      headers := new HashedDiskHeader[headersSize](i => if i == 0 then HashedDiskHeader(FullyValid(g, 0), g.hash)
                                                        else blank);
      forks := new HashedDiskHeader[forkSize](_ => blank);
      forkCount, occupancy, cache := 0, 0, [(g.hash, FullyValid(g, 0))];
      store, at, pending, stale := Store(map[], map[]).SaveHeader(FullyValid(g, 0)), map[], {}, {};
      new;
      NewDisk(View(), home, g);
    }

    /** Hashes a lookup may answer with something else than the newest header saved. */
    ghost function Doubtful(): set<BlockHash>
      reads this
    {
      pending + stale
    }

    /** The slot may be written, and there is room. */
    ghost predicate MaySave(header: DiskBlockHeader)
      reads this, buckets, headers, forks
    {
      && header.header.hash != NO_HASH
      && if header.MainChain() then
           && header.height < FORK_BIT && header.height < headers.Length
           && MayWrite(View(), at, header.height, header.header.hash)
         else
           && header.header.hash != genesis
           && forkCount < FORK_BIT && forkCount < forks.Length && occupancy + 1 < buckets.Length
    }

    /** A save of the header leaves every block findable. */
    ghost predicate Takes(header: DiskBlockHeader)
      reads this, buckets, headers, forks
    {
      && header.header.hash != NO_HASH
      && (header.MainChain() && header.height < FORK_BIT && header.height < headers.Length ==>
            MayWrite(View(), at, header.height, header.header.hash))
      && (!header.MainChain() ==> header.header.hash != genesis)
    }

    /** The slot holds the block as it was last saved. */
    ghost predicate Indexable(height: nat, hash: BlockHash)
      reads this, buckets, headers, forks
    {
      && height < headers.Length && headers[height].hash == hash != NO_HASH && (hash == genesis ==> height == 0)
      && Get(store.headers, hash) == Some(headers[height].header)
    }

    // ---------- reading ----------

    method ReadSlot(v: nat) returns (r: Result<HashedDiskHeader, FlatError>)
      ensures r == GetDiskHeader(View(), v)
    {
      var file := if IsMainChain(v) then headers else forks;
      if Untagged(v) >= file.Length {
        return Err(FullIndex);
      }
      var slot := file[Untagged(v)];
      r := if slot.hash == NO_HASH then Err(HeaderNotFound) else Ok(slot);
    }

    /** Probes for a hash: always ends, at its bucket or at an empty one. */
    method HashMapFindPos(hash: BlockHash) returns (r: Result<IndexBucket, FlatError>)
      requires DiskOk(View(), home, genesis, at, store, pending)
      ensures r.Ok? && r.value.ptr < buckets.Length
      ensures StopsAt(KeysOf(View()), home(hash), hash, r.value.ptr)
      ensures r.value.Occupied? <==> hash == genesis || hash in at
      ensures r.value.Occupied? ==> Lookup(View(), genesis, at, hash) == Some(r.value.header)
    {
      ghost var d := View();
      ghost var ks := KeysOf(d);
      for i := 0 to buckets.Length
        invariant Path(ks, home(hash), i)
        invariant forall j: nat {:trigger At(ks, home(hash), j)} :: j < i ==> At(ks, home(hash), j) != Some(hash)
      {
        var ptr := Pos(home(hash), i, buckets.Length);
        var candidate := buckets[ptr];
        assert BucketOk(d, genesis, ptr) && ks[ptr] == KeyOf(d, candidate) == At(ks, home(hash), i);
        var slot := ReadSlot(candidate);
        if slot.value.hash == hash {
          Match(d, home, genesis, at, store, pending, hash, i);
          return Ok(Occupied(ptr, slot.value.header));
        }
        if candidate == 0 {
          NoMatch(d, home, genesis, at, store, pending, hash, i);
          return Ok(Empty(ptr));
        }
      }
      FullCycle(ks, home, at, home(hash));
      r := Err(FullIndex);
    }

    // ---------- writing ----------

    /** Writes a block's bucket; refused when the table is nearly full, even for a block it holds. */
    method AddIndexEntry(hash: BlockHash, v: nat) returns (r: Result<(), FlatError>, ghost b: nat)
      requires DiskOk(View(), home, genesis, at, store, pending)
      modifies buckets, `occupancy
      ensures r == if old(occupancy) + 1 >= buckets.Length then Err(FullIndex) else Ok(())
      ensures r.Err? ==> View() == old(View())
      ensures r.Ok? ==>
                && StopsAt(KeysOf(old(View())), home(hash), hash, b) && b < buckets.Length
                && View() == WithBucket(old(View()), b, v, forkCount, hash != genesis && hash !in at)
    {
      if occupancy + 1 >= buckets.Length {
        b := 0;
        return Err(FullIndex), b;
      }
      var found := HashMapFindPos(hash);
      b := found.value.ptr;
      buckets[found.value.ptr] := v;
      if found.value.Empty? {
        occupancy := occupancy + 1;
      }
      assert buckets[..] == old(buckets[..])[b := v];
      r := Ok(());
    }

    /** Writes the slot of the height, whatever it holds. The files stay right if that may be overwritten. */
    method WriteHeaderToStorage(header: DiskBlockHeader) returns (r: Result<(), FlatError>)
      requires headers != forks && header.MainChain() && DiskOk(View(), home, genesis, at, store, pending)
      modifies headers, `store, `pending
      ensures r == if header.height >= FORK_BIT then Err(OversizedIndex)
                   else if header.height >= headers.Length then Err(FullIndex)
                   else Ok(())
      ensures r.Err? ==> View() == old(View()) && store == old(store) && pending == old(pending)
      ensures r.Ok? ==> View() == WithHeader(old(View()), header.height, header)
      ensures r.Ok? && old(Takes(header)) ==>
                && store == old(store).SaveHeader(header)
                && pending == PendingAfter(old(View()), genesis, at, old(pending), header)
                && DiskOk(View(), home, genesis, at, store, pending)
    {
      var index := NewIndex(header.height);
      if index.Err? {
        return Err(index.error);
      }
      if index.value >= headers.Length {
        return Err(FullIndex);
      }
      ghost var takes := Takes(header);
      if takes {
        WriteKeeps(View(), home, genesis, at, store, pending, header);
      }
      headers[index.value] := HashedDiskHeader(header, header.header.hash);
      assert View() == WithHeader(old(View()), header.height, header);
      if takes {
        store, pending := store.SaveHeader(header), PendingAfter(old(View()), genesis, at, pending, header);
      }
      r := Ok(());
    }

    method WriteForkSlot(header: DiskBlockHeader)
      requires headers != forks && forkCount < forks.Length && DiskOk(View(), home, genesis, at, store, pending)
      modifies forks
      ensures View() == WithFork(old(View()), header) && DiskOk(View(), home, genesis, at, store, pending)
    {
      ForkSlotKeeps(View(), home, genesis, at, store, pending, header);
      forks[forkCount] := HashedDiskHeader(header, header.header.hash);
      assert forks[..] == old(forks[..])[forkCount := HashedDiskHeader(header, header.header.hash)];
    }

    method IndexForkSlot(header: DiskBlockHeader, ghost d: Disk) returns (r: Result<(), FlatError>)
      requires !header.MainChain() && forkCount < FORK_BIT
      requires d.forkCount < |d.forks| && View() == WithFork(d, header) &&
               DiskOk(View(), home, genesis, at, store, pending)
      modifies buckets, `forkCount, `occupancy, `store, `pending, `at
      ensures r == if old(occupancy) + 1 >= buckets.Length then Err(FullIndex) else Ok(())
      ensures r.Err? ==> View() == old(View()) && store == old(store) && pending == old(pending) && at == old(at)
      ensures r.Ok? ==> ForkSaved(d, genesis, old(at), View(), header)
      ensures r.Ok? && old(Takes(header)) ==>
                && store == old(store).SaveHeader(header) && pending == old(pending) - {header.header.hash}
                && InForkFile(View(), at, header.header.hash)
                && Reseated(old(View()), old(at), View(), at, header.header.hash)
                && DiskOk(View(), home, genesis, at, store, pending)
    {
      ghost var takes := Takes(header);
      var added, b := AddIndexEntry(header.header.hash, forkCount + FORK_BIT);
      if added.Ok? {
        ghost var hash := header.header.hash;
        forkCount := forkCount + 1;
        assert PointedAt(d, genesis, at, View(), header, b);
        if takes {
          ForkIndexed(d, home, genesis, at, store, pending, b, header, View());
          store, pending, at := store.SaveHeader(header), pending - {hash}, at[hash := b];
        }
      }
      r := added;
    }

    /** Appends to the fork file and points the bucket there. Genesis, which is found behind every empty bucket, takes
        one of those. */
    method SaveForkBlock(header: DiskBlockHeader) returns (r: Result<(), FlatError>)
      requires headers != forks && !header.MainChain() && DiskOk(View(), home, genesis, at, store, pending)
      modifies forks, buckets, `forkCount, `occupancy, `store, `pending, `at
      ensures r == if old(forkCount) >= FORK_BIT then Err(OversizedIndex)
                   else if old(forkCount) >= forks.Length || old(occupancy) + 1 >= buckets.Length then Err(FullIndex)
                   else Ok(())
      ensures r.Err? ==>
                && store == old(store) && pending == old(pending) && at == old(at) && forkCount == old(forkCount)
                && DiskOk(View(), home, genesis, at, store, pending)
      ensures r.Ok? ==> ForkSaved(old(View()), genesis, old(at), View(), header)
      ensures r.Ok? && old(Takes(header)) ==>
                && store == old(store).SaveHeader(header) && pending == old(pending) - {header.header.hash}
                && InForkFile(View(), at, header.header.hash)
                && Reseated(old(View()), old(at), View(), at, header.header.hash)
                && DiskOk(View(), home, genesis, at, store, pending)
    {
      var index := NewFork(forkCount);
      if index.Err? {
        return Err(index.error);
      }
      if forkCount >= forks.Length {
        return Err(FullIndex);
      }
      WriteForkSlot(header);
      r := IndexForkSlot(header, old(View()));
    }

    /** Saves a header, whatever its slot holds. The cache takes it first, whether or not the files then do. The files
        stay right if what the slot holds may be overwritten, and for a block outside the best chain if it is not
        genesis. */
    method SaveHeader(header: DiskBlockHeader) returns (r: Result<(), FlatError>)
      requires Valid()
      modifies this, buckets, headers, forks
      ensures var place := if header.MainChain() then header.height else old(forkCount);
              var full := if header.MainChain() then header.height >= headers.Length
                          else old(forkCount) >= forks.Length || old(occupancy) + 1 >= buckets.Length;
              r == if place >= FORK_BIT then Err(OversizedIndex) else if full then Err(FullIndex) else Ok(())
      ensures r.Ok? ==>
                if header.MainChain() then View() == WithHeader(old(View()), header.height, header)
                else ForkSaved(old(View()), genesis, old(at), View(), header)
      ensures Cached(cache, header.header.hash) == Some(header)
      ensures r.Err? ==> Valid() && store == old(store) && pending == old(pending)
      ensures r.Err? ==> stale <= old(stale) + {header.header.hash} && forkCount == old(forkCount)
      ensures header.MainChain() ==> at == old(at)
      ensures r.Ok? && old(Takes(header)) ==>
                && Valid()
                && store == old(store).SaveHeader(header) && stale == old(stale) - {header.header.hash}
                && pending ==
                   if header.MainChain() then PendingAfter(old(View()), genesis, old(at), old(pending), header)
                   else old(pending) - {header.header.hash}
      ensures r.Ok? && old(Takes(header)) && !header.MainChain() ==>
                && InForkFile(View(), at, header.header.hash)
                && Reseated(old(View()), old(at), View(), at, header.header.hash)
    {
      PutKeeps(cache, cacheSize, store.headers, stale, header.header.hash, header);
      cache := Put(cache, cacheSize, header.header.hash, header);
      if header.MainChain() {
        r := WriteHeaderToStorage(header);
      } else {
        r := SaveForkBlock(header);
      }
      stale := if r.Ok? || Get(store.headers, header.header.hash) == Some(header) then stale - {header.header.hash}
               else stale + {header.header.hash};
    }

    /** Points a block's bucket at a best-chain slot. Any height and hash are taken; when the slot holds the block as
        it was last saved, that is what a lookup finds from then on. */
    method UpdateBlockIndex(height: nat, hash: BlockHash) returns (r: Result<(), FlatError>, ghost b: nat)
      requires Valid()
      modifies this, buckets
      ensures r == if height >= FORK_BIT then Err(OversizedIndex)
                   else if old(occupancy) + 1 >= buckets.Length then Err(FullIndex)
                   else Ok(())
      ensures r.Ok? ==>
                && b < buckets.Length
                && View() == WithBucket(old(View()), b, height, old(forkCount), hash != genesis && hash !in old(at))
      ensures store == old(store) && stale == old(stale) && cache == old(cache)
      ensures r.Err? ==> Valid() && View() == old(View()) && pending == old(pending) && at == old(at)
      ensures r.Ok? && old(Indexable(height, hash)) ==>
                && Valid() && pending == old(pending) - {hash} && store == store.UpdateBlockIndex(height, hash)
                && Seated(View(), genesis, at, height, hash)
                && if hash == genesis then at == old(at) && View() == old(View())
                   else Reseated(old(View()), old(at), View(), at, hash)
    {
      assert SlotOk(View(), store, height);
      b := 0;
      var index := NewIndex(height);
      if index.Err? {
        return Err(index.error), b;
      }
      ghost var d := View();
      r, b := AddIndexEntry(hash, index.value);
      if r.Ok? && old(Indexable(height, hash)) {
        if hash == genesis {
          GenesisBucket(d, home, genesis, at, store, pending, b);
          pending := pending - {hash};
        } else {
          IndexKeeps(d, home, genesis, at, store, pending, height, hash, b);
          pending, at := pending - {hash}, at[hash := b];
        }
      }
    }

    /** Whether a header may be saved now: what its slot holds must be found elsewhere. */
    method CanSave(header: DiskBlockHeader) returns (ok: bool)
      requires Valid()
      ensures ok <==> Takes(header)
    {
      if header.header.hash == NO_HASH || !header.MainChain() || header.height >= FORK_BIT ||
         header.height >= headers.Length {
        return header.header.hash != NO_HASH && (header.MainChain() || header.header.hash != genesis);
      }
      var g := headers[header.height].hash;
      if g == NO_HASH || g == header.header.hash || header.height == 0 {
        return header.height != 0 || g == NO_HASH || g == header.header.hash;
      }
      var found := HashMapFindPos(g);
      SearchDecides(KeysOf(View()), home, at, g, found.value.ptr);
      assert Latest(View(), genesis, at, store, pending, g) && BucketOk(View(), genesis, found.value.ptr);
      ok := buckets[found.value.ptr] != header.height;
    }

    // ---------- lookups ----------

    /** Finds a header by hash, through the cache. It never fails, and it agrees with the store for every hash
        that is neither waiting for its index nor cached out of date. */
    method GetHeader(hash: BlockHash) returns (r: Result<Option<DiskBlockHeader>, FlatError>)
      requires Valid()
      modifies `cache, `stale
      ensures Valid() && r.Ok?
      ensures r.value == if Cached(old(cache), hash).Some? then Cached(old(cache), hash)
                         else Lookup(View(), genesis, at, hash)
      ensures cache == if r.value.Some? then Put(old(cache), cacheSize, hash, r.value.value) else old(cache)
      ensures hash !in stale + pending ==> r.value == Get(store.headers, hash)
      ensures hash !in old(stale) + pending ==> stale == old(stale)
      ensures hash == genesis ==> r.value.Some?
      ensures stale <= old(stale) + ({hash} * pending)
    {
      var cached := Cached(cache, hash);
      if cached.Some? {
        assert Fresh(store.headers, stale, (hash, cached.value));
        PutKeeps(cache, cacheSize, store.headers, stale, hash, cached.value);
        cache := Put(cache, cacheSize, hash, cached.value);
        stale := if Get(store.headers, hash) == Some(cached.value) then stale - {hash} else stale + {hash};
        return Ok(Some(cached.value));
      }
      var found := HashMapFindPos(hash);
      assert Latest(View(), genesis, at, store, pending, hash);
      if found.value.Empty? {
        return Ok(None);
      }
      PutKeeps(cache, cacheSize, store.headers, stale, hash, found.value.header);
      cache := Put(cache, cacheSize, hash, found.value.header);
      stale := if Get(store.headers, hash) == Some(found.value.header) then stale - {hash} else stale + {hash};
      r := Ok(Some(found.value.header));
    }

    method GetHeaderByHeight(height: nat) returns (r: Result<Option<DiskBlockHeader>, FlatError>)
      requires Valid()
      ensures r.Err? <==> height >= FORK_BIT || height >= headers.Length
      ensures r.Err? ==> r.error == if height >= FORK_BIT then OversizedIndex else FullIndex
      ensures r.Ok? ==> r.value == if height in store.slots then Some(store.slots[height].disk) else None
    {
      assert SlotOk(View(), store, height);
      var index := NewIndex(height);
      if index.Err? {
        return Err(index.error);
      }
      var slot := ReadSlot(index.value);
      r := match slot
        case Ok(s) => Ok(Some(s.header))
        case Err(e) => if e == HeaderNotFound then Ok(None) else Err(e);
    }

    method GetBlockHash(height: nat) returns (r: Result<Option<BlockHash>, FlatError>)
      requires Valid()
      ensures r.Err? <==> height >= FORK_BIT || height >= headers.Length
      ensures r.Err? ==> r.error == if height >= FORK_BIT then OversizedIndex else FullIndex
      ensures r.Ok? ==> r.value == store.GetBlockHash(height)
    {
      assert SlotOk(View(), store, height);
      var index := NewIndex(height);
      if index.Err? {
        return Err(index.error);
      }
      var slot := ReadSlot(index.value);
      r := match slot
        case Ok(s) => Ok(Some(s.hash))
        case Err(e) => if e == HeaderNotFound then Ok(None) else Err(e);
    }
  }

  /** Genesis is behind every empty bucket, so indexing it writes nothing new. */
  lemma GenesisBucket(d: Disk, home: Home, genesis: BlockHash, at: Seats, store: Store, pending: set<BlockHash>, b: nat)
    requires DiskOk(d, home, genesis, at, store, pending) && StopsAt(KeysOf(d), home(genesis), genesis, b)
    requires Get(store.headers, genesis) == Some(d.headers[0].header)
    ensures b < |d.buckets| && d.buckets[b] == 0 && WithBucket(d, b, 0, d.forkCount, false) == d
    ensures DiskOk(d, home, genesis, at, store, pending - {genesis})
  {
    assert Latest(d, genesis, at, store, pending, genesis);
    SearchDecides(KeysOf(d), home, at, genesis, b);
    assert BucketOk(d, genesis, b);
    forall x
      ensures Latest(d, genesis, at, store, pending - {genesis}, x)
    {
      assert Latest(d, genesis, at, store, pending, x);
    }
  }

  /** A probe that meets the hash, in a bucket of its own or as genesis behind an empty one. */
  lemma Match(d: Disk, home: Home, genesis: BlockHash, at: Seats, store: Store, pending: set<BlockHash>, h: BlockHash,
              i: nat)
    requires DiskOk(d, home, genesis, at, store, pending) && i < |d.buckets| && Path(KeysOf(d), home(h), i)
    requires forall j: nat {:trigger At(KeysOf(d), home(h), j)} :: j < i ==> At(KeysOf(d), home(h), j) != Some(h)
    requires var v := d.buckets[Pos(home(h), i, |d.buckets|)];
             GetDiskHeader(d, v).Ok? && GetDiskHeader(d, v).value.hash == h
    ensures StopsAt(KeysOf(d), home(h), h, Pos(home(h), i, |d.buckets|))
    ensures h == genesis || h in at
    ensures Lookup(d, genesis, at, h) == Some(GetDiskHeader(d, d.buckets[Pos(home(h), i, |d.buckets|)]).value.header)
  {
    var b, ks := Pos(home(h), i, |d.buckets|), KeysOf(d);
    assert BucketOk(d, genesis, b) && At(ks, home(h), i) == ks[b];
    assert Stops(ks, home(h), h, i);
    SearchDecides(ks, home, at, h, b);
    assert Latest(d, genesis, at, store, pending, h);
  }

  lemma NoMatch(d: Disk, home: Home, genesis: BlockHash, at: Seats, store: Store, pending: set<BlockHash>, h: BlockHash,
                i: nat)
    requires DiskOk(d, home, genesis, at, store, pending) && i < |d.buckets| && Path(KeysOf(d), home(h), i)
    requires forall j: nat {:trigger At(KeysOf(d), home(h), j)} :: j < i ==> At(KeysOf(d), home(h), j) != Some(h)
    requires d.buckets[Pos(home(h), i, |d.buckets|)] == 0
    ensures StopsAt(KeysOf(d), home(h), h, Pos(home(h), i, |d.buckets|))
    ensures h !in at
  {
    var b, ks := Pos(home(h), i, |d.buckets|), KeysOf(d);
    assert At(ks, home(h), i) == ks[b] == None;
    assert Stops(ks, home(h), h, i);
    SearchDecides(ks, home, at, h, b);
  }

  /** The documented order of a reorganisation: the block that leaves the best chain is moved to the fork file
      before its slot is taken over. Both blocks are then found as saved. */
  method ReplaceInMainChain(s: FlatChainStore, g: Header, h: Header, n: nat) returns (ok: bool)
    requires s.Valid() && 0 < n < s.headers.Length && n < FORK_BIT && s.headers[n].hash == g.hash
    requires g.hash != h.hash && s.genesis !in {g.hash, h.hash} && NO_HASH !in {g.hash, h.hash}
    modifies s, s.buckets, s.headers, s.forks
    ensures s.Valid()
    ensures ok <==> && old(s.forkCount) < FORK_BIT && old(s.forkCount) < s.forks.Length
                    && old(s.occupancy) + (if g.hash in old(s.at) then 1 else 2) < s.buckets.Length
    ensures ok ==>
              && s.store == old(s.store).SaveHeader(InFork(g, n)).SaveHeader(HeadersOnly(h, n))
              && g.hash !in s.pending + s.stale && h.hash !in s.pending + s.stale
  {
    var r := s.SaveHeader(InFork(g, n));
    if r.Err? {
      return false;
    }
    ForkSavedKeeps(old(s.View()), s.genesis, old(s.at), s.View(), InFork(g, n));
    r := s.SaveHeader(HeadersOnly(h, n));
    if r.Err? {
      return false;
    }
    assert SlotOk(s.View(), s.store, n);
    ghost var b;
    r, b := s.UpdateBlockIndex(n, h.hash);
    ok := r.Ok?;
  }
}
