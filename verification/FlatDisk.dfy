/**
  The files of the flat chain store: buckets that hold tagged indexes, headers by
  height, headers of forks in order of arrival, and what relates them to the store
  that `ChainState` works with.
 */
module FlatDisk {
  import opened Prelude
  import opened ChainTypes
  import opened ProbeTable

  /** Tag of an index into the fork file. */
  const FORK_BIT: nat := 0x8000_0000

  /** Stands for the all-zero hash of a slot that was never written. */
  const NO_HASH: BlockHash := 0

  datatype FlatError = FullIndex | HeaderNotFound | OversizedIndex

  datatype HashedDiskHeader = HashedDiskHeader(header: DiskBlockHeader, hash: BlockHash)

  datatype Disk = Disk(buckets: seq<nat>, headers: seq<HashedDiskHeader>, forks: seq<HashedDiskHeader>,
                       forkCount: nat, occupancy: nat)

  // ---------- tagged indexes ----------

  function NewIndex(i: nat): Result<nat, FlatError> {
    if i >= FORK_BIT then Err(OversizedIndex) else Ok(i)
  }

  function NewFork(i: nat): Result<nat, FlatError> {
    if i >= FORK_BIT then Err(OversizedIndex) else Ok(i + FORK_BIT)
  }

  predicate IsMainChain(v: nat) {
    v < FORK_BIT
  }

  function Untagged(v: nat): nat {
    if IsMainChain(v) then v else v - FORK_BIT
  }

  // ---------- slots ----------

  function FileOf(d: Disk, v: nat): seq<HashedDiskHeader> {
    if IsMainChain(v) then d.headers else d.forks
  }

  function GetDiskHeader(d: Disk, v: nat): Result<HashedDiskHeader, FlatError> {
    if Untagged(v) >= |FileOf(d, v)| then Err(FullIndex)
    else if FileOf(d, v)[Untagged(v)].hash == NO_HASH then Err(HeaderNotFound)
    else Ok(FileOf(d, v)[Untagged(v)])
  }

  function KeyOf(d: Disk, v: nat): Option<BlockHash> {
    if v == 0 then None
    else match GetDiskHeader(d, v)
      case Ok(slot) => Some(slot.hash)
      case Err(_) => None
  }

  function KeysOf(d: Disk): (ks: Keys)
    ensures |ks| == |d.buckets|
  {
    seq(|d.buckets|, b requires 0 <= b < |d.buckets| => KeyOf(d, d.buckets[b]))
  }

  // ---------- the invariant ----------

  type Home = BlockHash -> nat
  type Seats = map<BlockHash, nat>

  /** A bucket in use points to a slot that was written, and not to genesis. */
  ghost predicate BucketOk(d: Disk, genesis: BlockHash, b: nat) {
    b < |d.buckets| && d.buckets[b] != 0 ==>
      && GetDiskHeader(d, d.buckets[b]).Ok?
      && GetDiskHeader(d, d.buckets[b]).value.hash != genesis
      && (!IsMainChain(d.buckets[b]) ==> Untagged(d.buckets[b]) < d.forkCount)
  }

  /** What the buckets lead to: genesis through any empty bucket, other blocks through their own. */
  ghost function Lookup(d: Disk, genesis: BlockHash, at: Seats, h: BlockHash): Option<DiskBlockHeader> {
    if h == genesis then
      if |d.headers| > 0 then Some(d.headers[0].header) else None
    else if h in at && at[h] < |d.buckets| && GetDiskHeader(d, d.buckets[at[h]]).Ok? then
      Some(GetDiskHeader(d, d.buckets[at[h]]).value.header)
    else None
  }

  /** A block is found as it was last saved, unless its index is yet to be updated. */
  ghost predicate Latest(d: Disk, genesis: BlockHash, at: Seats, store: Store, pending: set<BlockHash>, h: BlockHash) {
    && (h in at ==> h in store.headers && h != genesis)
    && (h !in pending ==> Lookup(d, genesis, at, h) == Get(store.headers, h))
  }

  /** A slot of the header file is the store's slot of that height. */
  ghost predicate SlotOk(d: Disk, store: Store, n: nat) {
    if n < |d.headers| && d.headers[n].hash != NO_HASH then
      n in store.slots && store.slots[n].disk == d.headers[n].header && store.slots[n].hash == d.headers[n].hash
    else
      n !in store.slots
  }

  ghost predicate DiskOk(d: Disk, home: Home, genesis: BlockHash, at: Seats, store: Store, pending: set<BlockHash>) {
    && |d.headers| > 0 && d.headers[0].hash == genesis != NO_HASH
    && TableOk(KeysOf(d), home, at)
    && d.occupancy == |at| < |d.buckets|
    && (forall b {:trigger BucketOk(d, genesis, b)} :: 0 <= b ==> BucketOk(d, genesis, b))
    && (forall h {:trigger Latest(d, genesis, at, store, pending, h)} :: Latest(d, genesis, at, store, pending, h))
    && (forall n {:trigger SlotOk(d, store, n)} :: 0 <= n ==> SlotOk(d, store, n))
  }

  // ---------- writing a best-chain header ----------

  /** The slot is free, holds the same block, or holds one that is looked up elsewhere, as a block moved to
      the fork file is. */
  ghost predicate MayWrite(d: Disk, at: Seats, n: nat, h: BlockHash)
    requires n < |d.headers|
  {
    var g := d.headers[n].hash;
    g == NO_HASH || g == h || (n != 0 && !(g in at && at[g] < |d.buckets| && d.buckets[at[g]] == n))
  }

  /** The block's bucket leads to the fork file. */
  ghost predicate InForkFile(d: Disk, at: Seats, h: BlockHash) {
    h in at && at[h] < |d.buckets| && !IsMainChain(d.buckets[at[h]])
  }

  /** Only the bucket of `h` has changed. */
  ghost predicate Reseated(d: Disk, at: Seats, d': Disk, at': Seats, h: BlockHash) {
    && h in at' && at'[h] < |d.buckets| == |d'.buckets|
    && at' == at[h := at'[h]]
    && d'.buckets == d.buckets[at'[h] := d'.buckets[at'[h]]]
  }

  function WithHeader(d: Disk, n: nat, header: DiskBlockHeader): Disk
    requires n < |d.headers|
  {
    d.(headers := d.headers[n := HashedDiskHeader(header, header.header.hash)])
  }

  /** The block is looked up through the slot just written. */
  ghost predicate Seated(d: Disk, genesis: BlockHash, at: Seats, n: nat, h: BlockHash) {
    (h == genesis && n == 0) || (h in at && at[h] < |d.buckets| && d.buckets[at[h]] == n)
  }

  /** A bucket that points to a slot about to be overwritten belongs to the block being written. */
  lemma OwnBucket(d: Disk, home: Home, genesis: BlockHash, at: Seats, store: Store, pending: set<BlockHash>, n: nat,
                  h: BlockHash, b: nat)
    requires DiskOk(d, home, genesis, at, store, pending)
    requires n < |d.headers| && n < FORK_BIT && MayWrite(d, at, n, h) && b < |d.buckets| && d.buckets[b] == n != 0
    ensures d.headers[n].hash == h && KeysOf(d)[b] == Some(h) && h in at && at[h] == b
  {
    assert BucketOk(d, genesis, b) && Placed(KeysOf(d), home, at, b);
    assert KeysOf(d)[b] == Some(d.headers[n].hash);
  }

  lemma WriteKeepsKeys(d: Disk, home: Home, genesis: BlockHash, at: Seats, store: Store, pending: set<BlockHash>,
                       n: nat, header: DiskBlockHeader)
    requires DiskOk(d, home, genesis, at, store, pending)
    requires n < |d.headers| && n < FORK_BIT && header.header.hash != NO_HASH && MayWrite(d, at, n, header.header.hash)
    ensures KeysOf(WithHeader(d, n, header)) == KeysOf(d)
  {
    var d' := WithHeader(d, n, header);
    forall b | 0 <= b < |d.buckets|
      ensures KeyOf(d', d.buckets[b]) == KeyOf(d, d.buckets[b])
    {
      if d.buckets[b] == n && n != 0 {
        OwnBucket(d, home, genesis, at, store, pending, n, header.header.hash, b);
      }
    }
  }

  /** Slot 0 stays with genesis. */
  lemma GenesisStays(d: Disk, home: Home, genesis: BlockHash, at: Seats, store: Store, pending: set<BlockHash>,
                     h: BlockHash)
    requires DiskOk(d, home, genesis, at, store, pending) && MayWrite(d, at, 0, h)
    ensures h == genesis
  {
    assert Latest(d, genesis, at, store, pending, genesis);
  }

  lemma WriteLookup(d: Disk, home: Home, genesis: BlockHash, at: Seats, store: Store, pending: set<BlockHash>,
                    header: DiskBlockHeader, x: BlockHash)
    requires DiskOk(d, home, genesis, at, store, pending) && header.MainChain()
    requires var n := header.height; n < |d.headers| && n < FORK_BIT && MayWrite(d, at, n, header.header.hash)
    requires header.header.hash != NO_HASH
    ensures var d' := WithHeader(d, header.height, header);
            Lookup(d', genesis, at, x) ==
            if x == header.header.hash && Seated(d, genesis, at, header.height, x) then Some(header)
            else Lookup(d, genesis, at, x)
  {
    var n := header.height;
    if n == 0 {
      GenesisStays(d, home, genesis, at, store, pending, header.header.hash);
    }
    assert Latest(d, genesis, at, store, pending, x) && Registered(KeysOf(d), at, x);
    if x in at {
      assert BucketOk(d, genesis, at[x]);
      if d.buckets[at[x]] == n {
        OwnBucket(d, home, genesis, at, store, pending, n, header.header.hash, at[x]);
      }
    }
  }

  /** Hashes whose index does not lead to their newest header, after a best-chain header was written. */
  ghost function PendingAfter(d: Disk, genesis: BlockHash, at: Seats, pending: set<BlockHash>,
                              header: DiskBlockHeader): set<BlockHash>
    requires header.MainChain()
  {
    if Seated(d, genesis, at, header.height, header.header.hash) then pending - {header.header.hash}
    else pending + {header.header.hash}
  }

  lemma WriteKeeps(d: Disk, home: Home, genesis: BlockHash, at: Seats, store: Store, pending: set<BlockHash>,
                   header: DiskBlockHeader)
    requires DiskOk(d, home, genesis, at, store, pending) && header.MainChain()
    requires var n := header.height; n < |d.headers| && n < FORK_BIT && MayWrite(d, at, n, header.header.hash)
    requires header.header.hash != NO_HASH
    ensures DiskOk(WithHeader(d, header.height, header), home, genesis, at, store.SaveHeader(header),
                   PendingAfter(d, genesis, at, pending, header))
  {
    var n, h, d' := header.height, header.header.hash, WithHeader(d, header.height, header);
    var store', pending' := store.SaveHeader(header), PendingAfter(d, genesis, at, pending, header);
    WriteKeepsKeys(d, home, genesis, at, store, pending, n, header);
    if n == 0 {
      GenesisStays(d, home, genesis, at, store, pending, h);
    }
    forall b | 0 <= b
      ensures BucketOk(d', genesis, b)
    {
      assert BucketOk(d, genesis, b);
      if b < |d.buckets| && d.buckets[b] == n && n != 0 {
        OwnBucket(d, home, genesis, at, store, pending, n, h, b);
      }
    }
    forall x
      ensures Latest(d', genesis, at, store', pending', x)
    {
      assert Latest(d, genesis, at, store, pending, x);
      WriteLookup(d, home, genesis, at, store, pending, header, x);
    }
    forall m | 0 <= m
      ensures SlotOk(d', store', m)
    {
      assert SlotOk(d, store, m);
    }
  }

  /** Overwriting a slot that a bucket leads to leaves the block it held without a bucket. */
  lemma LostKey(d: Disk, home: Home, genesis: BlockHash, at: Seats, store: Store, pending: set<BlockHash>,
                header: DiskBlockHeader)
    requires DiskOk(d, home, genesis, at, store, pending) && header.MainChain()
    requires var n := header.height; n < |d.headers| && n < FORK_BIT && !MayWrite(d, at, n, header.header.hash)
    ensures forall b :: 0 <= b < |d.buckets| ==>
              KeysOf(WithHeader(d, header.height, header))[b] != Some(d.headers[header.height].hash)
  {
    var d', g := WithHeader(d, header.height, header), d.headers[header.height].hash;
    assert Latest(d, genesis, at, store, pending, g) && Registered(KeysOf(d), at, g);
    forall b | 0 <= b < |d.buckets|
      ensures KeysOf(d')[b] != Some(g)
    {
      assert Placed(KeysOf(d), home, at, b) && BucketOk(d, genesis, b);
    }
  }

  /** The condition is needed: overwriting any other slot loses the block it held, whatever the buckets say. */
  lemma OverwriteLoses(d: Disk, home: Home, genesis: BlockHash, at: Seats, store: Store, pending: set<BlockHash>,
                       header: DiskBlockHeader, at': Seats, pending': set<BlockHash>)
    requires DiskOk(d, home, genesis, at, store, pending) && header.MainChain()
    requires var n := header.height; n < |d.headers| && n < FORK_BIT && !MayWrite(d, at, n, header.header.hash)
    requires d.headers[header.height].hash !in pending'
    ensures !DiskOk(WithHeader(d, header.height, header), home, genesis, at', store.SaveHeader(header), pending')
  {
    var d', store' := WithHeader(d, header.height, header), store.SaveHeader(header);
    var g := d.headers[header.height].hash;
    LostKey(d, home, genesis, at, store, pending, header);
    assert Latest(d, genesis, at, store, pending, g);
    var found, seated := Latest(d', genesis, at', store', pending', g), Registered(KeysOf(d'), at', g);
  }

  // ---------- writing a bucket ----------

  function WithBucket(d: Disk, b: nat, v: nat, forkCount: nat, isNew: bool): Disk
    requires b < |d.buckets|
  {
    d.(buckets := d.buckets[b := v], forkCount := forkCount,
       occupancy := if isNew then d.occupancy + 1 else d.occupancy)
  }

  /** An index that leads to a slot holding the block. */
  ghost predicate LeadsTo(d: Disk, v: nat, forkCount: nat, h: BlockHash) {
    && v != 0 && GetDiskHeader(d, v).Ok? && GetDiskHeader(d, v).value.hash == h
    && d.forkCount <= forkCount && (!IsMainChain(v) ==> Untagged(v) < forkCount)
  }

  lemma BucketKeys(d: Disk, home: Home, genesis: BlockHash, at: Seats, store: Store, pending: set<BlockHash>,
                   h: BlockHash, b: nat, v: nat, forkCount: nat)
    requires DiskOk(d, home, genesis, at, store, pending) && h != genesis && LeadsTo(d, v, forkCount, h)
    requires StopsAt(KeysOf(d), home(h), h, b)
    ensures b < |d.buckets|
    ensures TableOk(KeysOf(WithBucket(d, b, v, forkCount, h !in at)), home, at[h := b])
    ensures KeysOf(WithBucket(d, b, v, forkCount, h !in at)) == KeysOf(d)[b := Some(h)]
  {
    SearchDecides(KeysOf(d), home, at, h, b);
    var d' := WithBucket(d, b, v, forkCount, h !in at);
    assert KeyOf(d', v) == Some(h);
    assert forall i :: 0 <= i < |d.buckets| ==> KeyOf(d', d.buckets[i]) == KeyOf(d, d.buckets[i]);
    assert KeysOf(d') == KeysOf(d)[b := Some(h)];
    if h in at {
      assert KeysOf(d') == KeysOf(d);
      assert at[h := b] == at;
    } else {
      InsertKeeps(KeysOf(d), home, at, h, b);
    }
  }

  lemma BucketLookup(d: Disk, home: Home, genesis: BlockHash, at: Seats, store: Store, pending: set<BlockHash>,
                     h: BlockHash, b: nat, v: nat, forkCount: nat, x: BlockHash)
    requires DiskOk(d, home, genesis, at, store, pending) && h != genesis && LeadsTo(d, v, forkCount, h)
    requires b < |d.buckets| && (if h in at then at[h] == b else KeysOf(d)[b] == None)
    ensures Lookup(WithBucket(d, b, v, forkCount, h !in at), genesis, at[h := b], x)
            == if x == h then Some(GetDiskHeader(d, v).value.header) else Lookup(d, genesis, at, x)
  {
    var d' := WithBucket(d, b, v, forkCount, h !in at);
    assert Registered(KeysOf(d), at, x) && Registered(KeysOf(d), at, h);
    assert GetDiskHeader(d', v) == GetDiskHeader(d, v);
    if x != h && x in at {
      assert at[x] != b;
      assert GetDiskHeader(d', d.buckets[at[x]]) == GetDiskHeader(d, d.buckets[at[x]]);
    }
  }

  /** Pointing a block's bucket at its newest header makes that header the one found. */
  lemma BucketKeeps(d: Disk, home: Home, genesis: BlockHash, at: Seats, store: Store, pending: set<BlockHash>,
                    h: BlockHash, b: nat, v: nat, forkCount: nat, header: DiskBlockHeader)
    requires DiskOk(d, home, genesis, at, store, pending) && h != genesis && LeadsTo(d, v, forkCount, h)
    requires StopsAt(KeysOf(d), home(h), h, b) && d.occupancy + 1 < |d.buckets|
    requires GetDiskHeader(d, v).value.header == header
    ensures b < |d.buckets|
    ensures DiskOk(WithBucket(d, b, v, forkCount, h !in at), home, genesis, at[h := b],
                   Store(store.headers[h := header], store.slots), pending - {h})
  {
    BucketKeys(d, home, genesis, at, store, pending, h, b, v, forkCount);
    SearchDecides(KeysOf(d), home, at, h, b);
    var d', at' := WithBucket(d, b, v, forkCount, h !in at), at[h := b];
    var store', pending' := Store(store.headers[h := header], store.slots), pending - {h};
    assert |at'| == if h in at then |at| else |at| + 1 by {
      assert at'.Keys == at.Keys + {h};
    }
    forall c | 0 <= c
      ensures BucketOk(d', genesis, c)
    {
      assert BucketOk(d, genesis, c);
    }
    forall x
      ensures Latest(d', genesis, at', store', pending', x)
    {
      BucketLookup(d, home, genesis, at, store, pending, h, b, v, forkCount, x);
      assert Latest(d, genesis, at, store, pending, x);
    }
    forall m | 0 <= m
      ensures SlotOk(d', store', m)
    {
      assert SlotOk(d, store, m);
    }
  }

  // ---------- writing a fork header ----------

  function WithFork(d: Disk, header: DiskBlockHeader): Disk
    requires d.forkCount < |d.forks|
  {
    d.(forks := d.forks[d.forkCount := HashedDiskHeader(header, header.header.hash)])
  }

  /** The next free fork slot is behind no bucket, so filling it changes nothing that is found. */
  lemma ForkSlotKeeps(d: Disk, home: Home, genesis: BlockHash, at: Seats, store: Store, pending: set<BlockHash>,
                      header: DiskBlockHeader)
    requires DiskOk(d, home, genesis, at, store, pending) && d.forkCount < |d.forks|
    ensures DiskOk(WithFork(d, header), home, genesis, at, store, pending)
  {
    var d' := WithFork(d, header);
    forall b | 0 <= b < |d.buckets|
      ensures KeyOf(d', d.buckets[b]) == KeyOf(d, d.buckets[b])
    {
      assert BucketOk(d, genesis, b);
    }
    assert KeysOf(d') == KeysOf(d);
    forall b | 0 <= b
      ensures BucketOk(d', genesis, b)
    {
      assert BucketOk(d, genesis, b);
    }
    forall x
      ensures Latest(d', genesis, at, store, pending, x)
    {
      assert Latest(d, genesis, at, store, pending, x) && Registered(KeysOf(d), at, x);
      if x in at {
        assert BucketOk(d, genesis, at[x]);
      }
    }
    forall m | 0 <= m
      ensures SlotOk(d', store, m)
    {
      assert SlotOk(d, store, m);
    }
  }

  lemma ForkKeeps(d: Disk, home: Home, genesis: BlockHash, at: Seats, store: Store, pending: set<BlockHash>, b: nat,
                  header: DiskBlockHeader)
    requires d.forkCount < |d.forks| && !header.MainChain() && header.header.hash != NO_HASH &&
             header.header.hash != genesis
    requires DiskOk(WithFork(d, header), home, genesis, at, store, pending) && d.occupancy + 1 < |d.buckets|
    requires StopsAt(KeysOf(WithFork(d, header)), home(header.header.hash), header.header.hash, b)
    ensures b < |d.buckets|
    ensures var h := header.header.hash;
            DiskOk(WithBucket(WithFork(d, header), b, d.forkCount + FORK_BIT, d.forkCount + 1, h !in at),
                   home, genesis, at[h := b], store.SaveHeader(header), pending - {h})
  {
    BucketKeeps(WithFork(d, header), home, genesis, at, store, pending, header.header.hash, b, d.forkCount + FORK_BIT,
                d.forkCount + 1, header);
  }

  /** The header was appended to the fork file, and bucket `b` points to it. */
  ghost predicate PointedAt(d: Disk, genesis: BlockHash, at: Seats, d': Disk, header: DiskBlockHeader, b: nat) {
    && d.forkCount < |d.forks| && b < |d.buckets|
    && d' == WithBucket(WithFork(d, header), b, d.forkCount + FORK_BIT, d.forkCount + 1,
                        header.header.hash != genesis && header.header.hash !in at)
  }

  ghost predicate ForkSaved(d: Disk, genesis: BlockHash, at: Seats, d': Disk, header: DiskBlockHeader) {
    exists b: nat :: PointedAt(d, genesis, at, d', header, b)
  }

  /** What pointing a bucket at the appended header does, for a block other than genesis. */
  lemma ForkIndexed(d: Disk, home: Home, genesis: BlockHash, at: Seats, store: Store, pending: set<BlockHash>, b: nat,
                    header: DiskBlockHeader, d': Disk)
    requires d.forkCount < FORK_BIT && !header.MainChain() && header.header.hash != NO_HASH
    requires header.header.hash != genesis && d.occupancy + 1 < |d.buckets|
    requires PointedAt(d, genesis, at, d', header, b) && DiskOk(WithFork(d, header), home, genesis, at, store, pending)
    requires StopsAt(KeysOf(WithFork(d, header)), home(header.header.hash), header.header.hash, b)
    ensures var h, at' := header.header.hash, at[header.header.hash := b];
            && DiskOk(d', home, genesis, at', store.SaveHeader(header), pending - {h})
            && InForkFile(d', at', h) && Reseated(WithFork(d, header), at, d', at', h)
  {
    ForkKeeps(d, home, genesis, at, store, pending, b, header);
  }

  /** Genesis saved as a fork takes a bucket of its own, which no reading of the files allows: it is found behind the
      empty ones. */
  lemma GenesisForkLoses(d: Disk, home: Home, genesis: BlockHash, at: Seats, b: nat, header: DiskBlockHeader, d': Disk,
                         at': Seats, store': Store, pending': set<BlockHash>)
    requires PointedAt(d, genesis, at, d', header, b) && header.header.hash == genesis != NO_HASH
    ensures !DiskOk(d', home, genesis, at', store', pending')
  {
    var found := BucketOk(d', genesis, b);
  }

  /** A best-chain header with the hash that marks empty slots reads as not written. */
  lemma NoHashLoses(d: Disk, home: Home, genesis: BlockHash, header: DiskBlockHeader, at': Seats, store: Store,
                    pending': set<BlockHash>)
    requires header.MainChain() && header.height < |d.headers| && header.header.hash == NO_HASH
    ensures !DiskOk(WithHeader(d, header.height, header), home, genesis, at', store.SaveHeader(header), pending')
  {
    var written := SlotOk(WithHeader(d, header.height, header), store.SaveHeader(header), header.height);
  }

  lemma ForkSavedKeeps(d: Disk, genesis: BlockHash, at: Seats, d': Disk, header: DiskBlockHeader)
    requires ForkSaved(d, genesis, at, d', header)
    ensures d'.headers == d.headers && d'.forkCount == d.forkCount + 1 && d'.occupancy <= d.occupancy + 1
  {
    var b: nat :| PointedAt(d, genesis, at, d', header, b);
  }

  /** The slot of a best-chain block is the right place for its bucket to point. */
  lemma SlotLeads(d: Disk, n: nat, h: BlockHash)
    requires 0 < n < |d.headers| && n < FORK_BIT && d.headers[n].hash == h != NO_HASH
    ensures LeadsTo(d, n, d.forkCount, h) && GetDiskHeader(d, n) == Ok(d.headers[n])
  {
  }

  lemma IndexKeeps(d: Disk, home: Home, genesis: BlockHash, at: Seats, store: Store, pending: set<BlockHash>, n: nat,
                   h: BlockHash, b: nat)
    requires DiskOk(d, home, genesis, at, store, pending) && h != genesis && d.occupancy + 1 < |d.buckets|
    requires n < |d.headers| && n < FORK_BIT && d.headers[n].hash == h != NO_HASH &&
             Get(store.headers, h) == Some(d.headers[n].header)
    requires StopsAt(KeysOf(d), home(h), h, b)
    ensures b < |d.buckets|
    ensures DiskOk(WithBucket(d, b, n, d.forkCount, h !in at), home, genesis, at[h := b], store, pending - {h})
  {
    SlotLeads(d, n, h);
    BucketKeeps(d, home, genesis, at, store, pending, h, b, n, d.forkCount, d.headers[n].header);
    assert store.headers[h := d.headers[n].header] == store.headers;
  }

  // ---------- a new store ----------

  /** Empty files with genesis in the first slot. */
  lemma NewDisk(d: Disk, home: Home, g: Header)
    requires HomeOk(home, |d.buckets|) && (forall b :: 0 <= b < |d.buckets| ==> d.buckets[b] == 0)
    requires |d.headers| > 0 && d.headers[0] == HashedDiskHeader(FullyValid(g, 0), g.hash) && g.hash != NO_HASH
    requires (forall n :: 0 < n < |d.headers| ==> d.headers[n].hash == NO_HASH) && d.occupancy == 0
    ensures DiskOk(d, home, g.hash, map[], Store(map[], map[]).SaveHeader(FullyValid(g, 0)), {})
  {
    assert forall b :: 0 <= b < |d.buckets| ==> KeysOf(d)[b] == None;
  }
}
