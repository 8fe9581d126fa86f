/**
  The purpose of the gap: if every payment to a derived address stays within the gap
  above the payments before it, the wallet watches each address before it is paid.
 */
module WalletGap {
  import opened Prelude
  import opened Transactions
  import opened WalletScan
  import opened WalletLedger
  import opened WalletDerivation

  /** Every descriptor that parses can be derived at every index. */
  ghost predicate Endless(dv: Deriver) {
    forall d, start: nat, count: nat {:trigger Derivable(dv, d, start, count)} ::
      dv.wildcard(d).Some? && dv.paths(d).Some? ==> Derivable(dv, d, start, count)
  }

  /** With such descriptors no batch fails. */
  lemma EndlessDerivable(dv: Deriver, ds: seq<Descriptor>, horizon: nat, failed: bool, keys: set<Hash>,
                         derived: DerivedIndex)
    requires Endless(dv) && HorizonOk(dv, ds, horizon, failed, keys, derived)
    ensures AllDerivable(dv, ds, horizon, DERIVATION_COUNT)
  {
    forall d | d in ds
      ensures Derivable(dv, d, horizon, DERIVATION_COUNT)
    {
      assert Watched(dv, keys, derived, d, 0, horizon);
    }
  }

  /** A descriptor of the list yields the address at index `i`. */
  ghost predicate YieldedAt(dv: Deriver, ds: seq<Descriptor>, h: Hash, i: nat) {
    exists d :: d in ds && Derives(dv, d, h, i)
  }

  /** No address is yielded at two indexes. */
  ghost predicate Unique(dv: Deriver, ds: seq<Descriptor>) {
    forall h, i: nat, j: nat {:trigger YieldedAt(dv, ds, h, i), YieldedAt(dv, ds, h, j)} ::
      YieldedAt(dv, ds, h, i) && YieldedAt(dv, ds, h, j) ==> i == j
  }

  /** An index at which the address is yielded, if there is one. */
  ghost function IndexFor(dv: Deriver, ds: seq<Descriptor>, h: Hash): (r: Option<nat>)
    ensures r.Some? ==> YieldedAt(dv, ds, h, r.value)
    ensures r.None? ==> forall i: nat :: !YieldedAt(dv, ds, h, i)
  {
    if i: nat :| YieldedAt(dv, ds, h, i) then Some(i) else None
  }

  // ---------- how far a scan has got ----------

  /** The scan so far, all outputs it has met, and the horizon the wallet had when it began. */
  datatype Trail = Trail(scan: seq<Coin>, outs: seq<TxOut>, start: nat) {
    /** An input at a positive height was spent. */
    function Spend(height: nat, op: OutPoint): Trail {
      Progress(height, this, Trail(SpendCoin(scan, op), outs, start))
    }

    function SpendAll(height: nat, inputs: seq<OutPoint>, n: nat): Trail
      requires n <= |inputs|
    {
      Progress(height, this, Trail(SpendCoins(scan, inputs, n), outs, start))
    }

    /** A coin at a positive height was created. */
    function Pay(height: nat, c: Coin): Trail {
      Progress(height, this, Trail(scan + [c], outs + [c.out], start))
    }

    function PayAll(height: nat, tx: Transaction, n: nat): Trail
      requires n <= |tx.outputs|
    {
      Progress(height, this, Trail(AddCoins(scan, tx, n), outs + tx.outputs[..n], start))
    }

    function Follow(height: nat, tx: Transaction): Trail {
      SpendAll(height, tx.inputs, |tx.inputs|).PayAll(height, tx, |tx.outputs|)
    }
  }

  function TrailOf(history: seq<Transaction>, start: nat): Trail {
    Trail(Scan(history), OutsOf(history), start)
  }

  lemma SpendNext(trail: Trail, height: nat, inputs: seq<OutPoint>, n: nat)
    requires n < |inputs|
    ensures trail.SpendAll(height, inputs, n + 1) == trail.SpendAll(height, inputs, n).Spend(height, inputs[n])
  {
  }

  lemma PayNext(trail: Trail, height: nat, tx: Transaction, n: nat)
    requires n < |tx.outputs|
    ensures trail.PayAll(height, tx, n + 1) == trail.PayAll(height, tx, n).Pay(height, CoinAt(tx, n))
  {
    assert tx.outputs[..n + 1] == tx.outputs[..n] + [tx.outputs[n]];
    assert trail.outs + tx.outputs[..n] + [tx.outputs[n]] == trail.outs + (tx.outputs[..n] + [tx.outputs[n]]);
  }

  lemma PayNone(trail: Trail, height: nat, tx: Transaction)
    ensures trail.PayAll(height, tx, 0) == trail
  {
    assert trail.outs + tx.outputs[..0] == trail.outs;
  }

  lemma FollowIs(history: seq<Transaction>, start: nat, height: nat, tx: Transaction)
    ensures TrailOf(history, start).Follow(height, tx) ==
            TrailOf(Progress(height, history, history + [tx]), start)
  {
    assert (history + [tx])[..|history|] == history;
    assert tx.outputs[..|tx.outputs|] == tx.outputs;
  }

  /** The addresses are in step with the scan. */
  ghost predicate AtStep(hash: SpkHash, trail: Trail, m: Addresses, tracked: set<Hash>) {
    InStep(hash, trail.scan, m, tracked, PaidTo(hash, trail.outs))
  }

  lemma SpendStep(hash: SpkHash, seen: Seen, height: nat, trail: Trail, m: Addresses, mid: Addresses, m': Addresses,
                  index: UtxoIndex, index': UtxoIndex, tracked: set<Hash>, op: OutPoint, id: Txid)
    requires LedgerOk(hash, seen, m, index) && AtStep(hash, trail, m, tracked) && op in index && Grown(m, mid)
    requires Entered(height, true, mid, m', index, index', index[op], op, ValueOf(seen, op), id)
    ensures AtStep(hash, trail.Spend(height, op), m', Tracking(hash, trail.scan, mid, tracked))
  {
    var paid := PaidTo(hash, trail.outs);
    GrownKeeps(hash, seen, m, mid, index);
    GrownFollows(hash, trail.scan, m, mid, tracked, paid);
    SpendEntryFollows(hash, seen, height, trail.scan, mid, m', index, index', Tracking(hash, trail.scan, mid, tracked),
                      paid, op, id);
  }

  lemma ForeignSpendStep(hash: SpkHash, seen: Seen, height: nat, trail: Trail, m: Addresses, index: UtxoIndex,
                         tracked: set<Hash>, op: OutPoint)
    requires LedgerOk(hash, seen, m, index) && AtStep(hash, trail, m, tracked) && op !in index
    ensures AtStep(hash, trail.Spend(height, op), m, tracked)
  {
    if height > 0 {
      ForeignSpendFollows(hash, seen, trail.scan, m, index, tracked, PaidTo(hash, trail.outs), op);
    }
  }

  lemma PayStep(hash: SpkHash, height: nat, trail: Trail, m: Addresses, mid: Addresses, m': Addresses,
                index: UtxoIndex, index': UtxoIndex, tracked: set<Hash>, c: Coin, id: Txid)
    requires AtStep(hash, trail, m, tracked) && Grown(m, mid)
    requires Entered(height, false, mid, m', index, index', hash(c.out.script), c.outpoint, c.out.value, id)
    ensures AtStep(hash, trail.Pay(height, c), m', Tracking(hash, trail.scan, mid, tracked))
  {
    var paid := PaidTo(hash, trail.outs);
    GrownFollows(hash, trail.scan, m, mid, tracked, paid);
    ReceiveEntryFollows(hash, height, trail.scan, mid, m', index, index', Tracking(hash, trail.scan, mid, tracked),
                        paid, c, id);
    OnePaid(hash, trail.outs, c.out);
  }

  lemma ForeignPayStep(hash: SpkHash, height: nat, trail: Trail, m: Addresses, tracked: set<Hash>, c: Coin)
    requires AtStep(hash, trail, m, tracked) && hash(c.out.script) !in m
    ensures AtStep(hash, trail.Pay(height, c), m, tracked)
  {
    if height > 0 {
      ForeignReceiveFollows(hash, trail.scan, m, tracked, PaidTo(hash, trail.outs), c);
      OnePaid(hash, trail.outs, c.out);
    }
  }

  // ---------- payments in order ----------

  /** How far a wallet that starts with a horizon must have derived after the payments: beyond the gap above each. */
  ghost function Reach(dv: Deriver, ds: seq<Descriptor>, start: nat, outs: seq<TxOut>): nat {
    if outs == [] then start
    else
      var reach := Reach(dv, ds, start, outs[..|outs| - 1]);
      match IndexFor(dv, ds, dv.spkHash(outs[|outs| - 1].script))
      case Some(i) => if i + GAP_LIMIT < reach then reach else i + GAP_LIMIT + 1
      case None => reach
  }

  /** Each payment to a derived address is within the starting horizon or the gap above an earlier one. */
  ghost predicate Orderly(dv: Deriver, ds: seq<Descriptor>, start: nat, outs: seq<TxOut>) {
    outs == [] ||
    (var n := |outs| - 1;
     && Orderly(dv, ds, start, outs[..n])
     && var i := IndexFor(dv, ds, dv.spkHash(outs[n].script));
        i.Some? ==> i.value < Reach(dv, ds, start, outs[..n]))
  }

  /** The gap above every payment is within reach. */
  lemma {:induction false} ReachBeyond(dv: Deriver, ds: seq<Descriptor>, start: nat, outs: seq<TxOut>, k: nat, i: nat)
    requires Unique(dv, ds) && k < |outs| && YieldedAt(dv, ds, dv.spkHash(outs[k].script), i)
    ensures i + GAP_LIMIT < Reach(dv, ds, start, outs)
  {
    if k < |outs| - 1 {
      ReachBeyond(dv, ds, start, outs[..|outs| - 1], k, i);
    } else {
      assert IndexFor(dv, ds, dv.spkHash(outs[k].script)) == Some(i);
    }
  }

  /** A derived address that was paid is followed. */
  ghost predicate CaughtAt(dv: Deriver, ds: seq<Descriptor>, outs: seq<TxOut>, tracked: set<Hash>, h: Hash) {
    h in PaidTo(dv.spkHash, outs) && IndexFor(dv, ds, h).Some? ==> h in tracked
  }

  ghost predicate Caught(dv: Deriver, ds: seq<Descriptor>, start: nat, outs: seq<TxOut>, horizon: nat,
                         tracked: set<Hash>) {
    && horizon >= Reach(dv, ds, start, outs)
    && forall h {:trigger CaughtAt(dv, ds, outs, tracked, h)} :: CaughtAt(dv, ds, outs, tracked, h)
  }

  /** Descriptors without end and without repeats, and payments in order, leave nothing out. */
  ghost predicate OnTrack(dv: Deriver, ds: seq<Descriptor>, start: nat, outs: seq<TxOut>, horizon: nat,
                          tracked: set<Hash>) {
    Endless(dv) && Unique(dv, ds) && Orderly(dv, ds, start, outs) ==> Caught(dv, ds, start, outs, horizon, tracked)
  }

  lemma OnTrackGrows(dv: Deriver, ds: seq<Descriptor>, start: nat, outs: seq<TxOut>, horizon: nat, horizon': nat,
                     tracked: set<Hash>, tracked': set<Hash>)
    requires OnTrack(dv, ds, start, outs, horizon, tracked) && horizon <= horizon' && tracked <= tracked'
    ensures OnTrack(dv, ds, start, outs, horizon', tracked')
  {
    if Endless(dv) && Unique(dv, ds) && Orderly(dv, ds, start, outs) {
      forall h
        ensures CaughtAt(dv, ds, outs, tracked', h)
      {
        assert CaughtAt(dv, ds, outs, tracked, h);
      }
    }
  }

  /** Below the horizon an address is watched ... */
  lemma YieldedWatched(dv: Deriver, ds: seq<Descriptor>, horizon: nat, failed: bool, keys: set<Hash>,
                       derived: DerivedIndex, h: Hash, i: nat)
    requires HorizonOk(dv, ds, horizon, failed, keys, derived) && YieldedAt(dv, ds, h, i) && i < horizon
    ensures h in keys && h in derived
  {
    var d :| d in ds && Derives(dv, d, h, i);
    assert Watched(dv, keys, derived, d, 0, horizon);
    var p: nat :| p < dv.paths(d).value && HashAt(dv, d, p, i) == Some(h);
    assert WatchedAt(dv, keys, derived, d, p, i);
  }

  /** ... under the index that yields it. */
  lemma WatchedBelow(dv: Deriver, ds: seq<Descriptor>, horizon: nat, failed: bool, keys: set<Hash>,
                     derived: DerivedIndex, h: Hash, i: nat)
    requires HorizonOk(dv, ds, horizon, failed, keys, derived) && Unique(dv, ds) && YieldedAt(dv, ds, h, i) &&
             i < horizon
    ensures h in keys && h in derived && derived[h] == i
  {
    YieldedWatched(dv, ds, horizon, failed, keys, derived, h, i);
    assert RecordOk(dv, ds, Limit(horizon, failed), derived, h);
    assert YieldedAt(dv, ds, h, derived[h]);
  }

  /** The payment finds its address watched and followed, and the horizon moves beyond the gap above it. */
  lemma PaymentCaught(dv: Deriver, ds: seq<Descriptor>, start: nat, outs: seq<TxOut>, out: TxOut, horizon: nat,
                      failed: bool, keys: set<Hash>, derived: DerivedIndex, tracked: set<Hash>, i: nat)
    requires HorizonOk(dv, ds, horizon, failed, keys, derived) && keys <= tracked + PaidTo(dv.spkHash, outs)
    requires Endless(dv) && Unique(dv, ds) && Caught(dv, ds, start, outs, horizon, tracked)
    requires IndexFor(dv, ds, dv.spkHash(out.script)) == Some(i) && i < Reach(dv, ds, start, outs)
    ensures dv.spkHash(out.script) in keys && dv.spkHash(out.script) in tracked
    ensures i + GAP_LIMIT < HorizonAfter(dv, ds, horizon, Get(derived, dv.spkHash(out.script)))
  {
    var h := dv.spkHash(out.script);
    GapAfter(dv, ds, horizon, failed, keys, derived, h, i);
    assert CaughtAt(dv, ds, outs, tracked, h);
  }

  /** One more payment leaves the wallet on track, whether it is to the wallet or not. */
  lemma PaymentOnTrack(dv: Deriver, ds: seq<Descriptor>, start: nat, outs: seq<TxOut>, out: TxOut, horizon: nat,
                       failed: bool, keys: set<Hash>, derived: DerivedIndex, tracked: set<Hash>,
                       horizon': nat, tracked': set<Hash>)
    requires HorizonOk(dv, ds, horizon, failed, keys, derived) && keys <= tracked + PaidTo(dv.spkHash, outs)
    requires OnTrack(dv, ds, start, outs, horizon, tracked) && tracked <= tracked' && horizon <= horizon'
    requires dv.spkHash(out.script) in keys ==>
               horizon' == HorizonAfter(dv, ds, horizon, Get(derived, dv.spkHash(out.script)))
    ensures OnTrack(dv, ds, start, outs + [out], horizon', tracked')
  {
    var more, h := outs + [out], dv.spkHash(out.script);
    assert more[..|outs|] == outs;
    OnePaid(dv.spkHash, outs, out);
    if Endless(dv) && Unique(dv, ds) && Orderly(dv, ds, start, more) {
      var i := IndexFor(dv, ds, h);
      if i.Some? {
        PaymentCaught(dv, ds, start, outs, out, horizon, failed, keys, derived, tracked, i.value);
      }
      forall x
        ensures CaughtAt(dv, ds, more, tracked', x)
      {
        assert CaughtAt(dv, ds, outs, tracked, x);
      }
    }
  }

  // ---------- payments and batches only ----------

  lemma MoreYielded(dv: Deriver, ds: seq<Descriptor>, ds': seq<Descriptor>, h: Hash, i: nat)
    requires ds <= ds' && YieldedAt(dv, ds, h, i)
    ensures YieldedAt(dv, ds', h, i)
  {
    var d :| d in ds && Derives(dv, d, h, i);
    assert d in ds';
  }

  lemma FewerUnique(dv: Deriver, ds: seq<Descriptor>, ds': seq<Descriptor>)
    requires ds <= ds' && Unique(dv, ds')
    ensures Unique(dv, ds)
  {
    forall h, i: nat, j: nat | YieldedAt(dv, ds, h, i) && YieldedAt(dv, ds, h, j)
      ensures i == j
    {
      MoreYielded(dv, ds, ds', h, i);
      MoreYielded(dv, ds, ds', h, j);
    }
  }

  /** A payment to an address below the horizon, among descriptors without end and without repeats, moves the horizon
      beyond the gap above it. */
  lemma GapAfter(dv: Deriver, ds: seq<Descriptor>, horizon: nat, failed: bool, keys: set<Hash>, derived: DerivedIndex,
                 h: Hash, i: nat)
    requires HorizonOk(dv, ds, horizon, failed, keys, derived) && Endless(dv) && Unique(dv, ds)
    requires YieldedAt(dv, ds, h, i) && i < horizon
    ensures h in keys && i + GAP_LIMIT < HorizonAfter(dv, ds, horizon, Get(derived, h))
  {
    WatchedBelow(dv, ds, horizon, failed, keys, derived, h, i);
    EndlessDerivable(dv, ds, horizon, failed, keys, derived);
    GapBelowHorizon(dv, ds, horizon, i);
    GapExactly(dv, ds, horizon, i);
  }

  /** The gap above the payment is kept, if it was to an address below the horizon at the start. */
  ghost predicate GapHolds(dv: Deriver, ds: seq<Descriptor>, start: nat, out: TxOut, horizon: nat) {
    forall i: nat {:trigger YieldedAt(dv, ds, dv.spkHash(out.script), i)} ::
      i < start && YieldedAt(dv, ds, dv.spkHash(out.script), i) ==> i + GAP_LIMIT < horizon
  }

  /** Payments to addresses of the first descriptors keep the gap above them: each that was below the horizon at the
      start, and all of them if they are in order. */
  ghost predicate GapsHold(dv: Deriver, first: seq<Descriptor>, start: nat, outs: seq<TxOut>, ds: seq<Descriptor>,
                           horizon: nat) {
    Endless(dv) && Unique(dv, ds) ==>
      && (forall k {:trigger GapHolds(dv, first, start, outs[k], horizon)} ::
            0 <= k < |outs| ==> GapHolds(dv, first, start, outs[k], horizon))
      && (Orderly(dv, first, start, outs) ==> horizon >= Reach(dv, first, start, outs))
  }

  lemma GapsGrow(dv: Deriver, first: seq<Descriptor>, start: nat, outs: seq<TxOut>, ds: seq<Descriptor>, horizon: nat,
                 ds': seq<Descriptor>, horizon': nat)
    requires GapsHold(dv, first, start, outs, ds, horizon) && ds <= ds' && horizon <= horizon'
    ensures GapsHold(dv, first, start, outs, ds', horizon')
  {
    if Endless(dv) && Unique(dv, ds') {
      FewerUnique(dv, ds, ds');
      forall k | 0 <= k < |outs|
        ensures GapHolds(dv, first, start, outs[k], horizon')
      {
        assert GapHolds(dv, first, start, outs[k], horizon);
      }
    }
  }

  lemma GapsPay(dv: Deriver, first: seq<Descriptor>, start: nat, outs: seq<TxOut>, out: TxOut, ds: seq<Descriptor>,
                horizon: nat, failed: bool, keys: set<Hash>, derived: DerivedIndex, horizon': nat)
    requires GapsHold(dv, first, start, outs, ds, horizon) && first <= ds && start <= horizon <= horizon'
    requires HorizonOk(dv, ds, horizon, failed, keys, derived)
    requires dv.spkHash(out.script) in derived ==>
               horizon' == HorizonAfter(dv, ds, horizon, Get(derived, dv.spkHash(out.script)))
    ensures GapsHold(dv, first, start, outs + [out], ds, horizon')
  {
    var more, h := outs + [out], dv.spkHash(out.script);
    assert more[..|outs|] == outs;
    if Endless(dv) && Unique(dv, ds) {
      forall i: nat | YieldedAt(dv, first, h, i) && i < horizon
        ensures i + GAP_LIMIT < horizon'
      {
        MoreYielded(dv, first, ds, h, i);
        WatchedBelow(dv, ds, horizon, failed, keys, derived, h, i);
        GapAfter(dv, ds, horizon, failed, keys, derived, h, i);
      }
      forall k | 0 <= k < |more|
        ensures GapHolds(dv, first, start, more[k], horizon')
      {
        assert k < |outs| ==> GapHolds(dv, first, start, outs[k], horizon);
      }
    }
  }

  // ---------- on course ----------

  /** Before any payment there is nothing to miss. */
  lemma FirstStep(dv: Deriver, ds: seq<Descriptor>, start: nat, tracked: set<Hash>)
    ensures OnTrack(dv, ds, start, [], start, tracked)
  {
    forall h
      ensures CaughtAt(dv, ds, [], tracked, h)
    {
    }
  }

  ghost predicate Ahead(dv: Deriver, ds: seq<Descriptor>, trail: Trail, horizon: nat, tracked: set<Hash>) {
    OnTrack(dv, ds, trail.start, trail.outs, horizon, tracked)
  }

  lemma PayAhead(dv: Deriver, ds: seq<Descriptor>, height: nat, trail: Trail, c: Coin, horizon: nat, failed: bool,
                 m: Addresses, derived: DerivedIndex, tracked: set<Hash>, horizon': nat, tracked': set<Hash>)
    requires HorizonOk(dv, ds, horizon, failed, m.Keys, derived) && AtStep(dv.spkHash, trail, m, tracked)
    requires Ahead(dv, ds, trail, horizon, tracked) && tracked <= tracked' && horizon <= horizon'
    requires dv.spkHash(c.out.script) in m ==>
               horizon' == HorizonAfter(dv, ds, horizon, Get(derived, dv.spkHash(c.out.script)))
    ensures Ahead(dv, ds, trail.Pay(height, c), horizon', tracked')
  {
    if height == 0 {
      OnTrackGrows(dv, ds, trail.start, trail.outs, horizon, horizon', tracked, tracked');
    } else {
      PaymentOnTrack(dv, ds, trail.start, trail.outs, c.out, horizon, failed, m.Keys, derived, tracked,
                     horizon', tracked');
    }
  }

  lemma SpendAhead(dv: Deriver, ds: seq<Descriptor>, height: nat, trail: Trail, op: OutPoint, horizon: nat,
                   tracked: set<Hash>, horizon': nat, tracked': set<Hash>)
    requires Ahead(dv, ds, trail, horizon, tracked) && tracked <= tracked' && horizon <= horizon'
    ensures Ahead(dv, ds, trail.Spend(height, op), horizon', tracked')
  {
    OnTrackGrows(dv, ds, trail.start, trail.outs, horizon, horizon', tracked, tracked');
  }

  /** A payment to a cached address has been entered. */
  lemma PaymentDone(dv: Deriver, ds: seq<Descriptor>, height: nat, trail: Trail, m: Addresses, mid: Addresses,
                    m': Addresses, index: UtxoIndex, index': UtxoIndex, derived: DerivedIndex, tracked: set<Hash>,
                    c: Coin, horizon: nat, failed: bool, horizon': nat, id: Txid)
    requires HorizonOk(dv, ds, horizon, failed, m.Keys, derived) && AtStep(dv.spkHash, trail, m, tracked)
    requires Grown(m, mid)
    requires Entered(height, false, mid, m', index, index', dv.spkHash(c.out.script), c.outpoint, c.out.value, id)
    requires horizon' == HorizonAfter(dv, ds, horizon, Get(derived, dv.spkHash(c.out.script)))
    ensures var tracked' := Tracking(dv.spkHash, trail.scan, mid, tracked);
            && AtStep(dv.spkHash, trail.Pay(height, c), m', tracked')
            && (Ahead(dv, ds, trail, horizon, tracked) ==> Ahead(dv, ds, trail.Pay(height, c), horizon', tracked'))
  {
    PayStep(dv.spkHash, height, trail, m, mid, m', index, index', tracked, c, id);
    if Ahead(dv, ds, trail, horizon, tracked) {
      PayAhead(dv, ds, height, trail, c, horizon, failed, m, derived, tracked, horizon',
               Tracking(dv.spkHash, trail.scan, mid, tracked));
    }
  }

  /** A payment to somebody else. */
  lemma ForeignPaymentDone(dv: Deriver, ds: seq<Descriptor>, height: nat, trail: Trail, m: Addresses,
                           derived: DerivedIndex, tracked: set<Hash>, c: Coin, horizon: nat, failed: bool)
    requires HorizonOk(dv, ds, horizon, failed, m.Keys, derived) && AtStep(dv.spkHash, trail, m, tracked)
    requires dv.spkHash(c.out.script) !in m
    ensures AtStep(dv.spkHash, trail.Pay(height, c), m, tracked)
    ensures Ahead(dv, ds, trail, horizon, tracked) ==> Ahead(dv, ds, trail.Pay(height, c), horizon, tracked)
  {
    ForeignPayStep(dv.spkHash, height, trail, m, tracked, c);
    if Ahead(dv, ds, trail, horizon, tracked) {
      PayAhead(dv, ds, height, trail, c, horizon, failed, m, derived, tracked, horizon, tracked);
    }
  }

  /** On track, every derived address lists exactly its part of the scan, and one that is not cached has none. */
  lemma NothingMissed(dv: Deriver, ds: seq<Descriptor>, start: nat, outs: seq<TxOut>, horizon: nat, scan: seq<Coin>,
                      m: Addresses, tracked: set<Hash>, h: Hash)
    requires Caught(dv, ds, start, outs, horizon, tracked)
    requires InStep(dv.spkHash, scan, m, tracked, PaidTo(dv.spkHash, outs)) && IndexFor(dv, ds, h).Some?
    ensures Listed(m, h) == Mine(dv.spkHash, scan, h)
  {
    assert CaughtAt(dv, ds, outs, tracked, h);
    if h in tracked {
      assert Follows(dv.spkHash, scan, m, h);
    } else {
      NoCoin(dv.spkHash, scan, PaidTo(dv.spkHash, outs), h);
    }
  }

  /** What the wallet lists for an address. */
  function Listed(m: Addresses, h: Hash): seq<OutPoint> {
    if h in m then m[h].utxos else []
  }

  // ---------- an example ----------

  /** A deriver whose scripts are their own indexes and hashes. */
  function PlainDeriver(): Deriver {
    Deriver(s => s, _ => Some(true), _ => Some(1), (_, _, i) => Some(i))
  }

  lemma PlainIndex(h: Hash)
    ensures IndexFor(PlainDeriver(), [0], h) == Some(h) && Endless(PlainDeriver()) && Unique(PlainDeriver(), [0])
  {
    var dv := PlainDeriver();
    forall x: nat, i: nat
      ensures YieldedAt(dv, [0], x, i) <==> x == i
    {
      assert HashAt(dv, 0, 0, i) == Some(i);
      if x == i {
        assert Derives(dv, 0, x, i) && 0 in [0];
      }
    }
    assert YieldedAt(dv, [0], h, h);
    var i := IndexFor(dv, [0], h);
    assert i.Some? ==> YieldedAt(dv, [0], h, i.value);
  }

  /** Payments to indexes 95 and 110 are in order for a wallet that has derived 100: the second is beyond what it had,
      but within the gap above the first. */
  lemma InOrderExample()
    ensures var outs := [TxOut(1, 95), TxOut(1, 110)];
            Orderly(PlainDeriver(), [0], 100, outs) && Reach(PlainDeriver(), [0], 100, outs) == 131
  {
    var dv, first, outs := PlainDeriver(), [TxOut(1, 95)], [TxOut(1, 95), TxOut(1, 110)];
    PlainIndex(95);
    PlainIndex(110);
    assert first[..0] == [] && outs[..1] == first;
    assert Reach(dv, [0], 100, first) == 116 && Orderly(dv, [0], 100, first);
  }
}
