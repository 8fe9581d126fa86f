/**
  The wallet's books: one record per tracked address, with its balance and its
  unspent outputs, and an index from outpoint to address.
 */
module WalletLedger {
  import opened Prelude
  import opened Transactions
  import opened WalletScan

  datatype CachedAddress = CachedAddress(
    scriptHash: Hash, balance: nat, script: Script, transactions: seq<Txid>, utxos: seq<OutPoint>)

  type Addresses = map<Hash, CachedAddress>
  type UtxoIndex = map<OutPoint, Hash>
  type Seen = map<Txid, Transaction>

  function NewAddress(h: Hash, script: Script): CachedAddress {
    CachedAddress(h, 0, script, [], [])
  }

  /** The id does not stand for another transaction. */
  ghost predicate Consistent(seen: Seen, tx: Transaction) {
    tx.txid in seen ==> seen[tx.txid] == tx
  }

  // ---------- values ----------

  predicate HasOutput(seen: Seen, op: OutPoint) {
    op.txid in seen && op.vout < |seen[op.txid].outputs|
  }

  function ValueOf(seen: Seen, op: OutPoint): nat {
    if HasOutput(seen, op) then seen[op.txid].outputs[op.vout].value else 0
  }

  function SumOf(seen: Seen, ops: seq<OutPoint>): nat {
    if ops == [] then 0 else SumOf(seen, ops[..|ops| - 1]) + ValueOf(seen, ops[|ops| - 1])
  }

  /** Spending one of the listed outputs takes exactly its value off the sum. */
  lemma {:induction false} SumDrop(seen: Seen, ops: seq<OutPoint>, op: OutPoint)
    requires Distinct(ops) && op in ops
    ensures SumOf(seen, ops) == SumOf(seen, Drop(ops, op)) + ValueOf(seen, op)
    ensures Distinct(Drop(ops, op))
  {
    var n := |ops| - 1;
    if ops[n] == op {
      DropAbsent(ops[..n], op);
    } else {
      SumDrop(seen, ops[..n], op);
      var rest := Drop(ops[..n], op);
      assert (rest + [ops[n]])[..|rest|] == rest;
    }
  }

  lemma {:induction false} SumFrame(seen: Seen, seen': Seen, ops: seq<OutPoint>)
    requires forall op :: op in ops ==> ValueOf(seen, op) == ValueOf(seen', op)
    ensures SumOf(seen, ops) == SumOf(seen', ops)
  {
    if ops != [] {
      SumFrame(seen, seen', ops[..|ops| - 1]);
    }
  }

  /** Removing at the position found is dropping the outpoint. */
  lemma {:induction false} RemoveAt(ops: seq<OutPoint>, i: nat)
    requires Distinct(ops) && i < |ops|
    ensures ops[..i] + ops[i + 1..] == Drop(ops, ops[i])
  {
    var n := |ops| - 1;
    if i == n {
      DropAbsent(ops[..n], ops[n]);
      assert ops[..n] + ops[n + 1..] == ops[..n];
    } else {
      RemoveAt(ops[..n], i);
      assert ops[..i] + ops[i + 1..] == ops[..n][..i] + ops[..n][i + 1..] + [ops[n]];
    }
  }

  // ---------- the invariant ----------

  /** The output exists and pays the address, and the index sends it there. */
  ghost predicate Owned(hash: SpkHash, seen: Seen, index: UtxoIndex, h: Hash, op: OutPoint) {
    && HasOutput(seen, op) && hash(seen[op.txid].outputs[op.vout].script) == h
    && op in index && index[op] == h
  }

  ghost predicate AddressOk(hash: SpkHash, seen: Seen, m: Addresses, index: UtxoIndex, h: Hash) {
    h in m ==>
      && m[h].scriptHash == h
      && Distinct(m[h].utxos)
      && m[h].balance == SumOf(seen, m[h].utxos)
      && forall op :: op in m[h].utxos ==> Owned(hash, seen, index, h, op)
  }

  ghost predicate IndexOk(m: Addresses, index: UtxoIndex, op: OutPoint) {
    op in index ==> index[op] in m && op in m[index[op]].utxos
  }

  /** Utxo lists and index are each other's inverse, and every balance is the sum of its list. */
  ghost predicate LedgerOk(hash: SpkHash, seen: Seen, m: Addresses, index: UtxoIndex) {
    && (forall h {:trigger AddressOk(hash, seen, m, index, h)} :: AddressOk(hash, seen, m, index, h))
    && (forall op {:trigger IndexOk(m, index, op)} :: IndexOk(m, index, op))
  }

  // ---------- steps ----------

  function Spent(m: Addresses, h: Hash, op: OutPoint, value: nat): Addresses
    requires h in m && value <= m[h].balance
  {
    m[h := m[h].(balance := m[h].balance - value, utxos := Drop(m[h].utxos, op))]
  }

  function Received(m: Addresses, h: Hash, op: OutPoint, value: nat): Addresses
    requires h in m
  {
    m[h := m[h].(balance := m[h].balance + value, utxos := m[h].utxos + [op])]
  }

  /** The balance covers every output on record. */
  lemma BalanceCovers(hash: SpkHash, seen: Seen, m: Addresses, index: UtxoIndex, op: OutPoint)
    requires LedgerOk(hash, seen, m, index) && op in index
    ensures index[op] in m && op in m[index[op]].utxos
    ensures Owned(hash, seen, index, index[op], op)
    ensures ValueOf(seen, op) <= m[index[op]].balance
  {
    assert IndexOk(m, index, op);
    assert AddressOk(hash, seen, m, index, index[op]);
    SumDrop(seen, m[index[op]].utxos, op);
  }

  lemma SpendKeeps(hash: SpkHash, seen: Seen, m: Addresses, index: UtxoIndex, op: OutPoint)
    requires LedgerOk(hash, seen, m, index) && op in index
    requires index[op] in m && ValueOf(seen, op) <= m[index[op]].balance
    ensures LedgerOk(hash, seen, Spent(m, index[op], op, ValueOf(seen, op)), index - {op})
  {
    var owner := index[op];
    var m', index' := Spent(m, owner, op, ValueOf(seen, op)), index - {op};
    BalanceCovers(hash, seen, m, index, op);
    forall h
      ensures AddressOk(hash, seen, m', index', h)
    {
      assert AddressOk(hash, seen, m, index, h);
      if h == owner {
        SumDrop(seen, m[h].utxos, op);
      }
    }
    forall x
      ensures IndexOk(m', index', x)
    {
      assert IndexOk(m, index, x);
    }
  }

  lemma ReceiveKeeps(hash: SpkHash, seen: Seen, m: Addresses, index: UtxoIndex, h: Hash, op: OutPoint)
    requires LedgerOk(hash, seen, m, index) && h in m && op !in index
    requires HasOutput(seen, op) && hash(seen[op.txid].outputs[op.vout].script) == h
    ensures LedgerOk(hash, seen, Received(m, h, op, ValueOf(seen, op)), index[op := h])
  {
    var m', index' := Received(m, h, op, ValueOf(seen, op)), index[op := h];
    forall g
      ensures AddressOk(hash, seen, m', index', g)
    {
      assert AddressOk(hash, seen, m, index, g);
      if g == h {
        assert m'[g].utxos[..|m[g].utxos|] == m[g].utxos;
      }
    }
    forall x
      ensures IndexOk(m', index', x)
    {
      assert IndexOk(m, index, x);
    }
  }

  /** The second map holds the first, plus addresses with nothing on record. */
  ghost predicate Grown(m: Addresses, m': Addresses) {
    && m.Keys <= m'.Keys
    && forall h :: h in m' ==> if h in m then m'[h] == m[h] else m'[h] == NewAddress(h, m'[h].script)
  }

  lemma GrownTrans(a: Addresses, b: Addresses, c: Addresses)
    requires Grown(a, b) && Grown(b, c)
    ensures Grown(a, c)
  {
  }

  lemma GrownKeeps(hash: SpkHash, seen: Seen, m: Addresses, m': Addresses, index: UtxoIndex)
    requires LedgerOk(hash, seen, m, index) && Grown(m, m')
    ensures LedgerOk(hash, seen, m', index)
  {
    forall h
      ensures AddressOk(hash, seen, m', index, h)
    {
      assert AddressOk(hash, seen, m, index, h);
    }
    forall op
      ensures IndexOk(m', index, op)
    {
      assert IndexOk(m, index, op);
    }
  }

  /** Only the history of an address changed. */
  ghost predicate SameCoins(m: Addresses, m': Addresses) {
    && m.Keys == m'.Keys
    && forall h :: h in m ==> m'[h] == m[h].(transactions := m'[h].transactions)
  }

  lemma SameCoinsKeeps(hash: SpkHash, seen: Seen, m: Addresses, m': Addresses, index: UtxoIndex)
    requires LedgerOk(hash, seen, m, index) && SameCoins(m, m')
    ensures LedgerOk(hash, seen, m', index)
  {
    forall h
      ensures AddressOk(hash, seen, m', index, h)
    {
      assert AddressOk(hash, seen, m, index, h);
    }
    forall op
      ensures IndexOk(m', index, op)
    {
      assert IndexOk(m, index, op);
    }
  }

  /** A transaction that was seen before as the same one, or not at all, changes the value of no output on record. */
  lemma SeeKeeps(hash: SpkHash, seen: Seen, m: Addresses, index: UtxoIndex, tx: Transaction)
    requires LedgerOk(hash, seen, m, index) && Consistent(seen, tx)
    ensures LedgerOk(hash, seen[tx.txid := tx], m, index)
  {
    var seen' := seen[tx.txid := tx];
    forall h
      ensures AddressOk(hash, seen', m, index, h)
    {
      assert AddressOk(hash, seen, m, index, h);
      if h in m {
        SumFrame(seen, seen', m[h].utxos);
      }
    }
  }

  // ---------- agreement with the scan ----------

  /** An address followed from the start lists exactly its coins of the scan, in order. */
  ghost predicate Follows(hash: SpkHash, scan: seq<Coin>, m: Addresses, h: Hash) {
    h in m && m[h].utxos == Mine(hash, scan, h)
  }

  ghost predicate AllFollow(hash: SpkHash, scan: seq<Coin>, m: Addresses, tracked: set<Hash>) {
    forall h {:trigger Follows(hash, scan, m, h)} :: h in tracked ==> Follows(hash, scan, m, h)
  }

  /** What an address lists are coins of the scan that pay it. */
  ghost predicate Sound(hash: SpkHash, scan: seq<Coin>, m: Addresses, h: Hash) {
    h in m ==> forall op :: op in m[h].utxos ==> op in Mine(hash, scan, h)
  }

  ghost predicate CoinPays(hash: SpkHash, scan: seq<Coin>, paid: set<Hash>, c: Coin) {
    c in scan ==> hash(c.out.script) in paid
  }

  /** The addresses in step with the scan: what is listed is in the scan, followed addresses list all of their part,
      and an address that is not followed has been paid at some time. */
  ghost predicate InStep(hash: SpkHash, scan: seq<Coin>, m: Addresses, tracked: set<Hash>, paid: set<Hash>) {
    && AllFollow(hash, scan, m, tracked)
    && (forall h {:trigger Sound(hash, scan, m, h)} :: Sound(hash, scan, m, h))
    && (forall c {:trigger CoinPays(hash, scan, paid, c)} :: CoinPays(hash, scan, paid, c))
    && m.Keys <= tracked + paid
  }

  /** The followed addresses, with those that can be followed from here on. */
  ghost function Tracking(hash: SpkHash, scan: seq<Coin>, m: Addresses, tracked: set<Hash>): set<Hash> {
    tracked + set h | h in m && Follows(hash, scan, m, h)
  }

  lemma {:induction false} NoCoin(hash: SpkHash, scan: seq<Coin>, paid: set<Hash>, h: Hash)
    requires (forall c {:trigger CoinPays(hash, scan, paid, c)} :: CoinPays(hash, scan, paid, c)) && h !in paid
    ensures Mine(hash, scan, h) == []
  {
    if Mine(hash, scan, h) != [] {
      var op := Mine(hash, scan, h)[0];
      MineHolds(hash, scan, h, op);
      var c :| c in scan && c.outpoint == op && hash(c.out.script) == h;
      var pays := CoinPays(hash, scan, paid, c);
    }
  }

  /** New addresses have nothing listed; those never paid are followed from the start. */
  lemma GrownFollows(hash: SpkHash, scan: seq<Coin>, m: Addresses, m': Addresses, tracked: set<Hash>, paid: set<Hash>)
    requires InStep(hash, scan, m, tracked, paid) && Grown(m, m')
    ensures InStep(hash, scan, m', Tracking(hash, scan, m', tracked), paid)
  {
    var tracked' := Tracking(hash, scan, m', tracked);
    forall h
      ensures Sound(hash, scan, m', h)
      ensures h in tracked' ==> Follows(hash, scan, m', h)
      ensures h in m' ==> h in tracked' + paid
    {
      assert Sound(hash, scan, m, h);
      assert h in tracked ==> Follows(hash, scan, m, h);
      if h in m' && h !in m && h !in paid {
        NoCoin(hash, scan, paid, h);
        assert Follows(hash, scan, m', h);
      }
    }
  }

  lemma SpendFollows(hash: SpkHash, seen: Seen, scan: seq<Coin>, m: Addresses, index: UtxoIndex, tracked: set<Hash>,
                     paid: set<Hash>, op: OutPoint)
    requires LedgerOk(hash, seen, m, index) && InStep(hash, scan, m, tracked, paid) && op in index
    requires index[op] in m && ValueOf(seen, op) <= m[index[op]].balance
    ensures InStep(hash, SpendCoin(scan, op), Spent(m, index[op], op, ValueOf(seen, op)), tracked, paid)
  {
    var m', scan' := Spent(m, index[op], op, ValueOf(seen, op)), SpendCoin(scan, op);
    forall h
      ensures Sound(hash, scan', m', h)
      ensures h in tracked ==> Follows(hash, scan', m', h)
    {
      assert Sound(hash, scan, m, h) && AddressOk(hash, seen, m, index, h);
      assert h in tracked ==> Follows(hash, scan, m, h);
      MineSpend(hash, scan, h, op);
      if h in m && h != index[op] {
        DropAbsent(m[h].utxos, op);
      }
    }
    SpendPays(hash, scan, paid, op);
  }

  lemma SpendPays(hash: SpkHash, scan: seq<Coin>, paid: set<Hash>, op: OutPoint)
    requires forall c {:trigger CoinPays(hash, scan, paid, c)} :: CoinPays(hash, scan, paid, c)
    ensures var scan' := SpendCoin(scan, op);
            forall c {:trigger CoinPays(hash, scan', paid, c)} :: CoinPays(hash, scan', paid, c)
  {
    var scan' := SpendCoin(scan, op);
    forall c
      ensures CoinPays(hash, scan', paid, c)
    {
      assert CoinPays(hash, scan, paid, c);
      SpendCoinHolds(scan, op, c);
    }
  }

  lemma ForeignSpendFollows(hash: SpkHash, seen: Seen, scan: seq<Coin>, m: Addresses, index: UtxoIndex,
                            tracked: set<Hash>, paid: set<Hash>, op: OutPoint)
    requires LedgerOk(hash, seen, m, index) && InStep(hash, scan, m, tracked, paid) && op !in index
    ensures InStep(hash, SpendCoin(scan, op), m, tracked, paid)
  {
    var scan' := SpendCoin(scan, op);
    forall h
      ensures Sound(hash, scan', m, h)
      ensures h in tracked ==> Follows(hash, scan', m, h)
    {
      assert Sound(hash, scan, m, h) && AddressOk(hash, seen, m, index, h);
      assert h in tracked ==> Follows(hash, scan, m, h);
      MineSpend(hash, scan, h, op);
      if h in m {
        DropAbsent(m[h].utxos, op);
      }
    }
    SpendPays(hash, scan, paid, op);
  }

  lemma ReceiveFollows(hash: SpkHash, scan: seq<Coin>, m: Addresses, tracked: set<Hash>, paid: set<Hash>, c: Coin)
    requires InStep(hash, scan, m, tracked, paid) && hash(c.out.script) in m
    ensures InStep(hash, scan + [c], Received(m, hash(c.out.script), c.outpoint, c.out.value), tracked,
                   paid + {hash(c.out.script)})
  {
    var m', scan' := Received(m, hash(c.out.script), c.outpoint, c.out.value), scan + [c];
    forall h
      ensures Sound(hash, scan', m', h)
      ensures h in tracked ==> Follows(hash, scan', m', h)
    {
      assert Sound(hash, scan, m, h);
      assert h in tracked ==> Follows(hash, scan, m, h);
      MineAdd(hash, scan, c, h);
    }
    ReceivePays(hash, scan, paid, c);
  }

  lemma ReceivePays(hash: SpkHash, scan: seq<Coin>, paid: set<Hash>, c: Coin)
    requires forall x {:trigger CoinPays(hash, scan, paid, x)} :: CoinPays(hash, scan, paid, x)
    ensures var scan', paid' := scan + [c], paid + {hash(c.out.script)};
            forall x {:trigger CoinPays(hash, scan', paid', x)} :: CoinPays(hash, scan', paid', x)
  {
    var scan', paid' := scan + [c], paid + {hash(c.out.script)};
    forall x
      ensures CoinPays(hash, scan', paid', x)
    {
      assert CoinPays(hash, scan, paid, x);
    }
  }

  lemma ForeignReceiveFollows(hash: SpkHash, scan: seq<Coin>, m: Addresses, tracked: set<Hash>, paid: set<Hash>,
                              c: Coin)
    requires InStep(hash, scan, m, tracked, paid) && hash(c.out.script) !in m
    ensures InStep(hash, scan + [c], m, tracked, paid + {hash(c.out.script)})
  {
    var scan' := scan + [c];
    forall h
      ensures Sound(hash, scan', m, h)
      ensures h in tracked ==> Follows(hash, scan', m, h)
    {
      assert Sound(hash, scan, m, h);
      assert h in tracked ==> Follows(hash, scan, m, h);
      MineAdd(hash, scan, c, h);
    }
    ReceivePays(hash, scan, paid, c);
  }

  lemma SameFollows(hash: SpkHash, scan: seq<Coin>, m: Addresses, m': Addresses, tracked: set<Hash>, paid: set<Hash>)
    requires InStep(hash, scan, m, tracked, paid) && SameCoins(m, m')
    ensures InStep(hash, scan, m', tracked, paid)
  {
    forall h
      ensures Sound(hash, scan, m', h)
      ensures h in tracked ==> Follows(hash, scan, m', h)
    {
      assert Sound(hash, scan, m, h);
      assert h in tracked ==> Follows(hash, scan, m, h);
    }
  }

  /** The addresses some outputs pay. */
  function PaidTo(hash: SpkHash, outs: seq<TxOut>): set<Hash> {
    if outs == [] then {} else PaidTo(hash, outs[..|outs| - 1]) + {hash(outs[|outs| - 1].script)}
  }

  lemma OnePaid(hash: SpkHash, outs: seq<TxOut>, out: TxOut)
    ensures PaidTo(hash, outs + [out]) == PaidTo(hash, outs) + {hash(out.script)}
  {
    assert (outs + [out])[..|outs|] == outs;
  }

  /** All outputs of some transactions, in order. */
  function OutsOf(txs: seq<Transaction>): seq<TxOut> {
    if txs == [] then [] else OutsOf(txs[..|txs| - 1]) + txs[|txs| - 1].outputs
  }

  // ---------- one entry in the books ----------

  /** The scan as far as it has got, which an unconfirmed transaction does not move. */
  function Progress<T>(height: nat, before: T, after: T): T {
    if height > 0 then after else before
  }

  function Position(ops: seq<OutPoint>, op: OutPoint): (r: Option<nat>)
    ensures r.Some? <==> op in ops
    ensures r.Some? ==> r.value < |ops| && ops[r.value] == op && op !in ops[..r.value]
  {
    if ops == [] then None
    else if op in ops[..|ops| - 1] then
      var r := Position(ops[..|ops| - 1], op);
      assert ops[..|ops| - 1][..r.value] == ops[..r.value];
      r
    else if ops[|ops| - 1] == op then Some(|ops| - 1)
    else None
  }

  /** An id joins a history at the end, if it is not there yet. */
  function AddOnce(ids: seq<Txid>, id: Txid): seq<Txid> {
    if id in ids then ids else ids + [id]
  }

  lemma AddedOnce(ids: seq<Txid>, id: Txid)
    requires forall i, j :: 0 <= i < j < |ids| ==> ids[i] != ids[j]
    ensures var ids' := AddOnce(ids, id);
            && ids <= ids' && id in ids' && (forall x :: x in ids' ==> x in ids || x == id)
            && forall i, j :: 0 <= i < j < |ids'| ==> ids'[i] != ids'[j]
  {
  }

  /** The transaction has joined the history of one address; nothing else has changed. */
  function Noted(m: Addresses, h: Hash, id: Txid): Addresses
    requires h in m
  {
    m[h := m[h].(transactions := AddOnce(m[h].transactions, id))]
  }

  /** A payment or a spend was entered for address `h`; an unconfirmed one touches only the history. */
  ghost predicate Entered(height: nat, isSpend: bool, m: Addresses, m': Addresses, index: UtxoIndex, index': UtxoIndex,
                          h: Hash, op: OutPoint, value: nat, id: Txid)
  {
    && h in m
    && if height == 0 then m' == Noted(m, h, id) && index' == index
       else if isSpend then
         value <= m[h].balance && m' == Noted(Spent(m, h, op, value), h, id) && index' == index - {op}
       else m' == Noted(Received(m, h, op, value), h, id) && index' == index[op := h]
  }

  lemma EnteredIndex(height: nat, isSpend: bool, m: Addresses, m': Addresses, index: UtxoIndex, index': UtxoIndex,
                     h: Hash, op: OutPoint, value: nat, id: Txid)
    requires Entered(height, isSpend, m, m', index, index', h, op, value, id)
    ensures forall x :: x in index' && x !in index ==> x == op && height > 0 && !isSpend
  {
  }

  lemma EntryKeeps(hash: SpkHash, seen: Seen, height: nat, isSpend: bool, m: Addresses, m': Addresses, index: UtxoIndex,
                   index': UtxoIndex, h: Hash, op: OutPoint, id: Txid)
    requires LedgerOk(hash, seen, m, index) &&
             Entered(height, isSpend, m, m', index, index', h, op, ValueOf(seen, op), id)
    requires height > 0 ==>
               if isSpend then op in index && index[op] == h
               else op !in index && HasOutput(seen, op) && hash(seen[op.txid].outputs[op.vout].script) == h
    ensures LedgerOk(hash, seen, m', index')
  {
    if height == 0 {
      SameCoinsKeeps(hash, seen, m, m', index);
    } else if isSpend {
      SpendKeeps(hash, seen, m, index, op);
      SameCoinsKeeps(hash, seen, Spent(m, h, op, ValueOf(seen, op)), m', index');
    } else {
      ReceiveKeeps(hash, seen, m, index, h, op);
      SameCoinsKeeps(hash, seen, Received(m, h, op, ValueOf(seen, op)), m', index');
    }
  }

  lemma SpendEntryFollows(hash: SpkHash, seen: Seen, height: nat, scan: seq<Coin>, m: Addresses, m': Addresses,
                          index: UtxoIndex, index': UtxoIndex, tracked: set<Hash>, paid: set<Hash>, op: OutPoint,
                          id: Txid)
    requires LedgerOk(hash, seen, m, index) && InStep(hash, scan, m, tracked, paid) && op in index
    requires Entered(height, true, m, m', index, index', index[op], op, ValueOf(seen, op), id)
    ensures InStep(hash, Progress(height, scan, SpendCoin(scan, op)), m', tracked, paid)
  {
    if height == 0 {
      SameFollows(hash, scan, m, m', tracked, paid);
    } else {
      SpendFollows(hash, seen, scan, m, index, tracked, paid, op);
      SameFollows(hash, SpendCoin(scan, op), Spent(m, index[op], op, ValueOf(seen, op)), m', tracked, paid);
    }
  }

  lemma ReceiveEntryFollows(hash: SpkHash, height: nat, scan: seq<Coin>, m: Addresses, m': Addresses, index: UtxoIndex,
                            index': UtxoIndex, tracked: set<Hash>, paid: set<Hash>, c: Coin, id: Txid)
    requires InStep(hash, scan, m, tracked, paid)
    requires Entered(height, false, m, m', index, index', hash(c.out.script), c.outpoint, c.out.value, id)
    ensures InStep(hash, Progress(height, scan, scan + [c]), m', tracked,
                   Progress(height, paid, paid + {hash(c.out.script)}))
  {
    if height == 0 {
      SameFollows(hash, scan, m, m', tracked, paid);
    } else {
      ReceiveFollows(hash, scan, m, tracked, paid, c);
      SameFollows(hash, scan + [c], Received(m, hash(c.out.script), c.outpoint, c.out.value), m', tracked,
                  paid + {hash(c.out.script)});
    }
  }

  /** A coin of the scan is the output its outpoint names. */
  ghost predicate CoinSeen(seen: Seen, scan: seq<Coin>, c: Coin) {
    c in scan ==> HasOutput(seen, c.outpoint) && seen[c.outpoint.txid].outputs[c.outpoint.vout] == c.out
  }

  ghost predicate CoinsSeen(seen: Seen, scan: seq<Coin>) {
    forall c {:trigger CoinSeen(seen, scan, c)} :: CoinSeen(seen, scan, c)
  }

  lemma ScanTxSeen(seen: Seen, scan: seq<Coin>, tx: Transaction)
    requires CoinsSeen(seen, scan) && tx.txid in seen && seen[tx.txid] == tx
    ensures CoinsSeen(seen, ScanTx(scan, tx))
  {
    var scan' := ScanTx(scan, tx);
    forall c
      ensures CoinSeen(seen, scan', c)
    {
      assert CoinSeen(seen, scan, c);
      ScanTxHolds(scan, tx, c);
    }
  }

  lemma SeenGrows(seen: Seen, scan: seq<Coin>, tx: Transaction)
    requires CoinsSeen(seen, scan) && Consistent(seen, tx)
    ensures CoinsSeen(seen[tx.txid := tx], scan)
  {
    var seen' := seen[tx.txid := tx];
    forall c
      ensures CoinSeen(seen', scan, c)
    {
      assert CoinSeen(seen, scan, c);
    }
  }

  lemma {:induction false} WorthIsSum(hash: SpkHash, seen: Seen, scan: seq<Coin>, h: Hash)
    requires CoinsSeen(seen, scan)
    ensures SumOf(seen, Mine(hash, scan, h)) == Worth(hash, scan, h)
  {
    if scan != [] {
      var n := |scan| - 1;
      var front := scan[..n];
      forall c
        ensures CoinSeen(seen, front, c)
      {
        assert CoinSeen(seen, scan, c);
      }
      WorthIsSum(hash, seen, front, h);
      assert scan[n] in scan && CoinSeen(seen, scan, scan[n]);
      var mine := Mine(hash, front, h);
      assert (mine + [scan[n].outpoint])[..|mine|] == mine;
    }
  }

  /** The wallet's answer for a followed address is the scan's: same coins, same balance. */
  lemma AgreesWithScan(hash: SpkHash, seen: Seen, scan: seq<Coin>, m: Addresses, index: UtxoIndex, tracked: set<Hash>,
                       h: Hash)
    requires LedgerOk(hash, seen, m, index) && AllFollow(hash, scan, m, tracked) && CoinsSeen(seen, scan) &&
             h in tracked
    ensures h in m && m[h].utxos == Mine(hash, scan, h) && m[h].balance == Worth(hash, scan, h)
  {
    assert Follows(hash, scan, m, h) && AddressOk(hash, seen, m, index, h);
    WorthIsSum(hash, seen, scan, h);
  }
}
