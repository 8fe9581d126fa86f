/**
  The plain reference the wallet is held against: a scan of all confirmed
  transactions that keeps every unspent output, whoever it belongs to.
 */
module WalletScan {
  import opened Transactions

  type Script = nat
  type Hash = nat

  /** The electrum script hash. */
  type SpkHash = Script -> Hash

  datatype TxOut = TxOut(value: nat, script: Script)

  datatype Transaction = Transaction(txid: Txid, inputs: seq<OutPoint>, outputs: seq<TxOut>)

  datatype Coin = Coin(outpoint: OutPoint, out: TxOut)

  // ---------- the scan ----------

  function SpendCoin(scan: seq<Coin>, op: OutPoint): seq<Coin> {
    if scan == [] then []
    else
      var n := |scan| - 1;
      var rest := SpendCoin(scan[..n], op);
      if scan[n].outpoint == op then rest else rest + [scan[n]]
  }

  /** Spends the first `n` inputs of a transaction. */
  function SpendCoins(scan: seq<Coin>, inputs: seq<OutPoint>, n: nat): seq<Coin>
    requires n <= |inputs|
  {
    if n == 0 then scan else SpendCoin(SpendCoins(scan, inputs, n - 1), inputs[n - 1])
  }

  function CoinAt(tx: Transaction, i: nat): Coin
    requires i < |tx.outputs|
  {
    Coin(OutPoint(tx.txid, i), tx.outputs[i])
  }

  /** Adds the first `n` outputs of a transaction. */
  function AddCoins(scan: seq<Coin>, tx: Transaction, n: nat): seq<Coin>
    requires n <= |tx.outputs|
  {
    if n == 0 then scan else AddCoins(scan, tx, n - 1) + [CoinAt(tx, n - 1)]
  }

  function ScanTx(scan: seq<Coin>, tx: Transaction): seq<Coin> {
    AddCoins(SpendCoins(scan, tx.inputs, |tx.inputs|), tx, |tx.outputs|)
  }

  function Scan(history: seq<Transaction>): seq<Coin> {
    if history == [] then [] else ScanTx(Scan(history[..|history| - 1]), history[|history| - 1])
  }

  // ---------- what the scan means ----------

  /** The transaction has the coin among its outputs. */
  ghost predicate Creates(tx: Transaction, c: Coin) {
    c.outpoint.txid == tx.txid && c.outpoint.vout < |tx.outputs| && c.out == tx.outputs[c.outpoint.vout]
  }

  /** Transaction `i` created the coin and no later transaction spends it. */
  ghost predicate UnspentFrom(history: seq<Transaction>, c: Coin, i: nat) {
    && i < |history|
    && Creates(history[i], c)
    && forall j :: i < j < |history| ==> c.outpoint !in history[j].inputs
  }

  ghost predicate Unspent(history: seq<Transaction>, c: Coin) {
    exists i :: UnspentFrom(history, c, i)
  }

  lemma {:induction false} SpendCoinHolds(scan: seq<Coin>, op: OutPoint, c: Coin)
    ensures c in SpendCoin(scan, op) <==> c in scan && c.outpoint != op
  {
    if scan != [] {
      SpendCoinHolds(scan[..|scan| - 1], op, c);
    }
  }

  lemma {:induction false} SpendCoinsHolds(scan: seq<Coin>, inputs: seq<OutPoint>, n: nat, c: Coin)
    requires n <= |inputs|
    ensures c in SpendCoins(scan, inputs, n) <==> c in scan && c.outpoint !in inputs[..n]
  {
    if n != 0 {
      SpendCoinsHolds(scan, inputs, n - 1, c);
      SpendCoinHolds(SpendCoins(scan, inputs, n - 1), inputs[n - 1], c);
      assert inputs[..n] == inputs[..n - 1] + [inputs[n - 1]];
    }
  }

  lemma {:induction false} AddCoinsHolds(scan: seq<Coin>, tx: Transaction, n: nat, c: Coin)
    requires n <= |tx.outputs|
    ensures c in AddCoins(scan, tx, n) <==> c in scan || (Creates(tx, c) && c.outpoint.vout < n)
  {
    if n != 0 {
      AddCoinsHolds(scan, tx, n - 1, c);
    }
  }

  lemma ScanTxHolds(scan: seq<Coin>, tx: Transaction, c: Coin)
    ensures c in ScanTx(scan, tx) <==> (c in scan && c.outpoint !in tx.inputs) || Creates(tx, c)
  {
    SpendCoinsHolds(scan, tx.inputs, |tx.inputs|, c);
    AddCoinsHolds(SpendCoins(scan, tx.inputs, |tx.inputs|), tx, |tx.outputs|, c);
    assert tx.inputs[..|tx.inputs|] == tx.inputs;
  }

  lemma UnspentAfter(history: seq<Transaction>, tx: Transaction, c: Coin)
    ensures Unspent(history + [tx], c) <==> (Unspent(history, c) && c.outpoint !in tx.inputs) || Creates(tx, c)
  {
    var n, more := |history|, history + [tx];
    if Creates(tx, c) {
      assert UnspentFrom(more, c, n);
    } else if Unspent(history, c) && c.outpoint !in tx.inputs {
      var i :| UnspentFrom(history, c, i);
      assert UnspentFrom(more, c, i);
    } else if Unspent(more, c) {
      var i :| UnspentFrom(more, c, i);
      assert more[n] == tx;
      assert forall j :: 0 <= j < n ==> more[j] == history[j];
      assert UnspentFrom(history, c, i);
    }
  }

  /** The scan holds exactly the outputs that were created and not spent later. */
  lemma {:induction false} ScanMeaning(history: seq<Transaction>, c: Coin)
    ensures c in Scan(history) <==> Unspent(history, c)
  {
    if history != [] {
      var n := |history| - 1;
      ScanMeaning(history[..n], c);
      ScanTxHolds(Scan(history[..n]), history[n], c);
      UnspentAfter(history[..n], history[n], c);
      assert history[..n] + [history[n]] == history;
    }
  }

  // ---------- one address's part of the scan ----------

  /** Outpoints of the coins paid to one script hash, in scan order. */
  function Mine(hash: SpkHash, scan: seq<Coin>, h: Hash): seq<OutPoint> {
    if scan == [] then []
    else
      var n := |scan| - 1;
      var rest := Mine(hash, scan[..n], h);
      if hash(scan[n].out.script) == h then rest + [scan[n].outpoint] else rest
  }

  /** Value of the coins paid to one script hash. */
  function Worth(hash: SpkHash, scan: seq<Coin>, h: Hash): nat {
    if scan == [] then 0
    else
      var n := |scan| - 1;
      Worth(hash, scan[..n], h) + (if hash(scan[n].out.script) == h then scan[n].out.value else 0)
  }

  function Drop(ops: seq<OutPoint>, op: OutPoint): (r: seq<OutPoint>)
    ensures forall x :: x in r <==> x in ops && x != op
  {
    if ops == [] then []
    else
      var n := |ops| - 1;
      var rest := Drop(ops[..n], op);
      if ops[n] == op then rest else rest + [ops[n]]
  }

  /** An address owns an outpoint exactly when the scan holds a coin there that pays it. */
  lemma {:induction false} MineHolds(hash: SpkHash, scan: seq<Coin>, h: Hash, op: OutPoint)
    ensures op in Mine(hash, scan, h) <==> exists c :: c in scan && c.outpoint == op && hash(c.out.script) == h
  {
    if scan != [] {
      var n := |scan| - 1;
      MineHolds(hash, scan[..n], h, op);
      assert scan == scan[..n] + [scan[n]];
    }
  }

  lemma {:induction false} MineSpend(hash: SpkHash, scan: seq<Coin>, h: Hash, op: OutPoint)
    ensures Mine(hash, SpendCoin(scan, op), h) == Drop(Mine(hash, scan, h), op)
  {
    if scan != [] {
      var n := |scan| - 1;
      MineSpend(hash, scan[..n], h, op);
      var rest := SpendCoin(scan[..n], op);
      assert (rest + [scan[n]])[..|rest|] == rest;
      var mine := Mine(hash, scan[..n], h);
      assert (mine + [scan[n].outpoint])[..|mine|] == mine;
    }
  }

  lemma {:induction false} DropAbsent(ops: seq<OutPoint>, op: OutPoint)
    requires op !in ops
    ensures Drop(ops, op) == ops
  {
    if ops != [] {
      DropAbsent(ops[..|ops| - 1], op);
    }
  }

  lemma MineAdd(hash: SpkHash, scan: seq<Coin>, c: Coin, h: Hash)
    ensures Mine(hash, scan + [c], h) == if hash(c.out.script) == h then Mine(hash, scan, h) + [c.outpoint]
                                         else Mine(hash, scan, h)
  {
    assert (scan + [c])[..|scan|] == scan;
  }
}
