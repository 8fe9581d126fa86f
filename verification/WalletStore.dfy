/** Which transactions of a block the wallet stores, and with which height and position. */
module WalletStore {
  import opened Prelude
  import opened Transactions
  import opened WalletScan
  import opened WalletLedger

  datatype CachedTransaction = CachedTransaction(tx: Transaction, height: nat, hash: Txid, position: nat)

  type Stored = map<Txid, CachedTransaction>

  /** The stored transactions with one more, under its own id, with the height and the position it was met at. */
  function WithTx(txs: Stored, tx: Transaction, height: nat, position: nat): Stored {
    txs[tx.txid := CachedTransaction(tx, height, tx.txid, position)]
  }

  function StoredIf(touched: bool, txs: Stored, tx: Transaction, height: nat, position: nat): Stored {
    if touched then WithTx(txs, tx, height, position) else txs
  }

  // ---------- what concerns the wallet ----------

  /** One of the first `n` inputs spends one of the outputs. */
  ghost predicate SpendsFirst(index: set<OutPoint>, inputs: seq<OutPoint>, n: nat)
    requires n <= |inputs|
  {
    exists j :: 0 <= j < n && inputs[j] in index
  }

  ghost predicate Spends(index: set<OutPoint>, tx: Transaction) {
    SpendsFirst(index, tx.inputs, |tx.inputs|)
  }

  ghost predicate Pays(hash: SpkHash, keys: set<Hash>, tx: Transaction) {
    exists i :: 0 <= i < |tx.outputs| && hash(tx.outputs[i].script) in keys
  }

  ghost function InputsOf(inputs: seq<OutPoint>, n: nat): set<OutPoint>
    requires n <= |inputs|
  {
    set j | 0 <= j < n :: inputs[j]
  }

  ghost function OutputsOf(tx: Transaction, n: nat): set<OutPoint> {
    set i | 0 <= i < n :: OutPoint(tx.txid, i)
  }

  lemma OneInput(index: set<OutPoint>, index0: set<OutPoint>, inputs: seq<OutPoint>, n: nat)
    requires n < |inputs| && index <= index0 && index0 - InputsOf(inputs, n) <= index
    ensures SpendsFirst(index0, inputs, n + 1) <==> SpendsFirst(index0, inputs, n) || inputs[n] in index
    ensures InputsOf(inputs, n + 1) == InputsOf(inputs, n) + {inputs[n]}
  {
    if inputs[n] in index0 && inputs[n] !in index {
      var j :| 0 <= j < n && inputs[j] == inputs[n];
    }
  }

  lemma OneOutputOf(tx: Transaction, n: nat)
    ensures OutputsOf(tx, n + 1) == OutputsOf(tx, n) + {OutPoint(tx.txid, n)}
  {
  }

  /** Those of the first `n` outputs that pay one of the addresses, if the transaction is confirmed. */
  ghost function PaidBy(hash: SpkHash, keys: set<Hash>, tx: Transaction, mined: bool, n: nat): set<OutPoint>
    requires n <= |tx.outputs|
  {
    set i | 0 <= i < n && mined && hash(tx.outputs[i].script) in keys :: OutPoint(tx.txid, i)
  }

  lemma OnePaidOutput(hash: SpkHash, keys: set<Hash>, tx: Transaction, mined: bool, n: nat)
    requires n < |tx.outputs|
    ensures PaidBy(hash, keys, tx, mined, n + 1) ==
            PaidBy(hash, keys, tx, mined, n) +
            if mined && hash(tx.outputs[n].script) in keys then {OutPoint(tx.txid, n)} else {}
  {
    assert (set i | 0 <= i < n + 1 && mined && hash(tx.outputs[i].script) in keys) ==
           (set i | 0 <= i < n && mined && hash(tx.outputs[i].script) in keys) +
           if mined && hash(tx.outputs[n].script) in keys then {n} else {};
  }

  lemma PaidMore(hash: SpkHash, keys: set<Hash>, keys': set<Hash>, tx: Transaction, mined: bool)
    requires keys <= keys'
    ensures PaidBy(hash, keys, tx, mined, |tx.outputs|) <= PaidBy(hash, keys', tx, mined, |tx.outputs|)
  {
  }

  /** Storing a transaction a second time changes nothing. */
  lemma StoredAgain(a: bool, b: bool, txs: Stored, tx: Transaction, height: nat, position: nat)
    ensures StoredIf(b, StoredIf(a, txs, tx, height, position), tx, height, position) ==
            StoredIf(a || b, txs, tx, height, position)
  {
  }

  // ---------- a whole block ----------

  /** Outputs that must be listed after some transactions: those of `index` and those that pay one of the addresses, as
      long as they are unspent. */
  ghost function SureAfter(hash: SpkHash, keys: set<Hash>, index: set<OutPoint>, txs: seq<Transaction>, mined: bool)
    : set<OutPoint>
  {
    if txs == [] then index
    else
      var n := |txs| - 1;
      SureAfter(hash, keys, index, txs[..n], mined) - InputsOf(txs[n].inputs, |txs[n].inputs|) +
      PaidBy(hash, keys, txs[n], mined, |txs[n].outputs|)
  }

  lemma {:induction false} SureMore(hash: SpkHash, keys: set<Hash>, index: set<OutPoint>, keys': set<Hash>,
                                    index': set<OutPoint>, txs: seq<Transaction>, mined: bool)
    requires keys <= keys' && index <= index'
    ensures SureAfter(hash, keys, index, txs, mined) <= SureAfter(hash, keys', index', txs, mined)
  {
    if txs != [] {
      var n := |txs| - 1;
      SureMore(hash, keys, index, keys', index', txs[..n], mined);
      PaidMore(hash, keys, keys', txs[n], mined);
    }
  }

  lemma {:induction false} SureConcat(hash: SpkHash, keys: set<Hash>, index: set<OutPoint>, a: seq<Transaction>,
                                      b: seq<Transaction>, mined: bool)
    ensures SureAfter(hash, keys, index, a + b, mined) ==
            SureAfter(hash, keys, SureAfter(hash, keys, index, a, mined), b, mined)
  {
    if b == [] {
      assert a + b == a;
    } else {
      var n := |b| - 1;
      SureConcat(hash, keys, index, a, b[..n], mined);
      assert (a + b)[..|a + b| - 1] == a + b[..n] && (a + b)[|a + b| - 1] == b[n];
    }
  }

  /** All outputs of some transactions. */
  ghost function MadeIn(txs: seq<Transaction>): set<OutPoint> {
    if txs == [] then {}
    else var tx := txs[|txs| - 1]; MadeIn(txs[..|txs| - 1]) + OutputsOf(tx, |tx.outputs|)
  }

  /** The transactions that are marked, stored in order. */
  function StoredAll(txs: Stored, txdata: seq<Transaction>, height: nat, touched: seq<bool>): Stored
    requires |touched| == |txdata|
  {
    if txdata == [] then txs
    else
      var n := |txdata| - 1;
      StoredIf(touched[n], StoredAll(txs, txdata[..n], height, touched[..n]), txdata[n], height, n)
  }

  /** The last marked transaction with an id is the one stored under it, with the block's height and its own position;
      ids without one keep what was stored before. */
  lemma {:induction false} StoredLast(txs: Stored, txdata: seq<Transaction>, height: nat, touched: seq<bool>, id: Txid,
                                      i: nat)
    requires |touched| == |txdata| && i <= |txdata|
    requires forall j :: i <= j < |txdata| && touched[j] ==> txdata[j].txid != id
    requires i > 0 ==> touched[i - 1] && txdata[i - 1].txid == id
    ensures Get(StoredAll(txs, txdata, height, touched), id) ==
            if i > 0 then Some(CachedTransaction(txdata[i - 1], height, id, i - 1)) else Get(txs, id)
  {
    if i < |txdata| {
      var n := |txdata| - 1;
      StoredLast(txs, txdata[..n], height, touched[..n], id, i);
    }
  }

  /** Marked are all transactions that pay an address cached before the block or spend an output that must be listed
      then, from before the block or from within it; and only such as pay an address cached after it or spend an output
      that was listed before it or made in it. */
  ghost predicate MarkOk(hash: SpkHash, keys: set<Hash>, index: set<OutPoint>, keys': set<Hash>, height: nat,
                         txdata: seq<Transaction>, touched: seq<bool>, i: nat)
    requires i < |txdata| && i < |touched|
  {
    && (Pays(hash, keys, txdata[i]) || Spends(SureAfter(hash, keys, index, txdata[..i], height > 0), txdata[i]) ==>
          touched[i])
    && (touched[i] ==> Pays(hash, keys', txdata[i]) || Spends(index + MadeIn(txdata[..i]), txdata[i]))
  }

  /** What is stored after the first `n` transactions of a block. */
  ghost predicate BlockStored(hash: SpkHash, keys: set<Hash>, index: set<OutPoint>, txs: Stored,
                              txdata: seq<Transaction>, n: nat, height: nat, touched: seq<bool>,
                              keys': set<Hash>, index': set<OutPoint>, txs': Stored)
  {
    && n <= |txdata| && |touched| == n && keys <= keys'
    && txs' == StoredAll(txs, txdata[..n], height, touched)
    && SureAfter(hash, keys, index, txdata[..n], height > 0) <= index' <= index + MadeIn(txdata[..n])
    && forall i: nat {:trigger MarkOk(hash, keys, index, keys', height, txdata, touched, i)} ::
         i < n ==> MarkOk(hash, keys, index, keys', height, txdata, touched, i)
  }

  lemma SpendsMore(a: set<OutPoint>, b: set<OutPoint>, tx: Transaction)
    requires a <= b && Spends(a, tx)
    ensures Spends(b, tx)
  {
  }

  lemma PaysMore(hash: SpkHash, a: set<Hash>, b: set<Hash>, tx: Transaction)
    requires a <= b && Pays(hash, a, tx)
    ensures Pays(hash, b, tx)
  {
  }

  /** One transaction of a block: from keys `k1` and index `i1` to `k2` and `i2`, found to concern the wallet or not. */
  lemma StoredStep(hash: SpkHash, keys: set<Hash>, index: set<OutPoint>, txs: Stored, txdata: seq<Transaction>, n: nat,
                   height: nat, touched: seq<bool>, k1: set<Hash>, i1: set<OutPoint>, txs1: Stored, t: bool,
                   k2: set<Hash>, i2: set<OutPoint>, txs2: Stored)
    requires n < |txdata| && BlockStored(hash, keys, index, txs, txdata, n, height, touched, k1, i1, txs1)
    requires k1 <= k2 && txs2 == StoredIf(t, txs1, txdata[n], height, n)
    requires i1 - InputsOf(txdata[n].inputs, |txdata[n].inputs|) +
             PaidBy(hash, k1, txdata[n], height > 0, |txdata[n].outputs|) <= i2
    requires i2 <= i1 + OutputsOf(txdata[n], |txdata[n].outputs|)
    requires Pays(hash, k1, txdata[n]) || Spends(i1, txdata[n]) ==> t
    requires t ==> Pays(hash, k2, txdata[n]) || Spends(i1, txdata[n])
    ensures BlockStored(hash, keys, index, txs, txdata, n + 1, height, touched + [t], k2, i2, txs2)
  {
    var touched' := touched + [t];
    assert txdata[..n + 1][..n] == txdata[..n] && touched'[..n] == touched;
    PaidMore(hash, keys, k1, txdata[n], height > 0);
    forall i: nat | i < n + 1
      ensures MarkOk(hash, keys, index, k2, height, txdata, touched', i)
    {
      if i < n {
        assert MarkOk(hash, keys, index, k1, height, txdata, touched, i);
        if Pays(hash, k1, txdata[i]) {
          PaysMore(hash, k1, k2, txdata[i]);
        }
      } else {
        if Pays(hash, keys, txdata[n]) {
          PaysMore(hash, keys, k1, txdata[n]);
        }
        if Spends(SureAfter(hash, keys, index, txdata[..n], height > 0), txdata[n]) {
          SpendsMore(SureAfter(hash, keys, index, txdata[..n], height > 0), i1, txdata[n]);
        }
        if Spends(i1, txdata[n]) {
          SpendsMore(i1, index + MadeIn(txdata[..n]), txdata[n]);
        }
      }
    }
  }
}
