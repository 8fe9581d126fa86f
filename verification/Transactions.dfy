/** What the mempool and the wallet share about transactions. */
module Transactions {
  type Txid = nat

  datatype OutPoint = OutPoint(txid: Txid, vout: nat)

  /** No outpoint is listed twice. */
  predicate Distinct(ops: seq<OutPoint>) {
    ops == [] || (ops[|ops| - 1] !in ops[..|ops| - 1] && Distinct(ops[..|ops| - 1]))
  }

  /** A list is free of repetitions exactly when it is as long as its set. */
  lemma {:induction false} DistinctBySize(ops: seq<OutPoint>)
    ensures |set op | op in ops| <= |ops|
    ensures |set op | op in ops| == |ops| <==> Distinct(ops)
  {
    if ops != [] {
      var n := |ops| - 1;
      DistinctBySize(ops[..n]);
      assert (set op | op in ops) == (set op | op in ops[..n]) + {ops[n]};
    }
  }
}
