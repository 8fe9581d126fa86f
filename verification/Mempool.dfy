/**
  The mempool: held transactions with their dependencies in both directions, size
  accounting, conflict checks and block templates.
 */
module Mempools {
  import opened Prelude
  import opened Transactions

  type ShortTxid = nat

  /** A transaction, with its txid, size and weight as computed from its contents. */
  datatype Transaction = Transaction(txid: Txid, inputs: seq<OutPoint>, size: nat, weight: nat, contents: nat)

  datatype MempoolTransaction = MempoolTransaction(transaction: Transaction, depends: seq<ShortTxid>,
                                                   children: seq<ShortTxid>)

  datatype MempoolError = FullMempool | ConsensusValidation | DuplicatedInputs | ConflictingTransaction

  type Pool = map<ShortTxid, MempoolTransaction>

  // ---------- sizes ----------

  /** Summed size of all held transactions. */
  ghost function TotalSize(m: Pool): nat {
    if m == map[] then 0
    else
      var k :| k in m;
      m[k].transaction.size + TotalSize(m - {k})
  }

  lemma {:induction false} TotalSizeRemove(m: Pool, k: ShortTxid)
    requires k in m
    ensures TotalSize(m) == m[k].transaction.size + TotalSize(m - {k})
    decreases |m|
  {
    var c :| c in m && TotalSize(m) == m[c].transaction.size + TotalSize(m - {c});
    if c != k {
      TotalSizeRemove(m - {c}, k);
      TotalSizeRemove(m - {k}, c);
      assert m - {c} - {k} == m - {k} - {c};
    }
  }

  /** Only transactions count, not their links. */
  lemma {:induction false} TotalSizeSame(m: Pool, m': Pool)
    requires m.Keys == m'.Keys && forall k :: k in m ==> m[k].transaction == m'[k].transaction
    ensures TotalSize(m) == TotalSize(m')
    decreases |m|
  {
    if m != map[] {
      var k :| k in m;
      TotalSizeRemove(m, k);
      TotalSizeRemove(m', k);
      TotalSizeSame(m - {k}, m' - {k});
    } else {
      assert m' == map[];
    }
  }

  // ---------- the dependency graph ----------

  type Hasher = Txid -> ShortTxid

  /** When each held transaction was accepted. */
  type Stamps = map<ShortTxid, nat>

  /** A held transaction is filed under its short id. Each dependency it records is held, was accepted before it and
      lists it among its children. Each held child it lists that spends one of its outputs records it. */
  ghost predicate LinksOk(hash: Hasher, m: Pool, stamp: Stamps, k: ShortTxid)
    requires stamp.Keys == m.Keys
  {
    k in m ==>
      && hash(m[k].transaction.txid) == k
      && (forall d {:trigger DependOk(hash, m, stamp, k, d)} :: d in m[k].depends ==> DependOk(hash, m, stamp, k, d))
      && (forall c, op {:trigger ChildOk(hash, m, k, c, op)} :: ChildOk(hash, m, k, c, op))
  }

  /** A held child that spends an output of `k` records `k`. */
  ghost predicate ChildOk(hash: Hasher, m: Pool, k: ShortTxid, c: ShortTxid, op: OutPoint)
    requires k in m
  {
    c in m[k].children && c in m && op in m[c].transaction.inputs && hash(op.txid) == k ==> k in m[c].depends
  }

  ghost predicate DependOk(hash: Hasher, m: Pool, stamp: Stamps, k: ShortTxid, d: ShortTxid)
    requires stamp.Keys == m.Keys && k in m
  {
    d in m && stamp[d] < stamp[k] && k in m[d].children
  }

  ghost predicate GraphOk(hash: Hasher, m: Pool, stamp: Stamps) {
    && stamp.Keys == m.Keys
    && forall k {:trigger LinksOk(hash, m, stamp, k)} :: LinksOk(hash, m, stamp, k)
  }

  /** Two transactions that record the same parent spend different outputs of it. */
  ghost predicate Compatible(hash: Hasher, m: Pool, a: ShortTxid, b: ShortTxid) {
    a in m && b in m && a != b ==>
      forall op :: op in m[a].transaction.inputs && op in m[b].transaction.inputs ==>
        !(hash(op.txid) in m[a].depends && hash(op.txid) in m[b].depends)
  }

  ghost predicate NoConflicts(hash: Hasher, m: Pool) {
    forall a, b {:trigger Compatible(hash, m, a, b)} :: Compatible(hash, m, a, b)
  }

  // ---------- removing a transaction ----------

  function Without(s: seq<ShortTxid>, x: ShortTxid): (r: seq<ShortTxid>)
    ensures x !in r
    ensures forall y :: y in r <==> y in s && y != x
  {
    if s == [] then []
    else if s[0] == x then Without(s[1..], x)
    else [s[0]] + Without(s[1..], x)
  }

  /** The pool after dependency `x` has been dropped from the given children. */
  function DropDepend(m: Pool, children: seq<ShortTxid>, x: ShortTxid): (r: Pool)
    ensures r.Keys == m.Keys
    ensures forall k :: k in m ==>
              r[k].transaction == m[k].transaction && r[k].children == m[k].children
    ensures forall k :: k in m ==>
              if k in children
              then x !in r[k].depends && (forall d :: d in r[k].depends <==> d in m[k].depends && d != x)
              else r[k].depends == m[k].depends
    decreases |children|
  {
    if children == [] then m
    else
      DropOne(DropDepend(m, children[..|children| - 1], x), children[|children| - 1], x)
  }

  function DropOne(m: Pool, child: ShortTxid, x: ShortTxid): Pool {
    if child in m then m[child := m[child].(depends := Without(m[child].depends, x))] else m
  }

  lemma DropNext(m: Pool, children: seq<ShortTxid>, i: nat, x: ShortTxid)
    requires i < |children|
    ensures DropDepend(m, children[..i + 1], x) == DropOne(DropDepend(m, children[..i], x), children[i], x)
  {
    assert children[..i + 1][..i] == children[..i];
  }

  /** The pool without transaction `x`, which nothing depends on any more. */
  function Remove(m: Pool, x: ShortTxid): Pool {
    if x in m then DropDepend(m - {x}, m[x].children, x) else m
  }

  lemma RemoveKeeps(hash: Hasher, m: Pool, stamp: Stamps, x: ShortTxid)
    requires GraphOk(hash, m, stamp) && NoConflicts(hash, m) && x in m
    ensures GraphOk(hash, Remove(m, x), stamp - {x}) && NoConflicts(hash, Remove(m, x))
    ensures TotalSize(m) == m[x].transaction.size + TotalSize(Remove(m, x))
  {
    var m', stamp' := Remove(m, x), stamp - {x};
    forall k
      ensures LinksOk(hash, m', stamp', k)
    {
      assert LinksOk(hash, m, stamp, k);
      if k in m' {
        forall d | d in m'[k].depends
          ensures DependOk(hash, m', stamp', k, d)
        {
          assert DependOk(hash, m, stamp, k, d);
        }
        forall c, op
          ensures ChildOk(hash, m', k, c, op)
        {
          assert ChildOk(hash, m, k, c, op);
        }
      }
    }
    forall a, b
      ensures Compatible(hash, m', a, b)
    {
      assert Compatible(hash, m, a, b);
    }
    TotalSizeRemove(m, x);
    TotalSizeSame(m - {x}, m');
  }

  // ---------- adding a transaction ----------

  /** Parents that are held, one entry per input that spends them. */
  function FindMempoolDepends(hash: Hasher, m: Pool, inputs: seq<OutPoint>): (r: seq<ShortTxid>)
    ensures forall d :: d in r ==> d in m
    ensures forall op :: op in inputs && hash(op.txid) in m ==> hash(op.txid) in r
    ensures forall d :: d in r ==> exists op :: op in inputs && hash(op.txid) == d
  {
    if inputs == [] then []
    else
      var short := hash(inputs[0].txid);
      var rest := FindMempoolDepends(hash, m, inputs[1..]);
      if short in m then [short] + rest else rest
  }

  /** The pool after `child` has been listed with each of its parents. */
  function AddChild(m: Pool, parents: seq<ShortTxid>, child: ShortTxid): (r: Pool)
    requires forall d :: d in parents ==> d in m
    ensures r.Keys == m.Keys
    ensures forall k :: k in m ==> r[k].transaction == m[k].transaction && r[k].depends == m[k].depends
    ensures forall k :: k in m ==> forall c :: c in r[k].children <==>
              c in m[k].children || (c == child && k in parents)
    decreases |parents|
  {
    if parents == [] then m
    else
      var n := |parents| - 1;
      var m' := AddChild(m, parents[..n], child);
      m'[parents[n] := m'[parents[n]].(children := m'[parents[n]].children + [child])]
  }

  /** An output of a held transaction is spent by one of its listed children. */
  predicate IsAlreadySpent(hash: Hasher, m: Pool, op: OutPoint) {
    hash(op.txid) in m &&
    exists i :: 0 <= i < |m[hash(op.txid)].children| &&
                var child := m[hash(op.txid)].children[i];
                child in m && op in m[child].transaction.inputs
  }

  ghost predicate NoneSpent(hash: Hasher, m: Pool, inputs: seq<OutPoint>) {
    forall op :: op in inputs ==> !IsAlreadySpent(hash, m, op)
  }

  function Inserted(hash: Hasher, m: Pool, tx: Transaction): Pool {
    var depends := FindMempoolDepends(hash, m, tx.inputs);
    AddChild(m, depends, hash(tx.txid))[hash(tx.txid) := MempoolTransaction(tx, depends, [])]
  }

  lemma InsertLinks(hash: Hasher, m: Pool, stamp: Stamps, clock: nat, tx: Transaction)
    requires GraphOk(hash, m, stamp) && hash(tx.txid) !in m
    requires forall k :: k in stamp ==> stamp[k] < clock
    ensures GraphOk(hash, Inserted(hash, m, tx), stamp[hash(tx.txid) := clock])
  {
    var x := hash(tx.txid);
    var m', stamp' := Inserted(hash, m, tx), stamp[x := clock];
    forall k
      ensures LinksOk(hash, m', stamp', k)
    {
      assert LinksOk(hash, m, stamp, k);
      if k in m' {
        forall d | d in m'[k].depends
          ensures DependOk(hash, m', stamp', k, d)
        {
          assert k != x ==> DependOk(hash, m, stamp, k, d);
        }
        forall c, op
          ensures ChildOk(hash, m', k, c, op)
        {
          assert k != x ==> ChildOk(hash, m, k, c, op);
        }
      }
    }
  }

  /** A transaction that shares an output of a recorded parent with a held one is seen as conflicting. */
  lemma ConflictSeen(hash: Hasher, m: Pool, stamp: Stamps, a: ShortTxid, op: OutPoint)
    requires GraphOk(hash, m, stamp) && a in m
    requires hash(op.txid) in m[a].depends && op in m[a].transaction.inputs
    ensures IsAlreadySpent(hash, m, op)
  {
    assert LinksOk(hash, m, stamp, a);
    assert DependOk(hash, m, stamp, a, hash(op.txid));
    var children := m[hash(op.txid)].children;
    var i :| 0 <= i < |children| && children[i] == a;
  }

  lemma InsertCompatible(hash: Hasher, m: Pool, stamp: Stamps, tx: Transaction)
    requires GraphOk(hash, m, stamp) && NoConflicts(hash, m) && hash(tx.txid) !in m
    requires NoneSpent(hash, m, tx.inputs)
    ensures NoConflicts(hash, Inserted(hash, m, tx))
  {
    var x, m' := hash(tx.txid), Inserted(hash, m, tx);
    forall a, b
      ensures Compatible(hash, m', a, b)
    {
      assert Compatible(hash, m, a, b);
      if a in m' && b in m' && a != b {
        forall op | op in m'[a].transaction.inputs && op in m'[b].transaction.inputs
          ensures !(hash(op.txid) in m'[a].depends && hash(op.txid) in m'[b].depends)
        {
          if b == x && hash(op.txid) in m[a].depends {
            ConflictSeen(hash, m, stamp, a, op);
          }
          if a == x && hash(op.txid) in m[b].depends {
            ConflictSeen(hash, m, stamp, b, op);
          }
        }
      }
    }
  }

  lemma InsertSize(hash: Hasher, m: Pool, tx: Transaction)
    requires hash(tx.txid) !in m
    ensures TotalSize(Inserted(hash, m, tx)) == TotalSize(m) + tx.size
  {
    var x := hash(tx.txid);
    var m' := Inserted(hash, m, tx);
    var grown := AddChild(m, FindMempoolDepends(hash, m, tx.inputs), x);
    TotalSizeRemove(m', x);
    assert m' - {x} == grown;
    TotalSizeSame(grown, m);
  }

  /** Held transaction `a` spends the output and records the transaction it belongs to. */
  ghost predicate Rival(hash: Hasher, m: Pool, op: OutPoint, a: ShortTxid) {
    a in m && op in m[a].transaction.inputs && hash(op.txid) in m[a].depends
  }

  /** Exactly the spends by transactions that record the parent are seen. */
  lemma SpentExactly(hash: Hasher, m: Pool, stamp: Stamps, op: OutPoint)
    requires GraphOk(hash, m, stamp)
    ensures IsAlreadySpent(hash, m, op) <==> exists a :: Rival(hash, m, op, a)
  {
    var p := hash(op.txid);
    if IsAlreadySpent(hash, m, op) {
      var i :| 0 <= i < |m[p].children| && m[p].children[i] in m && op in m[m[p].children[i]].transaction.inputs;
      assert LinksOk(hash, m, stamp, p) && ChildOk(hash, m, p, m[p].children[i], op);
      assert Rival(hash, m, op, m[p].children[i]);
    }
    if a :| Rival(hash, m, op, a) {
      ConflictSeen(hash, m, stamp, a, op);
    }
  }

  /** No held transaction spends one of the outputs and records the transaction it belongs to. */
  ghost predicate NoRival(hash: Hasher, m: Pool, inputs: seq<OutPoint>) {
    forall op, a {:trigger Rival(hash, m, op, a)} :: op in inputs ==> !Rival(hash, m, op, a)
  }

  lemma NoneSpentExactly(hash: Hasher, m: Pool, stamp: Stamps, inputs: seq<OutPoint>)
    requires GraphOk(hash, m, stamp)
    ensures NoneSpent(hash, m, inputs) <==> NoRival(hash, m, inputs)
  {
    forall op
      ensures IsAlreadySpent(hash, m, op) <==> exists a :: Rival(hash, m, op, a)
    {
      SpentExactly(hash, m, stamp, op);
    }
  }

  /** The spend of an output of a transaction that is not held is not seen ... */
  lemma UnheldParentDoubleSpend(hash: Hasher, a: Transaction, b: Transaction, op: OutPoint)
    requires a.inputs == [op] && b.inputs == [op]
    requires hash(a.txid) != hash(b.txid) && hash(op.txid) != hash(a.txid)
    ensures var m := Inserted(hash, map[], a);
            hash(b.txid) !in m && !IsAlreadySpent(hash, m, op) && hash(a.txid) in Inserted(hash, m, b)
  {
  }

  /** ... nor that of a held transaction which was accepted after the spender. */
  lemma ChildBeforeParent(hash: Hasher, a: Transaction, p: Transaction, op: OutPoint)
    requires a.inputs == [op] && op.txid == p.txid && hash(a.txid) != hash(p.txid)
    ensures var m := Inserted(hash, Inserted(hash, map[], a), p);
            hash(a.txid) in m && hash(p.txid) in m && op in m[hash(a.txid)].transaction.inputs &&
            !IsAlreadySpent(hash, m, op)
  {
  }

  // ---------- consuming a block ----------

  /** Dependencies that are not in `gone`. */
  ghost predicate SameBut(m: Pool, m': Pool, gone: set<ShortTxid>, k: ShortTxid) {
    k in m && k !in gone ==>
      && k in m'
      && m'[k].transaction == m[k].transaction && m'[k].children == m[k].children
      && forall d :: d in m'[k].depends <==> d in m[k].depends && d !in gone
  }

  /** Exactly the transactions in `gone` have left, and nothing depends on them any more. */
  ghost predicate Left(m: Pool, m': Pool, gone: set<ShortTxid>) {
    && m'.Keys == m.Keys - gone
    && forall k {:trigger SameBut(m, m', gone, k)} :: SameBut(m, m', gone, k)
  }

  lemma RemoveIsLeft(hash: Hasher, m: Pool, stamp: Stamps, x: ShortTxid)
    requires GraphOk(hash, m, stamp)
    ensures Left(m, Remove(m, x), {x})
  {
    var m' := Remove(m, x);
    forall k
      ensures SameBut(m, m', {x}, k)
    {
      assert LinksOk(hash, m, stamp, k);
      assert k in m && x in m[k].depends ==> DependOk(hash, m, stamp, k, x);
    }
  }

  lemma LeftTrans(a: Pool, b: Pool, c: Pool, gone: set<ShortTxid>, more: set<ShortTxid>)
    requires Left(a, b, gone) && Left(b, c, more)
    ensures Left(a, c, gone + more)
  {
    forall k
      ensures SameBut(a, c, gone + more, k)
    {
      assert SameBut(a, b, gone, k) && SameBut(b, c, more, k);
    }
  }

  // ---------- block templates ----------

  predicate Held(hash: Hasher, m: Pool, t: Transaction) {
    hash(t.txid) in m && m[hash(t.txid)].transaction == t
  }

  /** Every dependency the transaction at position `i` records appears before it. */
  ghost predicate Supported(hash: Hasher, m: Pool, txs: seq<Transaction>, i: nat) {
    i < |txs| ==>
      && Held(hash, m, txs[i])
      && txs[i] !in txs[..i]
      && forall d :: d in m[hash(txs[i].txid)].depends ==> d in m && m[d].transaction in txs[..i]
  }

  /** A list a block can carry: held transactions, each once, dependencies first. */
  ghost predicate Mineable(hash: Hasher, m: Pool, txs: seq<Transaction>) {
    forall i {:trigger Supported(hash, m, txs, i)} :: 0 <= i ==> Supported(hash, m, txs, i)
  }

  lemma MineableAppend(hash: Hasher, m: Pool, txs: seq<Transaction>, t: Transaction)
    requires Mineable(hash, m, txs) && Held(hash, m, t) && t !in txs
    requires forall d :: d in m[hash(t.txid)].depends ==> d in m && m[d].transaction in txs
    ensures Mineable(hash, m, txs + [t])
  {
    var more := txs + [t];
    forall i | 0 <= i
      ensures Supported(hash, m, more, i)
    {
      assert Supported(hash, m, txs, i);
      if i < |more| {
        assert more[..i] == txs[..i];
      }
      assert txs[..|txs|] == txs;
    }
  }

  /** Whatever `after` adds to `before` was accepted before time `limit`. */
  ghost predicate AddedBy(hash: Hasher, stamp: Stamps, before: seq<Transaction>, after: seq<Transaction>, limit: nat) {
    && before <= after
    && forall t :: t in after && t !in before ==> hash(t.txid) in stamp && stamp[hash(t.txid)] < limit
  }

  /** A transaction of the list beyond `before` records a dependency on `t`. */
  ghost predicate NeededIn(hash: Hasher, m: Pool, before: seq<Transaction>, after: seq<Transaction>, t: Transaction) {
    exists u :: u in after && u !in before && hash(u.txid) in m && hash(t.txid) in m[hash(u.txid)].depends
  }

  /** Whatever `after` adds to `before` is `root` or needed by something else that is added. */
  ghost predicate OnlyNeeded(hash: Hasher, m: Pool, before: seq<Transaction>, after: seq<Transaction>,
                             root: ShortTxid) {
    forall t {:trigger NeededIn(hash, m, before, after, t)} ::
      t in after && t !in before ==> hash(t.txid) == root || NeededIn(hash, m, before, after, t)
  }

  /** What a dependency brought in is needed, by the dependant at the latest. */
  ghost predicate NeededSoFar(hash: Hasher, m: Pool, before: seq<Transaction>, after: seq<Transaction>, k: ShortTxid)
    requires k in m
  {
    forall t {:trigger NeededIn(hash, m, before, after, t)} ::
      t in after && t !in before ==> hash(t.txid) in m[k].depends || NeededIn(hash, m, before, after, t)
  }

  lemma NeededStep(hash: Hasher, m: Pool, before: seq<Transaction>, mid: seq<Transaction>, after: seq<Transaction>,
                   k: ShortTxid, d: ShortTxid)
    requires k in m && d in m[k].depends && before <= mid <= after
    requires NeededSoFar(hash, m, before, mid, k) && OnlyNeeded(hash, m, mid, after, d)
    ensures NeededSoFar(hash, m, before, after, k)
  {
    forall t | t in after && t !in before
      ensures hash(t.txid) in m[k].depends || NeededIn(hash, m, before, after, t)
    {
      assert t in mid ==> hash(t.txid) in m[k].depends || NeededIn(hash, m, before, mid, t);
      assert t !in mid ==> hash(t.txid) == d || NeededIn(hash, m, mid, after, t);
      assert forall u :: u in before ==> u in mid;
    }
  }

  lemma NeededDone(hash: Hasher, m: Pool, before: seq<Transaction>, after: seq<Transaction>, k: ShortTxid)
    requires k in m && hash(m[k].transaction.txid) == k && m[k].transaction !in before
    requires NeededSoFar(hash, m, before, after, k)
    ensures OnlyNeeded(hash, m, before, after + [m[k].transaction], k)
  {
    var all := after + [m[k].transaction];
    forall t | t in all && t !in before
      ensures hash(t.txid) == k || NeededIn(hash, m, before, all, t)
    {
      assert t in after ==> hash(t.txid) in m[k].depends || NeededIn(hash, m, before, after, t);
      assert m[k].transaction in all && forall u :: u in after ==> u in all;
    }
  }

  /** Appends a held transaction after its dependencies, recursively; the acceptance order makes it end. */
  method AddTransactionToBlock(hash: Hasher, m: Pool, ghost stamp: Stamps, txs: seq<Transaction>, k: ShortTxid)
    returns (r: seq<Transaction>)
    requires GraphOk(hash, m, stamp) && k in m && Mineable(hash, m, txs)
    ensures Mineable(hash, m, r) && m[k].transaction in r
    ensures AddedBy(hash, stamp, txs, r, stamp[k] + 1) && OnlyNeeded(hash, m, txs, r, k)
    ensures m[k].transaction !in txs && m[k].depends == [] ==> r == txs + [m[k].transaction]
    decreases stamp[k]
  {
    assert LinksOk(hash, m, stamp, k);
    r := txs;
    if m[k].transaction !in txs {
      var depends := m[k].depends;
      var i := 0;
      while i < |depends|
        invariant 0 <= i <= |depends|
        invariant Mineable(hash, m, r) && (i == 0 ==> r == txs)
        invariant AddedBy(hash, stamp, txs, r, stamp[k]) && NeededSoFar(hash, m, txs, r, k)
        invariant forall j :: 0 <= j < i ==> depends[j] in m && m[depends[j]].transaction in r
      {
        assert DependOk(hash, m, stamp, k, depends[i]);
        ghost var mid := r;
        r := AddTransactionToBlock(hash, m, stamp, r, depends[i]);
        NeededStep(hash, m, txs, mid, r, k, depends[i]);
        i := i + 1;
      }
      MineableAppend(hash, m, r, m[k].transaction);
      NeededDone(hash, m, txs, r, k);
      r := r + [m[k].transaction];
    }
  }

  /** Summed weight of the held transactions under the listed ids. */
  function Weights(m: Pool, order: seq<ShortTxid>): (w: nat)
    requires forall k :: k in order ==> k in m
  {
    if order == [] then 0
    else Weights(m, order[..|order| - 1]) + m[order[|order| - 1]].transaction.weight
  }

  lemma {:induction false} WeightsGrow(m: Pool, order: seq<ShortTxid>, n: nat)
    requires (forall k :: k in order ==> k in m) && n <= |order|
    ensures Weights(m, order[..n]) <= Weights(m, order)
  {
    if n == |order| {
      assert order[..n] == order;
    } else {
      var front := order[..|order| - 1];
      WeightsGrow(m, front, n);
      assert front[..n] == order[..n];
    }
  }

  lemma PrefixFits(m: Pool, order: seq<ShortTxid>, n: nat)
    requires (forall k :: k in order ==> k in m) && n < |order|
    ensures Weights(m, order[..n]) + m[order[n]].transaction.weight <= Weights(m, order)
  {
    WeightsGrow(m, order, n + 1);
    assert order[..n + 1][..n] == order[..n];
  }

  /** The first `n` of the order are in the template, and are cut short only where their weights reach the maximum. */
  ghost predicate TakenUpTo(m: Pool, order: seq<ShortTxid>, maxBlockWeight: nat, txs: seq<Transaction>, n: nat)
    requires forall k :: k in order ==> k in m
  {
    && n <= |order|
    && (forall k :: k in order[..n] ==> m[k].transaction in txs)
    && (n == |order| || Weights(m, order[..n]) + m[order[n]].transaction.weight > maxBlockWeight)
  }

  ghost predicate TakenUntilFull(m: Pool, order: seq<ShortTxid>, maxBlockWeight: nat, txs: seq<Transaction>)
    requires forall k :: k in order ==> k in m
  {
    exists n: nat :: TakenUpTo(m, order, maxBlockWeight, txs, n)
  }

  /** When everything fits together, everything is in. */
  lemma {:induction false} AllTaken(m: Pool, order: seq<ShortTxid>, maxBlockWeight: nat, txs: seq<Transaction>,
                                    k: ShortTxid)
    requires (forall x :: x in order ==> x in m) && TakenUntilFull(m, order, maxBlockWeight, txs)
    requires Weights(m, order) <= maxBlockWeight && k in order
    ensures m[k].transaction in txs
  {
    var n: nat :| TakenUpTo(m, order, maxBlockWeight, txs, n);
    assert order[..|order|] == order;
    if n < |order| {
      PrefixFits(m, order, n);
    }
  }

  /** Summed weight of some transactions. */
  function TotalWeight(txs: seq<Transaction>): nat {
    if txs == [] then 0 else TotalWeight(txs[..|txs| - 1]) + txs[|txs| - 1].weight
  }

  /** A transaction of the list was picked, or something in the list records a dependency on it. */
  ghost predicate PickedOrNeeded(hash: Hasher, m: Pool, picked: seq<ShortTxid>, txs: seq<Transaction>, t: Transaction) {
    hash(t.txid) in picked || exists u :: u in txs && hash(u.txid) in m && hash(t.txid) in m[hash(u.txid)].depends
  }

  /** The picked ids stand in the order of the list. */
  ghost predicate InOrder(picked: seq<ShortTxid>, s: seq<ShortTxid>) {
    picked == [] ||
    (s != [] &&
     (var p, n := |picked| - 1, |s| - 1;
      (picked[p] == s[n] && InOrder(picked[..p], s[..n])) || InOrder(picked, s[..n])))
  }

  /** What a template is made of: ids picked from the order, none twice, whose weights together keep within the maximum,
      and what they need. The first `n` of the order are in; the next one, if any, would exceed the maximum. */
  ghost predicate Filled(hash: Hasher, m: Pool, order: seq<ShortTxid>, max: nat, n: nat, picked: seq<ShortTxid>,
                         txs: seq<Transaction>)
    requires forall k :: k in order ==> k in m
  {
    && n <= |order|
    && (forall k :: k in picked ==> k in order[..n]) && InOrder(picked, order[..n])
    && (forall i, j :: 0 <= i < j < |picked| ==> picked[i] != picked[j])
    && (forall k :: k in order[..n] ==> m[k].transaction in txs)
    && (forall t {:trigger PickedOrNeeded(hash, m, picked, txs, t)} ::
          t in txs ==> PickedOrNeeded(hash, m, picked, txs, t))
    && Weights(m, picked) <= max
  }

  lemma InOrderOn(picked: seq<ShortTxid>, order: seq<ShortTxid>, n: nat)
    requires n < |order| && InOrder(picked, order[..n])
    ensures InOrder(picked + [order[n]], order[..n + 1]) && InOrder(picked, order[..n + 1])
  {
    assert order[..n + 1][..n] == order[..n] && (picked + [order[n]])[..|picked|] == picked;
  }

  lemma NeededOn(hash: Hasher, m: Pool, picked: seq<ShortTxid>, k: ShortTxid, txs: seq<Transaction>,
                 txs': seq<Transaction>, t: Transaction)
    requires t in txs ==> PickedOrNeeded(hash, m, picked, txs, t)
    requires txs <= txs' && OnlyNeeded(hash, m, txs, txs', k) && t in txs'
    ensures PickedOrNeeded(hash, m, picked + [k], txs', t)
  {
    assert forall u :: u in txs ==> u in txs';
    if t !in txs {
      assert hash(t.txid) == k || NeededIn(hash, m, txs, txs', t);
    }
  }

  /** One more pick, with what it needs. */
  lemma FilledOn(hash: Hasher, m: Pool, order: seq<ShortTxid>, max: nat, n: nat, picked: seq<ShortTxid>,
                 txs: seq<Transaction>, txs': seq<Transaction>)
    requires (forall k :: k in order ==> k in m) && Filled(hash, m, order, max, n, picked, txs) && n < |order|
    requires m[order[n]].transaction !in txs && txs <= txs'
    requires m[order[n]].transaction in txs' && OnlyNeeded(hash, m, txs, txs', order[n])
    requires Weights(m, picked) + m[order[n]].transaction.weight <= max
    ensures Filled(hash, m, order, max, n + 1, picked + [order[n]], txs')
  {
    var picked' := picked + [order[n]];
    assert order[..n + 1] == order[..n] + [order[n]];
    InOrderOn(picked, order, n);
    WeightsPicked(m, picked, order[n]);
    forall t | t in txs'
      ensures PickedOrNeeded(hash, m, picked', txs', t)
    {
      assert t in txs ==> PickedOrNeeded(hash, m, picked, txs, t);
      NeededOn(hash, m, picked, order[n], txs, txs', t);
    }
  }

  /** A transaction that is in already is passed over. */
  lemma FilledPast(hash: Hasher, m: Pool, order: seq<ShortTxid>, max: nat, n: nat, picked: seq<ShortTxid>,
                   txs: seq<Transaction>)
    requires (forall k :: k in order ==> k in m) && Filled(hash, m, order, max, n, picked, txs) && n < |order|
    requires m[order[n]].transaction in txs
    ensures Filled(hash, m, order, max, n + 1, picked, txs)
  {
    assert order[..n + 1] == order[..n] + [order[n]];
    InOrderOn(picked, order, n);
  }

  lemma {:induction false} WeightsPicked(m: Pool, picked: seq<ShortTxid>, k: ShortTxid)
    requires (forall x :: x in picked ==> x in m) && k in m
    ensures Weights(m, picked + [k]) == Weights(m, picked) + m[k].transaction.weight
  {
    assert (picked + [k])[..|picked|] == picked;
  }

  /** No held transaction records a dependency. */
  ghost predicate Unrelated(m: Pool) {
    forall k :: k in m ==> m[k].depends == []
  }

  /** The transactions of a template, whatever order the map is iterated in: those picked keep within the maximum, and
      so does the whole template if no transaction depends on another. */
  method GetBlockTemplate(hash: Hasher, m: Pool, ghost stamp: Stamps, order: seq<ShortTxid>, maxBlockWeight: nat)
    returns (txs: seq<Transaction>, ghost n: nat, ghost picked: seq<ShortTxid>)
    requires GraphOk(hash, m, stamp)
    requires forall k :: k in order <==> k in m
    ensures Mineable(hash, m, txs)
    ensures Filled(hash, m, order, maxBlockWeight, n, picked, txs)
    ensures n == |order| || Weights(m, picked) + m[order[n]].transaction.weight > maxBlockWeight
    ensures Unrelated(m) ==> TotalWeight(txs) <= maxBlockWeight
    // everything before the first transaction that might not fit is in
    ensures TakenUntilFull(m, order, maxBlockWeight, txs)
  {
    txs, picked := [], [];
    var size := 0;
    var i := 0;
    while i < |order|
      invariant 0 <= i <= |order|
      invariant Mineable(hash, m, txs)
      invariant Filled(hash, m, order, maxBlockWeight, i, picked, txs)
      invariant size == Weights(m, picked) <= Weights(m, order[..i])
      invariant Unrelated(m) ==> TotalWeight(txs) == size
    {
      var tx := m[order[i]].transaction;
      assert LinksOk(hash, m, stamp, order[i]);
      assert order[..i + 1][..i] == order[..i];
      if size + tx.weight > maxBlockWeight {
        break;
      }
      if tx !in txs {
        ghost var before := txs;
        size := size + tx.weight;
        txs := AddTransactionToBlock(hash, m, stamp, txs, hash(tx.txid));
        FilledOn(hash, m, order, maxBlockWeight, i, picked, before, txs);
        WeightsPicked(m, picked, order[i]);
        assert (before + [tx])[..|before|] == before;
        picked := picked + [order[i]];
      } else {
        FilledPast(hash, m, order, maxBlockWeight, i, picked, txs);
      }
      i := i + 1;
    }
    n := i;
    assert TakenUpTo(m, order, maxBlockWeight, txs, i);
  }

  // ---------- the mempool ----------

  /** The error a transaction is refused with: the first of the checks that fails. */
  ghost function Refusal(contextFree: Transaction -> bool, max: nat, m: Pool, tx: Transaction): MempoolError {
    if TotalSize(m) + tx.size > max then FullMempool
    else if !contextFree(tx) then ConsensusValidation
    else if !Distinct(tx.inputs) then DuplicatedInputs
    else ConflictingTransaction
  }

  class Mempool {
    const hasher: Hasher
    const contextFree: Transaction -> bool
    const maxMempoolSize: nat
    var transactions: Pool
    var mempoolSize: nat
    ghost var stamp: Stamps
    ghost var clock: nat

    ghost predicate Valid()
      reads this
    {
      && GraphOk(hasher, transactions, stamp)
      && NoConflicts(hasher, transactions)
      && mempoolSize == TotalSize(transactions) <= maxMempoolSize
      && forall k :: k in stamp ==> stamp[k] < clock
    }

    constructor (hasher: Hasher, contextFree: Transaction -> bool, maxMempoolSize: nat)
      ensures Valid() && transactions == map[] && this.maxMempoolSize == maxMempoolSize
      ensures this.hasher == hasher && this.contextFree == contextFree
    {
      this.hasher, this.contextFree, this.maxMempoolSize := hasher, contextFree, maxMempoolSize;
      transactions, mempoolSize, stamp, clock := map[], 0, map[], 0;
    }

    method CheckForConflicts(transaction: Transaction) returns (r: Result<(), MempoolError>)
      ensures r == Err(DuplicatedInputs) <==> !Distinct(transaction.inputs)
      ensures r.Ok? <==> Distinct(transaction.inputs) && NoneSpent(hasher, transactions, transaction.inputs)
      ensures Valid() ==> (r.Ok? <==> Distinct(transaction.inputs) && NoRival(hasher, transactions, transaction.inputs))
      ensures r.Err? ==> r.error in {DuplicatedInputs, ConflictingTransaction}
    {
      if Valid() {
        NoneSpentExactly(hasher, transactions, stamp, transaction.inputs);
      }
      var inputs := set op | op in transaction.inputs;
      DistinctBySize(transaction.inputs);
      if |inputs| != |transaction.inputs| {
        return Err(DuplicatedInputs);
      }
      var i := 0;
      while i < |transaction.inputs|
        invariant 0 <= i <= |transaction.inputs|
        invariant NoneSpent(hasher, transactions, transaction.inputs[..i])
      {
        if IsAlreadySpent(hasher, transactions, transaction.inputs[i]) {
          assert transaction.inputs[i] in transaction.inputs;
          return Err(ConflictingTransaction);
        }
        assert transaction.inputs[..i + 1] == transaction.inputs[..i] + [transaction.inputs[i]];
        i := i + 1;
      }
      assert transaction.inputs[..i] == transaction.inputs;
      return Ok(());
    }

    method AcceptToMempool(transaction: Transaction) returns (r: Result<(), MempoolError>)
      requires Valid()
      modifies this
      ensures Valid()
      // holding it already is a success that changes nothing, even with no room left
      ensures hasher(transaction.txid) in old(transactions) ==> r.Ok? && transactions == old(transactions)
      // otherwise success means it is held, linked both ways with its held parents and with no rival
      ensures hasher(transaction.txid) !in old(transactions) && r.Ok? ==>
                && transactions == Inserted(hasher, old(transactions), transaction)
                && mempoolSize == old(mempoolSize) + transaction.size
      ensures r.Err? ==> transactions == old(transactions) && mempoolSize == old(mempoolSize)
      ensures r == Err(FullMempool) <==>
                hasher(transaction.txid) !in old(transactions) &&
                TotalSize(old(transactions)) + transaction.size > maxMempoolSize
      ensures r.Ok? <==>
                || hasher(transaction.txid) in old(transactions)
                || (&& TotalSize(old(transactions)) + transaction.size <= maxMempoolSize && contextFree(transaction)
                    && Distinct(transaction.inputs) && NoRival(hasher, old(transactions), transaction.inputs))
      ensures r.Err? ==> r.error == Refusal(contextFree, maxMempoolSize, old(transactions), transaction)
    {
      var short := hasher(transaction.txid);
      if short in transactions {
        return Ok(());
      }
      if mempoolSize + transaction.size > maxMempoolSize {
        return Err(FullMempool);
      }
      if !contextFree(transaction) {
        return Err(ConsensusValidation);
      }
      var checked := CheckForConflicts(transaction);
      if checked.Err? {
        return checked;
      }
      InsertLinks(hasher, transactions, stamp, clock, transaction);
      InsertCompatible(hasher, transactions, stamp, transaction);
      InsertSize(hasher, transactions, transaction);
      var depends := FindMempoolDepends(hasher, transactions, transaction.inputs);
      ListChild(depends, short);
      transactions := transactions[short := MempoolTransaction(transaction, depends, [])];
      mempoolSize := mempoolSize + transaction.size;
      stamp, clock := stamp[short := clock], clock + 1;
      r := Ok(());
    }

    method ListChild(depends: seq<ShortTxid>, child: ShortTxid)
      requires forall d :: d in depends ==> d in transactions
      modifies `transactions
      ensures transactions == AddChild(old(transactions), depends, child)
    {
      var i := 0;
      assert depends[..0] == [];
      while i < |depends|
        invariant 0 <= i <= |depends|
        invariant transactions == AddChild(old(transactions), depends[..i], child)
      {
        assert depends[..i + 1][..i] == depends[..i];
        var tx := transactions[depends[i]];
        transactions := transactions[depends[i] := tx.(children := tx.children + [child])];
        i := i + 1;
      }
      assert depends[..|depends|] == depends;
    }

    /** Drops the transactions of a block; what stays keeps its other dependencies. */
    method ConsumeBlock(txdata: seq<Transaction>) returns (txids: seq<Txid>)
      requires Valid()
      modifies this
      ensures Valid()
      ensures Left(old(transactions), transactions, set t | t in txdata :: hasher(t.txid))
      ensures |txids| == |txdata| && forall i :: 0 <= i < |txdata| ==> txids[i] == txdata[i].txid
    {
      txids := [];
      var i := 0;
      ghost var gone: set<ShortTxid> := {};
      while i < |txdata|
        invariant 0 <= i <= |txdata| && |txids| == i
        invariant Valid() && Left(old(transactions), transactions, gone)
        invariant forall k :: k in gone <==> exists j :: 0 <= j < i && hasher(txdata[j].txid) == k
        invariant forall j :: 0 <= j < i ==> txids[j] == txdata[j].txid
      {
        var short := hasher(txdata[i].txid);
        ghost var before := transactions;
        RemoveIsLeft(hasher, before, stamp, short);
        RemoveOne(short);
        LeftTrans(old(transactions), before, transactions, gone, {short});
        txids := txids + [txdata[i].txid];
        gone := gone + {short};
        i := i + 1;
      }
      assert gone == set t | t in txdata :: hasher(t.txid);
    }

    method RemoveOne(short: ShortTxid)
      requires Valid()
      modifies this
      ensures Valid() && transactions == Remove(old(transactions), short)
    {
      if short in transactions {
        RemoveKeeps(hasher, transactions, stamp, short);
        var removed := transactions[short];
        transactions := transactions - {short};
        mempoolSize := mempoolSize - removed.transaction.size;
        stamp := stamp - {short};
        RetainDepends(removed.children, short);
      }
    }

    method RetainDepends(children: seq<ShortTxid>, short: ShortTxid)
      modifies `transactions
      ensures transactions == DropDepend(old(transactions), children, short)
    {
      var i := 0;
      assert children[..0] == [];
      while i < |children|
        invariant 0 <= i <= |children|
        invariant transactions == DropDepend(old(transactions), children[..i], short)
      {
        DropNext(old(transactions), children, i, short);
        transactions := DropOne(transactions, children[i], short);
        i := i + 1;
      }
      assert children[..|children|] == children;
    }

    method Template(order: seq<ShortTxid>, maxBlockWeight: nat)
      returns (txs: seq<Transaction>, ghost n: nat, ghost picked: seq<ShortTxid>)
      requires Valid()
      requires forall k :: k in order <==> k in transactions
      ensures Mineable(hasher, transactions, txs) && TakenUntilFull(transactions, order, maxBlockWeight, txs)
      ensures Filled(hasher, transactions, order, maxBlockWeight, n, picked, txs)
      ensures n == |order| || Weights(transactions, picked) + transactions[order[n]].transaction.weight > maxBlockWeight
      ensures Unrelated(transactions) ==> TotalWeight(txs) <= maxBlockWeight
      ensures Weights(transactions, order) <= maxBlockWeight ==> forall k :: k in transactions ==>
                transactions[k].transaction in txs
    {
      txs, n, picked := GetBlockTemplate(hasher, transactions, stamp, order, maxBlockWeight);
      if Weights(transactions, order) <= maxBlockWeight {
        forall k | k in transactions
          ensures transactions[k].transaction in txs
        {
          AllTaken(transactions, order, maxBlockWeight, txs, k);
        }
      }
    }
  }

  // ---------- whole runs ----------

  datatype Event = Submitted(transaction: Transaction) | Mined(txdata: seq<Transaction>)

  type Outcome = Result<(), MempoolError>

  /** What an event does: a transaction that is held already changes nothing; any other is taken exactly if there is
      room, it passes its checks, its inputs are distinct and none has a rival; a block takes its transactions out. */
  ghost predicate Happened(hash: Hasher, contextFree: Transaction -> bool, max: nat, m: Pool, event: Event, r: Outcome,
                           m': Pool) {
    match event
    case Submitted(tx) =>
      if hash(tx.txid) in m then r.Ok? && m' == m
      else
        && (r.Ok? <==> TotalSize(m) + tx.size <= max && contextFree(tx) && Distinct(tx.inputs) &&
                       NoRival(hash, m, tx.inputs))
        && (r.Err? ==> r.error == Refusal(contextFree, max, m, tx))
        && m' == if r.Ok? then Inserted(hash, m, tx) else m
    case Mined(txdata) => r.Ok? && Left(m, m', Ids(hash, txdata))
  }

  function Ids(hash: Hasher, txdata: seq<Transaction>): set<ShortTxid> {
    set t | t in txdata :: hash(t.txid)
  }

  /** The ids held after some events. */
  function HeldAfter(hash: Hasher, start: set<ShortTxid>, events: seq<Event>, results: seq<Outcome>): set<ShortTxid>
    requires |results| == |events|
  {
    if events == [] then start
    else
      var n := |events| - 1;
      var before := HeldAfter(hash, start, events[..n], results[..n]);
      match events[n]
      case Submitted(tx) => if results[n].Ok? then before + {hash(tx.txid)} else before
      case Mined(txdata) => before - Ids(hash, txdata)
  }

  ghost predicate EventOk(hash: Hasher, contextFree: Transaction -> bool, max: nat, events: seq<Event>,
                          results: seq<Outcome>, pools: seq<Pool>, k: nat)
    requires k < |events| && k < |results| && k + 1 < |pools|
  {
    Happened(hash, contextFree, max, pools[k], events[k], results[k], pools[k + 1])
  }

  /** The pools a run goes through. */
  ghost predicate Ran(hash: Hasher, contextFree: Transaction -> bool, max: nat, events: seq<Event>, n: nat,
                      results: seq<Outcome>, pools: seq<Pool>) {
    && n <= |events| && |results| == n && |pools| == n + 1
    && pools[n].Keys == HeldAfter(hash, pools[0].Keys, events[..n], results)
    && forall k: nat {:trigger EventOk(hash, contextFree, max, events, results, pools, k)} ::
         k < n ==> EventOk(hash, contextFree, max, events, results, pools, k)
  }

  lemma RanOn(hash: Hasher, contextFree: Transaction -> bool, max: nat, events: seq<Event>, n: nat,
              results: seq<Outcome>, pools: seq<Pool>, r: Outcome, m: Pool)
    requires Ran(hash, contextFree, max, events, n, results, pools) && n < |events|
    requires Happened(hash, contextFree, max, pools[n], events[n], r, m)
    ensures Ran(hash, contextFree, max, events, n + 1, results + [r], pools + [m])
  {
    var results', pools' := results + [r], pools + [m];
    assert events[..n + 1][..n] == events[..n] && results'[..n] == results;
    HeldOn(hash, contextFree, max, pools[n], events[n], r, m);
    forall k: nat | k < n + 1
      ensures EventOk(hash, contextFree, max, events, results', pools', k)
    {
      assert k < n ==> EventOk(hash, contextFree, max, events, results, pools, k);
    }
  }

  lemma HeldOn(hash: Hasher, contextFree: Transaction -> bool, max: nat, m: Pool, event: Event, r: Outcome, m': Pool)
    requires Happened(hash, contextFree, max, m, event, r, m')
    ensures m'.Keys == match event
                       case Submitted(tx) => if r.Ok? then m.Keys + {hash(tx.txid)} else m.Keys
                       case Mined(txdata) => m.Keys - Ids(hash, txdata)
  {
  }

  method Take(pool: Mempool, event: Event) returns (r: Outcome)
    requires pool.Valid()
    modifies pool
    ensures pool.Valid()
    ensures Happened(pool.hasher, pool.contextFree, pool.maxMempoolSize, old(pool.transactions), event, r,
                     pool.transactions)
  {
    match event {
      case Submitted(transaction) =>
        r := pool.AcceptToMempool(transaction);
      case Mined(txdata) =>
        var _ := pool.ConsumeBlock(txdata);
        r := Ok(());
    }
  }

  /** Some order in which the map may be iterated. */
  method Iterate(m: Pool) returns (order: seq<ShortTxid>)
    ensures forall k :: k in order <==> k in m
  {
    order := [];
    var left := m.Keys;
    while left != {}
      invariant left <= m.Keys
      invariant forall k :: k in order <==> k in m.Keys - left
      decreases |left|
    {
      var k :| k in left;
      order, left := order + [k], left - {k};
    }
  }

  /** Whatever was submitted and mined, each event has done what the pool before it calls for: the ids held are those
      taken and not mined since, the size on record is the size held, and, however the map is iterated, the next
      template can be mined and holds the transactions in that order until it is full. */
  method AnyRun(pool: Mempool, events: seq<Event>, maxBlockWeight: nat)
    returns (results: seq<Outcome>, ghost pools: seq<Pool>, order: seq<ShortTxid>, txs: seq<Transaction>,
             ghost n: nat, ghost picked: seq<ShortTxid>)
    requires pool.Valid()
    modifies pool
    ensures pool.Valid() && pool.mempoolSize == TotalSize(pool.transactions) <= pool.maxMempoolSize
    ensures Ran(pool.hasher, pool.contextFree, pool.maxMempoolSize, events, |events|, results, pools)
    ensures pools[0] == old(pool.transactions) && pools[|events|] == pool.transactions
    ensures pool.transactions.Keys == HeldAfter(pool.hasher, old(pool.transactions.Keys), events, results)
    ensures (forall k :: k in order <==> k in pool.transactions) && Mineable(pool.hasher, pool.transactions, txs)
    ensures TakenUntilFull(pool.transactions, order, maxBlockWeight, txs)
    ensures Filled(pool.hasher, pool.transactions, order, maxBlockWeight, n, picked, txs)
    ensures Unrelated(pool.transactions) ==> TotalWeight(txs) <= maxBlockWeight
  {
    results, pools := [], [pool.transactions];
    for i := 0 to |events|
      invariant pool.Valid()
      invariant Ran(pool.hasher, pool.contextFree, pool.maxMempoolSize, events, i, results, pools)
      invariant pools[0] == old(pool.transactions) && pools[i] == pool.transactions
    {
      var r := Take(pool, events[i]);
      RanOn(pool.hasher, pool.contextFree, pool.maxMempoolSize, events, i, results, pools, r, pool.transactions);
      results, pools := results + [r], pools + [pool.transactions];
    }
    assert events[..|events|] == events;
    order := Iterate(pool.transactions);
    txs, n, picked := pool.Template(order, maxBlockWeight);
  }
}
