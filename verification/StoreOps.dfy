/**
  What `ChainState` asks of its store, write by write, and which writes a store that
  keeps best-chain headers in one slot per height can take without losing a header.
 */
module StoreOps {
  import opened ChainTypes

  /** One write. `Move` saves a header outside the best chain; `Place` saves a best-chain header and updates its
      index; `Restate` saves a best-chain header without that; `Roots` saves an accumulator. */
  datatype Op =
    | Move(disk: DiskBlockHeader)
    | Place(disk: DiskBlockHeader)
    | Restate(disk: DiskBlockHeader)
    | Roots(roots: Stump, height: nat)

  function Apply(s: Store, op: Op): Store {
    match op
    case Move(d) => s.SaveHeader(d)
    case Place(d) =>
      if d.MainChain() then s.SaveHeader(d).UpdateBlockIndex(d.height, d.header.hash) else s.SaveHeader(d)
    case Restate(d) => s.SaveHeader(d)
    case Roots(roots, height) => s.SaveRoots(roots, height)
  }

  function ApplyAll(s: Store, ops: seq<Op>): Store {
    if ops == [] then s else Apply(ApplyAll(s, ops[..|ops| - 1]), ops[|ops| - 1])
  }

  /** No block is lost when the slot is taken over: what it holds, if anything, is not a best-chain header. */
  predicate Vacant(s: Store, n: nat) {
    n in s.slots ==> s.slots[n].hash in s.headers && !s.headers[s.slots[n].hash].MainChain()
  }

  /** The block is a best-chain header of height `n` and has the slot. */
  predicate Holds(s: Store, n: nat, h: BlockHash) {
    && n in s.slots && s.slots[n].hash == h
    && h in s.headers && s.headers[h].MainChain() && s.headers[h].height == n
  }

  /** A write that loses no header. Genesis stays in slot 0, and no block hashes to the parent of genesis. */
  predicate Allowed(g: Header, s: Store, op: Op) {
    match op
    case Move(d) => !d.MainChain() && d.header.hash != g.hash && d.header.hash != g.prev
    case Place(d) =>
      && d.MainChain() && d.header.hash != g.prev && (d.header.hash == g.hash ==> d.height == 0)
      && (Vacant(s, d.height) || Holds(s, d.height, d.header.hash))
    case Restate(d) => d.MainChain() && d.header.hash != g.prev && Holds(s, d.height, d.header.hash)
    case Roots(_, _) => true
  }

  predicate AllAllowed(g: Header, s: Store, ops: seq<Op>) {
    ops == [] ||
    (AllAllowed(g, s, ops[..|ops| - 1]) && Allowed(g, ApplyAll(s, ops[..|ops| - 1]), ops[|ops| - 1]))
  }

  /** The writes lead from one store to the other, and none of them loses a header. */
  ghost predicate Traced(g: Header, s: Store, s': Store, ops: seq<Op>) {
    ApplyAll(s, ops) == s' && AllAllowed(g, s, ops)
  }

  lemma TracedStep(g: Header, s: Store, s': Store, ops: seq<Op>, op: Op)
    requires Traced(g, s, s', ops) && Allowed(g, s', op)
    ensures Traced(g, s, Apply(s', op), ops + [op])
  {
    assert (ops + [op])[..|ops|] == ops;
  }

  lemma TracedOne(g: Header, s: Store, op: Op)
    requires Allowed(g, s, op)
    ensures Traced(g, s, Apply(s, op), [op])
  {
    TracedStep(g, s, s, [], op);
    assert [] + [op] == [op];
  }

  lemma {:induction false} TracedThen(g: Header, s: Store, s': Store, s'': Store, ops: seq<Op>, ops': seq<Op>)
    requires Traced(g, s, s', ops) && Traced(g, s', s'', ops')
    ensures Traced(g, s, s'', ops + ops')
    decreases |ops'|
  {
    if ops' == [] {
      assert ops + ops' == ops;
    } else {
      var n := |ops'| - 1;
      TracedThen(g, s, s', ApplyAll(s', ops'[..n]), ops, ops'[..n]);
      TracedStep(g, s, ApplyAll(s', ops'[..n]), ops + ops'[..n], ops'[n]);
      assert ops + ops' == ops + ops'[..n] + [ops'[n]];
    }
  }
}
