/** Whole runs of the chain state from genesis, for every sequence of calls. */
module ChainRuns {
  import opened Prelude
  import opened ChainTypes
  import opened BlockTree
  import opened ChainInvariants
  import opened ChainWalks
  import opened ForkChoice
  import opened Marking
  import opened Accepting
  import opened Invalidation
  import opened ChainStates
  import opened StoreOps

  datatype Step =
    | Accept(header: Header)
    | Connect(block: Block, checksPass: bool)
    | Invalidate(hash: BlockHash)
    | Switch(hash: BlockHash)

  /** Calls outside the guarantees: a header hashing to the parent of genesis, a block whose header differs
      from the stored one of the same hash, connecting the validated block a second time, and invalidating a
      block whose parent is not active or that is not above the validated ones. */
  predicate Excluded(p: Params, s: Store, b: BestChain, step: Step) {
    match step
    case Accept(header) =>
      header.hash == p.genesis.prev
    case Connect(block, _) =>
      block.header.hash == b.validationIndex ||
      (block.header.hash in s.headers && s.headers[block.header.hash].header != block.header)
    case Invalidate(hash) =>
      hash in s.headers && s.headers[hash].Height().Some? && (hash == p.genesis.hash || !Guard(s, b, hash))
    case Switch(_) =>
      false
  }

  /** The parent is active and the block is above the validated ones, as far as the store tells. */
  predicate Guard(s: Store, b: BestChain, x: BlockHash)
    requires x in s.headers && s.headers[x].Height().Some?
  {
    && s.headers[x].header.prev in s.headers && s.headers[s.headers[x].header.prev].MainChain()
    && b.validationIndex in s.headers && s.headers[b.validationIndex].Height().Some?
    && s.headers[x].height > s.headers[b.validationIndex].height
  }

  /** That is exactly what the guarantee needs of the tree. */
  lemma GuardMeaning(g: Header, t: Tree, s: Store, b: BestChain, x: BlockHash)
    requires Coherent(g, t, s, b) && x in s.headers && x != g.hash && s.headers[x].Height().Some?
    ensures x in t
    ensures Guard(s, b, x) <==> OnChain(g, t, b.bestBlock, Parent(t, x)) && t[x].height > t[b.validationIndex].height
  {
    StatusBacked(g, t, s.headers, b.bestBlock, t[b.validationIndex].height);
    StoredNode(g, t, s.headers, x);
    StoredNode(g, t, s.headers, b.validationIndex);
    assert StateAt(g, t, b.bestBlock, t[b.validationIndex].height, Parent(t, x), s.headers[Parent(t, x)]);
    assert StateAt(g, t, b.bestBlock, t[b.validationIndex].height, b.validationIndex, s.headers[b.validationIndex]);
  }

  // ---------- what a call does ----------

  /** All of a chain state, ghost parts included. */
  datatype State = State(tree: Tree, store: Store, best: BestChain, acc: Stump, blocks: Blocks)

  ghost function Now(c: ChainState): State
    reads c
  {
    State(c.tree, c.store, c.best, c.acc, c.blocks)
  }

  /** The store describes one active chain, the accumulator is the fold of its connected blocks, and those of all
      validated heights are saved. */
  ghost predicate Good(p: Params, s: State) {
    && Coherent(p.genesis, s.tree, s.store, s.best) && BitsOk(p, s.tree)
    && AccMatches(p, s.tree, s.store, s.best, s.blocks, s.acc) && RootsFull(s.tree, s.store, s.best)
  }

  datatype Outcome = Skipped | Refused | Done

  /** A known header changes nothing. An unknown one is accepted exactly when it is acceptable, as far as the index can
      tell its target, and joins the tree; a refused one changes nothing. */
  ghost predicate HeaderTaken(p: Params, s: State, h: Header, ok: bool, s': State) {
    match Get(s.tree, h.hash)
    case Some(_) => ok && s' == s
    case None =>
      && (Decidable(p, s.tree, s.store, s.best, h) ==> (ok <==> Acceptable(p, s.tree, s.store, s.best, h)))
      && if ok then
           && Accepted(p, s.tree, s.store, s.best, s.acc, h, s.blocks, s'.store, s'.best, s'.acc)
           && s'.tree == Extend(s.tree, h) && s'.blocks == s.blocks
         else s' == s
  }

  /** A block is connected exactly when it is next, passes its checks and can be applied to the accumulator. */
  ghost predicate BlockConnected(p: Params, s: State, block: Block, checksPass: bool, ok: bool, s': State)
    requires Coherent(p.genesis, s.tree, s.store, s.best)
  {
    var x := block.header.hash;
    && (ok <==> checksPass && x in s.tree && CanConnect(s.tree, s.store, s.best, x) &&
                p.updateAcc(s.acc, block, s.tree[x].height).Some?)
    && if ok then
         && s'.tree == s.tree && s'.blocks == s.blocks[x := block]
         && s'.best == s.best.(validationIndex := x)
         && p.updateAcc(s.acc, block, s.tree[x].height) == Some(s'.acc)
         && s'.store ==
            s.store.SaveHeader(FullyValid(block.header, s.tree[x].height)).SaveRoots(s'.acc, s.tree[x].height)
       else s' == s
  }

  /** A known block that is not invalid yet is taken off the chain with all above it. */
  ghost predicate BlockInvalidated(p: Params, s: State, x: BlockHash, ok: bool, s': State)
    requires Coherent(p.genesis, s.tree, s.store, s.best)
  {
    && (ok <==> x in s.tree && s.store.headers[x].Height().Some?)
    && if ok then
         && x != p.genesis.hash && s.tree[x].height >= 1
         && s'.tree == s.tree && s'.acc == s.acc && s'.blocks == s.blocks
         && s'.best == s.best.(bestBlock := Parent(s.tree, x), depth := s.tree[x].height - 1)
         && s'.store.slots == s.store.slots
         && InvalidatedTo(p.genesis, s.tree, s.store.headers, s'.store.headers, s.best.bestBlock, s.tree[x].height,
                          s.best.depth + 1)
       else s' == s
  }

  /** A known branch becomes the active one exactly when it leaves the chain above genesis. */
  ghost predicate ChainSwitched(p: Params, s: State, x: BlockHash, ok: bool, s': State)
    requires Coherent(p.genesis, s.tree, s.store, s.best)
  {
    && (ok <==> x in s.tree && HasForkPoint(p.genesis, s.tree, s.store.headers, x))
    && if ok then
         && s'.tree == s.tree && s'.blocks == s.blocks
         && exists f :: Reorged(p.genesis, s.tree, s.store, s.best, x, f, s'.store, s'.best)
       else s' == s
  }

  /** What one step of a run does. */
  ghost predicate Happened(p: Params, s: State, step: Step, o: Outcome, s': State)
    requires Coherent(p.genesis, s.tree, s.store, s.best)
  {
    if Excluded(p, s.store, s.best, step) then o == Skipped && s' == s && !step.Switch?
    else
      && o != Skipped
      && match step
         case Accept(header) => HeaderTaken(p, s, header, o == Done, s')
         case Connect(block, checksPass) => BlockConnected(p, s, block, checksPass, o == Done, s')
         case Invalidate(hash) => BlockInvalidated(p, s, hash, o == Done, s')
         case Switch(hash) => ChainSwitched(p, s, hash, o == Done, s')
  }

  ghost predicate Fine(c: ChainState)
    reads c
  {
    c.Valid() && c.AccAgrees() && c.Restorable()
  }

  method TakeHeader(c: ChainState, header: Header) returns (o: Outcome, ops: seq<Op>)
    requires Fine(c) && header.hash != c.p.genesis.prev
    modifies c
    ensures Fine(c) && Traced(c.p.genesis, old(c.store), c.store, ops)
    ensures o != Skipped && HeaderTaken(c.p, old(Now(c)), header, o == Done, Now(c))
    ensures !c.p.allowMinDifficulty && old(c.MostWork()) ==> c.MostWork()
  {
    var r, writes := c.AcceptHeader(header);
    o, ops := if r.Ok? then Done else Refused, writes;
  }

  method TakeBlock(c: ChainState, block: Block, checksPass: bool) returns (o: Outcome, ops: seq<Op>)
    requires Fine(c) && !Excluded(c.p, c.store, c.best, Connect(block, checksPass))
    modifies c
    ensures Fine(c) && Traced(c.p.genesis, old(c.store), c.store, ops)
    ensures o != Skipped && BlockConnected(c.p, old(Now(c)), block, checksPass, o == Done, Now(c))
  {
    StatusBacked(c.p.genesis, c.tree, c.store.headers, c.best.bestBlock, c.tree[c.best.validationIndex].height);
    if block.header.hash in c.store.headers {
      StoredNode(c.p.genesis, c.tree, c.store.headers, block.header.hash);
    }
    var r, writes := c.ConnectBlock(block, checksPass);
    o, ops := if r.Ok? then Done else Refused, writes;
  }

  method TakeGuarded(c: ChainState, hash: BlockHash) returns (o: Outcome, ops: seq<Op>)
    requires Fine(c) && hash in c.tree && hash != c.p.genesis.hash && c.store.headers[hash].Height().Some?
    requires OnChain(c.p.genesis, c.tree, c.best.bestBlock, Parent(c.tree, hash))
    requires c.tree[hash].height > c.tree[c.best.validationIndex].height
    modifies c
    ensures Fine(c) && Traced(c.p.genesis, old(c.store), c.store, ops)
    ensures o == Done && BlockInvalidated(c.p, old(Now(c)), hash, true, Now(c))
  {
    var r, writes := c.InvalidateBlock(hash);
    o, ops := if r.Ok? then Done else Refused, writes;
  }

  method TakeInvalid(c: ChainState, hash: BlockHash) returns (o: Outcome, ops: seq<Op>)
    requires Fine(c) && !Excluded(c.p, c.store, c.best, Invalidate(hash))
    modifies c
    ensures Fine(c) && Traced(c.p.genesis, old(c.store), c.store, ops)
    ensures o != Skipped && BlockInvalidated(c.p, old(Now(c)), hash, o == Done, Now(c))
  {
    if hash in c.store.headers && c.store.headers[hash].Height().Some? {
      GuardMeaning(c.p.genesis, c.tree, c.store, c.best, hash);
      o, ops := TakeGuarded(c, hash);
    } else {
      GenesisActive(c.p.genesis, c.tree, c.store, c.best);
      var r, writes := c.InvalidateBlock(hash);
      o, ops := if r.Ok? then Done else Refused, writes;
    }
  }

  method TakeSwitch(c: ChainState, hash: BlockHash) returns (o: Outcome, ops: seq<Op>)
    requires Fine(c)
    modifies c
    ensures Fine(c) && Traced(c.p.genesis, old(c.store), c.store, ops)
    ensures o != Skipped && ChainSwitched(c.p, old(Now(c)), hash, o == Done, Now(c))
  {
    var r, f, writes := c.SwitchChain(hash);
    o, ops := if r.Ok? then Done else Refused, writes;
  }

  /** One call, or none if it is excluded, keeps the chain coherent and the accumulator right, and does exactly what the
      state before it calls for. */
  method Take(c: ChainState, step: Step) returns (o: Outcome, ops: seq<Op>)
    requires Fine(c)
    modifies c
    ensures Fine(c) && Traced(c.p.genesis, old(c.store), c.store, ops)
    ensures Happened(c.p, old(Now(c)), step, o, Now(c))
  {
    if Excluded(c.p, c.store, c.best, step) {
      return Skipped, [];
    }
    match step {
      case Accept(header) =>
        o, ops := TakeHeader(c, header);
      case Connect(block, checksPass) =>
        o, ops := TakeBlock(c, block, checksPass);
      case Invalidate(hash) =>
        o, ops := TakeInvalid(c, hash);
      case Switch(hash) =>
        o, ops := TakeSwitch(c, hash);
    }
  }

  // ---------- any run ----------

  /** A chain of one block. */
  ghost function First(p: Params): State {
    State(map[p.genesis.hash := Node(p.genesis, 0)], NewStore(p.genesis),
          BestChain(p.genesis.hash, 0, p.genesis.hash, []), EMPTY_STUMP, map[])
  }

  ghost predicate StepOk(p: Params, steps: seq<Step>, outcomes: seq<Outcome>, states: seq<State>, k: nat)
    requires k < |steps| && k < |outcomes| && k + 1 < |states|
  {
    Good(p, states[k]) && Happened(p, states[k], steps[k], outcomes[k], states[k + 1])
  }

  /** The states a run goes through: good at all times, from genesis on, each the result of its step. */
  ghost predicate Ran(p: Params, steps: seq<Step>, n: nat, outcomes: seq<Outcome>, states: seq<State>) {
    && n <= |steps| && |outcomes| == n && |states| == n + 1
    && states[0] == First(p) && Good(p, states[n])
    && forall k: nat {:trigger StepOk(p, steps, outcomes, states, k)} :: k < n ==> StepOk(p, steps, outcomes, states, k)
  }

  lemma RanOn(p: Params, steps: seq<Step>, n: nat, outcomes: seq<Outcome>, states: seq<State>, o: Outcome, s: State)
    requires Ran(p, steps, n, outcomes, states) && n < |steps|
    requires Happened(p, states[n], steps[n], o, s) && Good(p, s)
    ensures Ran(p, steps, n + 1, outcomes + [o], states + [s])
  {
    var outcomes', states' := outcomes + [o], states + [s];
    forall k: nat | k < n + 1
      ensures StepOk(p, steps, outcomes', states', k)
    {
      assert k < n ==> StepOk(p, steps, outcomes, states, k);
    }
  }

  /** From genesis, through any calls in any order, skipping only the excluded ones: every call does what the state
      before it calls for, and at all times the store describes one active chain, validated up to the validation
      index, and the accumulator is the fold of its connected blocks. The store is reached by writes none of which
      loses a header. */
  method AnyRun(params: Params, steps: seq<Step>)
    returns (c: ChainState, outcomes: seq<Outcome>, ghost states: seq<State>, ops: seq<Op>)
    requires params.CompactOk() && params.genesis.hash != params.genesis.prev
    ensures fresh(c) && c.p == params && Fine(c)
    ensures Ran(params, steps, |steps|, outcomes, states) && Now(c) == states[|steps|]
    ensures Traced(params.genesis, NewStore(params.genesis), c.store, ops)
  {
    c := new ChainState(params);
    outcomes, states, ops := [], [Now(c)], [];
    for i := 0 to |steps|
      invariant fresh(c) && c.p == params && Fine(c)
      invariant Ran(params, steps, i, outcomes, states) && Now(c) == states[i]
      invariant Traced(params.genesis, NewStore(params.genesis), c.store, ops)
    {
      ghost var before := c.store;
      var o, writes := Take(c, steps[i]);
      TracedThen(params.genesis, NewStore(params.genesis), before, c.store, ops, writes);
      RanOn(params, steps, i, outcomes, states, o, Now(c));
      outcomes, states, ops := outcomes + [o], states + [Now(c)], ops + writes;
    }
  }

  // ---------- headers only ----------

  /** The hashes of the headers that were accepted. */
  function Taken(headers: seq<Header>, oks: seq<bool>): set<BlockHash>
    requires |oks| == |headers|
  {
    if headers == [] then {}
    else
      var n := |headers| - 1;
      Taken(headers[..n], oks[..n]) + if oks[n] then {headers[n].hash} else {}
  }

  lemma OneTaken(headers: seq<Header>, n: nat, oks: seq<bool>, ok: bool)
    requires n < |headers| && |oks| == n
    ensures Taken(headers[..n + 1], oks + [ok]) == Taken(headers[..n], oks) + if ok then {headers[n].hash} else {}
  {
    assert headers[..n + 1][..n] == headers[..n] && (oks + [ok])[..n] == oks;
  }

  ghost predicate HeaderOk(p: Params, headers: seq<Header>, oks: seq<bool>, states: seq<State>, k: nat)
    requires k < |headers| && k < |oks| && k + 1 < |states|
  {
    if headers[k].hash == p.genesis.prev then !oks[k] && states[k + 1] == states[k]
    else HeaderTaken(p, states[k], headers[k], oks[k], states[k + 1])
  }

  /** The states a run of headers goes through. */
  ghost predicate Headed(p: Params, headers: seq<Header>, n: nat, oks: seq<bool>, states: seq<State>) {
    && n <= |headers| && |oks| == n && |states| == n + 1
    && states[0] == First(p)
    && states[n].tree.Keys == {p.genesis.hash} + Taken(headers[..n], oks)
    && forall k: nat {:trigger HeaderOk(p, headers, oks, states, k)} :: k < n ==> HeaderOk(p, headers, oks, states, k)
  }

  lemma HeadedOn(p: Params, headers: seq<Header>, n: nat, oks: seq<bool>, states: seq<State>, ok: bool, s: State)
    requires Headed(p, headers, n, oks, states) && n < |headers|
    requires if headers[n].hash == p.genesis.prev then !ok && s == states[n]
             else HeaderTaken(p, states[n], headers[n], ok, s)
    ensures Headed(p, headers, n + 1, oks + [ok], states + [s])
  {
    var oks', states' := oks + [ok], states + [s];
    OneTaken(headers, n, oks, ok);
    forall k: nat | k < n + 1
      ensures HeaderOk(p, headers, oks', states', k)
    {
      assert k < n ==> HeaderOk(p, headers, oks, states, k);
    }
  }

  /** From genesis, through any headers, on a network without minimum-difficulty blocks: each is accepted exactly when
      it is acceptable, the tree holds genesis and the accepted ones, and the tip has the most cumulative work of all
      of them. */
  method AnyHeaders(params: Params, headers: seq<Header>)
    returns (c: ChainState, oks: seq<bool>, ghost states: seq<State>)
    requires params.CompactOk() && params.genesis.hash != params.genesis.prev && !params.allowMinDifficulty
    ensures fresh(c) && c.p == params && Fine(c) && c.MostWork()
    ensures Headed(params, headers, |headers|, oks, states) && Now(c) == states[|headers|]
    ensures c.tree.Keys == {params.genesis.hash} + Taken(headers, oks)
  {
    c := new ChainState(params);
    oks, states := [], [Now(c)];
    for i := 0 to |headers|
      invariant fresh(c) && c.p == params && Fine(c) && c.MostWork()
      invariant Headed(params, headers, i, oks, states) && Now(c) == states[i]
    {
      var o := Refused;
      if headers[i].hash != params.genesis.prev {
        var writes;
        o, writes := TakeHeader(c, headers[i]);
      }
      HeadedOn(params, headers, i, oks, states, o == Done, Now(c));
      oks, states := oks + [o == Done], states + [Now(c)];
    }
    assert headers[..|headers|] == headers;
  }
}
