/**
  The chain backend: it accepts headers, follows the branch with the most work,
  validates block by block, invalidates blocks and rebuilds its record from the
  store.
 */
module ChainStates {
  import opened Prelude
  import opened ChainTypes
  import opened BlockTree
  import opened ChainInvariants
  import opened ChainWalks
  import opened ForkChoice
  import opened Marking
  import opened Accepting
  import opened Recovery
  import opened Invalidation
  import opened StoreOps
  import opened WorkShortcut

  class ChainState {
    const p: Params
    var store: Store
    var best: BestChain
    var acc: Stump

    /** Every header accepted so far. */
    ghost var tree: Tree

    /** The block last connected for each header. */
    ghost var blocks: Blocks

    /** The store describes exactly the recorded chain, and all headers passed validation. */
    ghost predicate Valid()
      reads this
    {
      && p.CompactOk()
      && Coherent(p.genesis, tree, store, best)
      && BitsOk(p, tree)
    }

    /** The accumulator is the fold of the connected blocks up to the validation index. */
    ghost predicate AccAgrees()
      reads this
      requires Valid()
    {
      AccMatches(p, tree, store, best, blocks, acc)
    }

    /** The accumulators of all validated heights are saved, so that any reorganisation finds the one it needs. */
    ghost predicate Restorable()
      reads this
    {
      RootsFull(tree, store, best)
    }

    ghost function WorkOf(x: BlockHash): nat
      reads this
      requires TreeOk(p.genesis, tree) && x in tree
    {
      CumWork(p.genesis, p.work, tree, x)
    }

    /** No accepted header has more cumulative work than the tip. */
    ghost predicate MostWork()
      reads this
      requires Valid()
    {
      MostWorkTip(p, tree, best.bestBlock)
    }

    /** A chain of one validated block, genesis. */
    constructor (params: Params)
      requires params.CompactOk() && params.genesis.hash != params.genesis.prev
      ensures p == params && Valid() && AccAgrees() && Restorable() && MostWork() && store == NewStore(params.genesis)
      ensures tree == map[params.genesis.hash := Node(params.genesis, 0)]
      ensures best == BestChain(params.genesis.hash, 0, params.genesis.hash, []) && acc == EMPTY_STUMP &&
              blocks == map[]
    {
      var g := params.genesis;
      p := params;
      store := NewStore(g);
      acc := EMPTY_STUMP;
      best := BestChain(g.hash, 0, g.hash, []);
      tree := map[g.hash := Node(g, 0)];
      blocks := map[];
    }

    // ---------- reorganisation ----------

    /** Makes the branch of a stored header the active one. */
    method SwitchChain(newTip: BlockHash) returns (r: Result<(), Error>, ghost f: BlockHash, ops: seq<Op>)
      requires Valid()
      modifies this`store, this`best, this`acc
      ensures Valid()
      ensures old(AccAgrees()) ==> AccAgrees()
      ensures r.Err? ==> store == old(store) && best == old(best) && acc == old(acc)
      ensures r.Ok? ==> Reorged(p.genesis, tree, old(store), old(best), newTip, f, store, best)
      ensures r.Err? && newTip in tree ==> forall x :: !CanReorg(p.genesis, tree, store, best, newTip, x)
      ensures newTip !in tree ==> r == Err(BlockNotPresent)
      ensures r.Err? && newTip in tree ==> r.error == ReorgFault(p.genesis, tree, store, tree[newTip].header)
      ensures old(Restorable()) ==> Restorable()
      ensures old(Restorable()) && newTip in tree ==>
                (r.Ok? <==> HasForkPoint(p.genesis, tree, old(store).headers, newTip))
      ensures Traced(p.genesis, old(store), store, ops)
    {
      var done;
      var writes;
      done, f, writes := SwitchTo(p, store, best, newTip, tree, blocks, acc);
      ops := [];
      match done {
        case Err(e) =>
          r := Err(e);
        case Ok((newStore, newBest, newAcc)) =>
          store, best, acc, ops := newStore, newBest, newAcc, writes;
          r := Ok(());
      }
    }

    // ---------- recovery ----------

    /** Rebuilds record, states and accumulator from a store that describes the chain of `tip`, validated
        up to height `vi`, whatever the record and the accumulator in memory are. */
    method Reindex(ghost tip: BlockHash, ghost vi: nat) returns (ghost n: nat, ops: seq<Op>)
      requires p.CompactOk() && StoreOk(p.genesis, tree, store, tip, vi) && BitsOk(p, tree)
      modifies this`store, this`best, this`acc
      ensures Valid()
      ensures IsLastRoots(old(store), vi, n)
      ensures best == BestChain(tip, tree[tip].height, Anc(p.genesis, tree, tip, if n > 0 then n else vi), [])
      ensures n == 0 ==> store == old(store) && acc == old(acc)
      ensures n > 0 ==> ActivatedTo(p.genesis, tree, old(store), store, tip, n, vi)
      ensures n > 0 && old(RootsSound(p, tree, store, tip, vi, blocks)) ==> AccAgrees()
      ensures Traced(p.genesis, old(store), store, ops)
    {
      var s', b, acc';
      s', b, acc', n, ops := ReindexChain(p, store, acc, tree, tip, vi, blocks);
      store, best, acc := s', b, acc';
    }

    /** Reindexes only when a pending header lies above the recorded tip. */
    method MaybeReindex(potentialTip: DiskBlockHeader, ghost tip: BlockHash, ghost vi: nat) returns (ghost n: nat)
      requires p.CompactOk() && StoreOk(p.genesis, tree, store, tip, vi) && BitsOk(p, tree)
      modifies this`store, this`best, this`acc
      ensures potentialTip.HeadersOnly? && potentialTip.height > old(best).depth ==>
                && Valid() && IsLastRoots(old(store), vi, n)
                && best == BestChain(tip, tree[tip].height, Anc(p.genesis, tree, tip, if n > 0 then n else vi), [])
                && (n == 0 ==> store == old(store) && acc == old(acc))
                && (n > 0 ==> ActivatedTo(p.genesis, tree, old(store), store, tip, n, vi))
                && (n > 0 && old(RootsSound(p, tree, store, tip, vi, blocks)) ==> AccAgrees())
      ensures !(potentialTip.HeadersOnly? && potentialTip.height > old(best).depth) ==>
                store == old(store) && best == old(best) && acc == old(acc)
    {
      n := 0;
      if potentialTip.HeadersOnly? && potentialTip.height > best.depth {
        var writes;
        n, writes := Reindex(tip, vi);
      }
    }

    // ---------- headers ----------

    /** A header that is already stored never calls for a reindex. */
    method AcceptKnown(hash: BlockHash)
      requires Valid() && hash in store.headers
      modifies this`store, this`best, this`acc
      ensures hash in tree && store == old(store) && best == old(best) && acc == old(acc)
    {
      PendingBelowTip(p.genesis, tree, store, best, hash);
      var _ := MaybeReindex(store.headers[hash], best.bestBlock, tree[best.validationIndex].height);
    }

    method AcceptUnknown(header: Header) returns (r: Result<(), Error>, ops: seq<Op>)
      requires Valid() && header.hash != p.genesis.prev && header.hash !in tree
      modifies this`store, this`best, this`acc, this`tree
      ensures r.Err? ==> store == old(store) && best == old(best) && acc == old(acc) && tree == old(tree)
      ensures r.Err? ==> r.error == Refusal(p, old(tree), old(store), old(best), header)
      ensures header.prev == old(best).bestBlock ==> (r.Ok? <==> HeaderValid(p, old(tree), header))
      ensures old(Restorable()) && Decidable(p, old(tree), old(store), old(best), header) ==>
                (r.Ok? <==> Acceptable(p, old(tree), old(store), old(best), header))
      ensures r.Ok? ==> Accepted(p, old(tree), old(store), old(best), old(acc), header, blocks, store, best, acc)
      ensures r.Ok? ==> tree == Extend(old(tree), header)
      ensures Traced(p.genesis, old(store), store, ops)
    {
      var accepted, writes := AcceptNew(p, store, best, acc, header, tree, blocks);
      ops := [];
      match accepted {
        case Err(e) =>
          r := Err(e);
        case Ok((newStore, newBest, newAcc)) =>
          store, best, acc, ops := newStore, newBest, newAcc, writes;
          tree := Extend(tree, header);
          r := Ok(());
      }
    }

    /** Accepts a header. A refused header changes nothing; an accepted one joins the tree. On the tip validity decides;
        elsewhere, with all accumulators kept, also whether the branch leaves the chain above genesis and the work fits
        256 bits, so that a branch that leaves at genesis is refused. The tip moves only to a header that extends it or
        whose branch has more work, if every block of the old chain has the work of the first of its period. On
        networks without minimum-difficulty blocks that is always so: the tip keeps the most work, and ties keep the
        earlier tip. No write to the store loses a header. */
    method AcceptHeader(header: Header) returns (r: Result<(), Error>, ops: seq<Op>)
      requires Valid() && header.hash != p.genesis.prev
      modifies this`store, this`best, this`acc, this`tree
      ensures Valid()
      ensures old(AccAgrees()) ==> AccAgrees()
      ensures old(Restorable()) ==> Restorable()
      ensures r.Err? || header.hash in old(tree) ==>
                store == old(store) && best == old(best) && acc == old(acc) && tree == old(tree)
      ensures header.hash in old(tree) ==> r.Ok?
      ensures r.Err? ==> r.error == Refusal(p, old(tree), old(store), old(best), header)
      ensures header.hash !in old(tree) && header.prev == old(best).bestBlock ==>
                (r.Ok? <==> HeaderValid(p, old(tree), header))
      ensures header.hash !in old(tree) && old(Restorable()) &&
              Decidable(p, old(tree), old(store), old(best), header) ==>
                (r.Ok? <==> Acceptable(p, old(tree), old(store), old(best), header))
      ensures header.hash !in old(tree) && header.prev in old(tree) && header.prev != old(best).bestBlock &&
              LeavesAtGenesis(p.genesis, Extend(old(tree), header), old(store).headers, header.hash) ==>
                r.Err?
      ensures r.Ok? && header.hash !in old(tree) ==>
                && header.prev in old(tree) && tree == Extend(old(tree), header)
                && TookWay(p.genesis, old(tree), old(store), old(best), old(acc), header, store, best, acc)
      ensures r.Ok? && header.hash !in old(tree) && SameWorkBelow(p, tree, old(best).bestBlock) ==>
                TipChoice(p, tree, old(best), header, best)
      ensures r.Ok? && header.hash !in old(tree) && header.prev != old(best).bestBlock ==>
                HasForkPoint(p.genesis, tree, old(store).headers, header.hash)
      ensures r.Ok? && header.hash !in old(tree) && !p.allowMinDifficulty ==>
                TipChoice(p, tree, old(best), header, best)
      ensures !p.allowMinDifficulty && old(MostWork()) ==> MostWork()
      ensures !p.allowMinDifficulty ==> WorkOf(best.bestBlock) >= old(WorkOf(best.bestBlock))
      ensures Traced(p.genesis, old(store), store, ops)
    {
      ops := [];
      if header.hash in store.headers {
        AcceptKnown(header.hash);
        r := Ok(());
      } else {
        r, ops := AcceptUnknown(header);
        if r.Ok? && !p.allowMinDifficulty {
          AcceptedByWork(p, old(tree), old(store), old(best), old(acc), header, blocks, store, best, acc);
        }
        if r.Ok? && header.prev != old(best).bestBlock &&
           LeavesAtGenesis(p.genesis, tree, old(store).headers, header.hash) {
          GenesisBranch(p, old(tree), old(store), old(best), old(acc), header, blocks, store, best, acc);
        }
      }
    }

    // ---------- blocks ----------

    /** Height of the last validated block, which must be stored as validated. */
    function GetValidationIndex(): Result<nat, Error>
      reads this
    {
      if best.validationIndex !in store.headers then Err(BlockNotPresent)
      else if store.headers[best.validationIndex].FullyValid? then Ok(store.headers[best.validationIndex].height)
      else Err(BadValidationIndex)
    }

    /** The error for a block that cannot be connected now: it is unknown, active at another height, or not active. */
    ghost function ConnectFault(s: Store, hash: BlockHash): Error {
      if hash !in s.headers then BlockNotPresent
      else if s.headers[hash].FullyValid? || s.headers[hash].HeadersOnly? then BlockDoesntExtendTip
      else BlockExtendsAnOrphanChain
    }

    /** The height at which a block may be connected now. */
    method ConnectHeight(hash: BlockHash) returns (r: Result<nat, Error>)
      requires Valid()
      ensures r.Ok? <==> hash in tree && CanConnect(tree, store, best, hash)
      ensures r.Ok? ==> r.value == tree[hash].height
      ensures r.Ok? ==>
                store.headers[hash] ==
                if hash == best.validationIndex then FullyValid(tree[hash].header, r.value)
                else HeadersOnly(tree[hash].header, r.value)
      ensures r.Err? ==> r.error == ConnectFault(store, hash)
    {
      if hash !in store.headers {
        return Err(BlockNotPresent);
      }
      ghost var vi := tree[best.validationIndex].height;
      assert StateAt(p.genesis, tree, best.bestBlock, vi, hash, store.headers[hash]);
      assert StateAt(p.genesis, tree, best.bestBlock, vi, best.validationIndex, store.headers[best.validationIndex]);
      var validated := GetValidationIndex();
      match store.headers[hash] {
        case FullyValid(_, height) =>
          if height != validated.value {
            return Err(BlockDoesntExtendTip);
          }
          return Ok(height);
        case HeadersOnly(_, height) =>
          if height != validated.value + 1 {
            return Err(BlockDoesntExtendTip);
          }
          return Ok(height);
        case _ =>
          return Err(BlockExtendsAnOrphanChain);
      }
    }

    /** Connects a block, whose own checks gave `checksPass`. Connecting the next pending block advances the
        validation index and keeps accumulator agreement. Connecting the validated block itself a second
        time applies it to the accumulator again: agreement survives exactly if that changes nothing. */
    method ConnectBlock(block: Block, checksPass: bool) returns (r: Result<nat, Error>, ops: seq<Op>)
      requires Valid()
      requires block.header.hash in tree ==> tree[block.header.hash].header == block.header
      modifies this`store, this`best, this`acc, this`blocks
      ensures Valid()
      ensures r.Err? ==> store == old(store) && best == old(best) && acc == old(acc) && blocks == old(blocks)
      ensures r.Ok? <==>
                && checksPass && block.header.hash in tree && CanConnect(tree, old(store), old(best), block.header.hash)
                && p.updateAcc(old(acc), block, tree[block.header.hash].height).Some?
      ensures r.Err? ==>
                r.error == if block.header.hash in tree && CanConnect(tree, store, best, block.header.hash)
                           then InvalidBlock else ConnectFault(store, block.header.hash)
      ensures r.Ok? ==> r.value == tree[block.header.hash].height
      ensures r.Ok? ==> p.updateAcc(old(acc), block, r.value) == Some(acc)
      ensures r.Ok? ==> best == old(best).(validationIndex := block.header.hash)
      ensures r.Ok? ==> store == old(store).SaveHeader(FullyValid(block.header, r.value)).SaveRoots(acc, r.value)
      ensures r.Ok? && block.header.hash != old(best).validationIndex ==>
                r.value == tree[old(best).validationIndex].height + 1 &&
                blocks == old(blocks)[block.header.hash := block]
      ensures r.Ok? && block.header.hash != old(best).validationIndex && old(AccAgrees()) ==> AccAgrees()
      ensures r.Ok? && block.header.hash == old(best).validationIndex && old(AccAgrees()) ==>
                (AccAgrees() <==> acc == old(acc))
      ensures old(Restorable()) ==> Restorable()
      ensures Traced(p.genesis, old(store), store, ops)
    {
      ops := [];
      var at := ConnectHeight(block.header.hash);
      if at.Err? {
        r := Err(at.error);
      } else {
        var updated := p.updateAcc(acc, block, at.value);
        if updated.None? || !checksPass {
          r := Err(InvalidBlock);
        } else {
          ops := UpdateView(at.value, block, updated.value);
          r := at;
        }
      }
    }

    /** Records a validated block: its state, its accumulator and the validation index. */
    method UpdateView(height: nat, block: Block, newAcc: Stump) returns (ops: seq<Op>)
      requires Valid() && block.header.hash in tree && tree[block.header.hash].header == block.header
      requires height == tree[block.header.hash].height && CanConnect(tree, store, best, block.header.hash)
      requires p.updateAcc(acc, block, height) == Some(newAcc)
      modifies this`store, this`best, this`acc, this`blocks
      ensures Valid()
      ensures acc == newAcc && best == old(best).(validationIndex := block.header.hash)
      ensures store == Connected(old(store), block.header, height, newAcc)
      ensures block.header.hash != old(best).validationIndex ==>
                blocks == old(blocks)[block.header.hash := block] && (old(AccAgrees()) ==> AccAgrees())
      ensures block.header.hash == old(best).validationIndex && old(AccAgrees()) ==> (AccAgrees() <==> acc == old(acc))
      ensures old(Restorable()) ==> Restorable()
      ensures Traced(p.genesis, old(store), store, ops)
    {
      var hash := block.header.hash;
      var s' := store.SaveHeader(FullyValid(block.header, height)).UpdateBlockIndex(height, hash);
      s' := s'.SaveRoots(newAcc, height);
      var b' := best.(validationIndex := hash);
      ghost var blocks' := if hash == best.validationIndex then blocks else blocks[hash := block];
      ConnectOutcome(p, tree, store, best, block, blocks, acc, newAcc, height, s', b', blocks');
      ConnectWrites(p, tree, store, best, block, newAcc, height);
      if Restorable() {
        ConnectRootsKept(p.genesis, tree, store, best, block.header, newAcc, height);
      }
      ops := [Place(FullyValid(block.header, height)), Roots(newAcc, height)];
      store, best, acc, blocks := s', b', newAcc, blocks';
    }

    /** Marks the active chain from the height of `block` up as invalid and makes its parent the tip. What is
        left is a coherent chain exactly when the parent is active and the block lies above the validated
        ones; the block itself is marked only if it was active. */
    method InvalidateBlock(block: BlockHash) returns (r: Result<(), Error>, ops: seq<Op>)
      requires Valid()
      modifies this`store, this`best
      ensures block !in tree ==> r == Err(BlockNotPresent)
      ensures block in tree && old(store).headers[block].Height().None? ==> r == Err(OrphanOrInvalidBlock)
      ensures block !in tree || old(store).headers[block].Height().None? ==> store == old(store) && best == old(best)
      // genesis: the whole chain is marked before the missing parent is noticed
      ensures block == p.genesis.hash ==>
                && r == Err(BlockNotPresent) && best == old(best) && store.slots == old(store).slots && !Valid()
                && InvalidatedTo(p.genesis, tree, old(store).headers, store.headers, old(best).bestBlock, 0,
                                 old(best).depth + 1)
      ensures block in tree && block != p.genesis.hash && old(store).headers[block].Height().Some? ==>
                && r.Ok?
                && tree[block].height >= 1
                && store.slots == old(store).slots
                && InvalidatedTo(p.genesis, tree, old(store).headers, store.headers, old(best).bestBlock,
                                 tree[block].height, old(best).depth + 1)
                && best == old(best).(bestBlock := Parent(tree, block), depth := tree[block].height - 1)
                && (Valid() <==> OnChain(p.genesis, tree, old(best).bestBlock, Parent(tree, block)) &&
                                 tree[block].height > tree[old(best).validationIndex].height)
                && (Valid() && old(AccAgrees()) ==> AccAgrees())
                && (Valid() && old(Restorable()) ==> Restorable())
      ensures block != p.genesis.hash ==> Traced(p.genesis, old(store), store, ops)
    {
      ops := [];
      GenesisActive(p.genesis, tree, store, best);
      if block !in store.headers {
        return Err(BlockNotPresent), ops;
      }
      if store.headers[block].Height().None? {
        return Err(OrphanOrInvalidBlock), ops;
      }
      var shortened;
      store, shortened, ops := InvalidateFrom(p, store, best, block, tree, blocks, acc);
      match shortened {
        case Err(e) =>
          r := Err(e);
        case Ok(b) =>
          best := b;
          r := Ok(());
      }
    }
  }
}
