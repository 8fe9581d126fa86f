/**
  The difficulty rules, told from the header tree alone: which bits a valid header
  states in each of the cases, and that they leave no choice.
 */
module TargetRules {
  import opened Prelude
  import opened ChainTypes
  import opened BlockTree
  import opened ChainWalks
  import opened WorkShortcut

  /** Between two retargets a header keeps the target of its parent, on a network without minimum-difficulty blocks. */
  ghost predicate KeepsTarget(p: Params, t: Tree, last: BlockHash, target: nat)
    requires last in t
  {
    target == p.target(t[last].header.bits)
  }

  /** The target is that of the last of `last` and its ancestors, back to the first of the period, that does not state
      the lowest difficulty. */
  ghost predicate ReturnsTo(p: Params, t: Tree, last: BlockHash, target: nat, k: nat)
    requires TreeOk(p.genesis, t) && last in t
  {
    && k <= t[last].height && RegularAt(p, t, last, k) && MinDifficultyAbove(p, t, last, k)
    && target == p.target(t[Anc(p.genesis, t, last, k)].header.bits)
  }

  /** The target is recalculated from both ends of the period that ends with `last`, and no easier than the easiest. */
  ghost predicate Recalculated(p: Params, t: Tree, last: BlockHash, target: nat)
    requires TreeOk(p.genesis, t) && last in t
  {
    && t[last].height >= 2015
    && var next := p.calcNextWork(t[last].header, t[Anc(p.genesis, t, last, t[last].height - 2015)].header);
       target <= next && target <= p.maxTarget && (target == next || target == p.maxTarget)
  }

  /** The rules for a header `next` after `last`. */
  ghost predicate Follows(p: Params, t: Tree, last: BlockHash, next: Header, target: nat)
    requires TreeOk(p.genesis, t) && last in t
  {
    var late := next.time > t[last].header.time + 2 * p.targetSpacing;
    if (t[last].height + 1) % 2016 == 0 then
      if p.noRetargeting then KeepsTarget(p, t, last, target) else Recalculated(p, t, last, target)
    else if !p.allowMinDifficulty then KeepsTarget(p, t, last, target)
    else if late then target == p.maxTarget
    else exists k: nat :: ReturnsTo(p, t, last, target, k)
  }

  lemma {:induction false} LastRegularIs(p: Params, t: Tree, x: BlockHash)
    requires TreeOk(p.genesis, t) && x in t
    ensures var a := LastRegular(p, t, x);
            && OnChain(p.genesis, t, x, a) && RegularAt(p, t, x, t[a].height)
            && MinDifficultyAbove(p, t, x, t[a].height)
    decreases t[x].height
  {
    if !RetargetHeight(t[x].height) && t[x].header.bits == p.compact(p.maxTarget) {
      var y, a := Parent(t, x), LastRegular(p, t, x);
      LastRegularIs(p, t, y);
      forall k: nat | t[a].height < k <= t[x].height
        ensures MinDifficultyAt(p, t, x, k)
      {
        assert k < t[x].height ==> MinDifficultyAt(p, t, y, k);
      }
    }
  }

  /** The required target follows the rules ... */
  lemma RequiredFollows(p: Params, t: Tree, last: BlockHash, next: Header)
    requires TreeOk(p.genesis, t) && last in t
    ensures Follows(p, t, last, next, RequiredTarget(p, t, last, next))
  {
    if !RetargetHeight(t[last].height + 1) {
      LastRegularIs(p, t, last);
      var a := LastRegular(p, t, last);
      assert p.allowMinDifficulty && next.time <= t[last].header.time + 2 * p.targetSpacing ==>
               ReturnsTo(p, t, last, RequiredTarget(p, t, last, next), t[a].height);
    } else {
      FullEpochBefore(t[last].height + 1);
    }
  }

  /** ... which leave no choice. */
  lemma FollowsOnly(p: Params, t: Tree, last: BlockHash, next: Header, a: nat, b: nat)
    requires TreeOk(p.genesis, t) && last in t
    requires Follows(p, t, last, next, a) && Follows(p, t, last, next, b)
    ensures a == b
  {
    if j: nat, k: nat :| ReturnsTo(p, t, last, a, j) && ReturnsTo(p, t, last, b, k) {
      assert j < k ==> MinDifficultyAt(p, t, last, k);
      assert k < j ==> MinDifficultyAt(p, t, last, j);
    }
  }

  /** A header is valid exactly if it has its work, states the canonical bits of a target that follows the rules, and
      passes the checks on time and version. */
  lemma ValidExactly(p: Params, t: Tree, h: Header)
    requires TreeOk(p.genesis, t) && h.prev in t
    ensures HeaderValid(p, t, h) <==>
            && p.powOk(h)
            && (exists target: nat :: Follows(p, t, h.prev, h, target) && h.bits == p.compact(target))
            && ((t[h.prev].height + 1) % 2016 == 0 && p.enforceBip94 ==> p.bip94TimeOk(h, t[h.prev].header))
            && h.version >= p.minVersion(t[h.prev].height + 1)
  {
    var required := RequiredTarget(p, t, h.prev, h);
    RequiredFollows(p, t, h.prev, h);
    forall target: nat | Follows(p, t, h.prev, h, target)
      ensures target == required
    {
      FollowsOnly(p, t, h.prev, h, target, required);
    }
  }

  /** A header in time after a minimum-difficulty one goes back to the difficulty before it: on the example network, one
      at 1900 seconds after the one at 1800 must state the bits of genesis. */
  lemma ReturnExample(h: Header)
    requires h.prev == 2 && h.time == 1900
    ensures var p := ExampleParams();
            var t := map[1 := Node(p.genesis, 0), 2 := Node(Header(2, 1, 1, 1800, 0), 1)];
            TreeOk(p.genesis, t) && (HeaderValid(p, t, h) <==> h.bits == 7 && h.version >= 0)
  {
    var p := ExampleParams();
    var t := map[1 := Node(p.genesis, 0), 2 := Node(Header(2, 1, 1, 1800, 0), 1)];
    assert Parent(t, 2) == 1;
    assert LastRegular(p, t, 2) == 1;
  }
}
