/**
  Linear probing without deletion: where a key sits, where a search for it stops,
  and why a search in a table with room left always stops.
 */
module ProbeTable {
  import opened Prelude
  import opened ChainTypes

  /** What each bucket holds: a key, or nothing. */
  type Keys = seq<Option<BlockHash>>

  /** The bucket a probe that starts at `home` reaches after `i` steps, within one turn of the table. */
  function Pos(home: nat, i: nat, cap: nat): nat
    requires home < cap
  {
    if home + i < cap then home + i else if home + i < cap + cap then home + i - cap else 0
  }

  function Steps(home: nat, b: nat, cap: nat): nat
    requires home < cap && b < cap
  {
    if home <= b then b - home else b + cap - home
  }

  function At(ks: Keys, home: nat, i: nat): Option<BlockHash>
    requires home < |ks|
  {
    ks[Pos(home, i, |ks|)]
  }

  /** The first `n` buckets of the probe hold keys. */
  ghost predicate Path(ks: Keys, home: nat, n: nat)
    requires home < |ks|
  {
    forall i: nat {:trigger At(ks, home, i)} :: i < n ==> At(ks, home, i).Some?
  }

  ghost predicate HomeOk(home: BlockHash -> nat, cap: nat) {
    cap > 0 && forall k :: home(k) < cap
  }

  /** A bucket's key is registered there, and a probe for it meets no gap on the way. */
  ghost predicate Placed(ks: Keys, home: BlockHash -> nat, at: map<BlockHash, nat>, b: nat)
    requires HomeOk(home, |ks|)
  {
    b < |ks| && ks[b].Some? ==>
      && ks[b].value in at && at[ks[b].value] == b
      && Path(ks, home(ks[b].value), Steps(home(ks[b].value), b, |ks|))
  }

  ghost predicate Registered(ks: Keys, at: map<BlockHash, nat>, k: BlockHash) {
    k in at ==> at[k] < |ks| && ks[at[k]] == Some(k)
  }

  /** `at` says in which bucket each key sits. */
  ghost predicate TableOk(ks: Keys, home: BlockHash -> nat, at: map<BlockHash, nat>) {
    && HomeOk(home, |ks|)
    && (forall b {:trigger Placed(ks, home, at, b)} :: 0 <= b ==> Placed(ks, home, at, b))
    && (forall k {:trigger Registered(ks, at, k)} :: Registered(ks, at, k))
  }

  /** A search for `k` passes other keys for `i` steps and stops at `k` or at an empty bucket. */
  ghost predicate Stops(ks: Keys, home: nat, k: BlockHash, i: nat)
    requires home < |ks|
  {
    && i < |ks|
    && Path(ks, home, i)
    && (forall j: nat {:trigger At(ks, home, j)} :: j < i ==> At(ks, home, j) != Some(k))
    && (At(ks, home, i) == None || At(ks, home, i) == Some(k))
  }

  /** The bucket where a search stops. */
  ghost predicate StopsAt(ks: Keys, home: nat, k: BlockHash, b: nat)
    requires home < |ks|
  {
    exists i: nat {:trigger Pos(home, i, |ks|)} :: Stops(ks, home, k, i) && Pos(home, i, |ks|) == b
  }

  /** A key in the table is found, and an empty bucket is reached only by a key that is not. */
  lemma SearchDecides(ks: Keys, home: BlockHash -> nat, at: map<BlockHash, nat>, k: BlockHash, b: nat)
    requires TableOk(ks, home, at) && StopsAt(ks, home(k), k, b)
    ensures b < |ks|
    ensures k in at ==> at[k] == b && ks[b] == Some(k)
    ensures k !in at ==> ks[b] == None
  {
    var i: nat :| Stops(ks, home(k), k, i) && Pos(home(k), i, |ks|) == b;
    assert Placed(ks, home, at, b);
    if k in at {
      assert Registered(ks, at, k) && Placed(ks, home, at, at[k]);
      var d := Steps(home(k), at[k], |ks|);
      assert At(ks, home(k), d) == Some(k);
      var stop := At(ks, home(k), i);
    }
  }

  lemma InsertKeeps(ks: Keys, home: BlockHash -> nat, at: map<BlockHash, nat>, k: BlockHash, b: nat)
    requires TableOk(ks, home, at) && StopsAt(ks, home(k), k, b) && k !in at
    ensures b < |ks| && TableOk(ks[b := Some(k)], home, at[k := b])
  {
    SearchDecides(ks, home, at, k, b);
    var ks', at' := ks[b := Some(k)], at[k := b];
    var i: nat :| Stops(ks, home(k), k, i) && Pos(home(k), i, |ks|) == b;
    forall c | 0 <= c
      ensures Placed(ks', home, at', c)
    {
      assert Placed(ks, home, at, c);
      if c < |ks| && ks'[c].Some? {
        var x := ks'[c].value;
        forall j: nat | j < Steps(home(x), c, |ks|)
          ensures At(ks', home(x), j).Some?
        {
          assert c != b ==> At(ks, home(x), j).Some?;
          assert c == b ==> At(ks, home(k), j).Some?;
        }
      }
    }
    forall x
      ensures Registered(ks', at', x)
    {
      assert Registered(ks, at, x);
    }
  }

  // ---------- room ----------

  /** The keys that sit below bucket `n`. */
  ghost function Below(at: map<BlockHash, nat>, n: nat): set<BlockHash> {
    set k | k in at && at[k] < n
  }

  lemma {:induction false} FullBelow(ks: Keys, home: BlockHash -> nat, at: map<BlockHash, nat>, n: nat)
    requires TableOk(ks, home, at) && n <= |ks| && forall b :: 0 <= b < n ==> ks[b].Some?
    ensures |Below(at, n)| == n
  {
    if n > 0 {
      FullBelow(ks, home, at, n - 1);
      var k := ks[n - 1].value;
      assert Placed(ks, home, at, n - 1);
      forall x | x in Below(at, n)
        ensures x in Below(at, n - 1) + {k}
      {
        assert Registered(ks, at, x);
      }
      assert Below(at, n) == Below(at, n - 1) + {k};
    } else {
      assert Below(at, 0) == {};
    }
  }

  /** A probe that went all the way round passed every bucket, so the table is full. */
  lemma FullCycle(ks: Keys, home: BlockHash -> nat, at: map<BlockHash, nat>, start: nat)
    requires TableOk(ks, home, at) && start < |ks| && Path(ks, start, |ks|)
    ensures |at| >= |ks|
  {
    forall b | 0 <= b < |ks|
      ensures ks[b].Some?
    {
      assert At(ks, start, Steps(start, b, |ks|)) == ks[b];
    }
    FullBelow(ks, home, at, |ks|);
    assert Below(at, |ks|) <= at.Keys;
    SubsetSize(Below(at, |ks|), at.Keys);
    assert |at.Keys| == |at|;
  }

  lemma {:induction false} SubsetSize(a: set<BlockHash>, b: set<BlockHash>)
    requires a <= b
    ensures |a| <= |b|
  {
    if a != {} {
      var x :| x in a;
      SubsetSize(a - {x}, b - {x});
    }
  }
}
