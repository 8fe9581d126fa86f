/**
  Deriving scripts from output descriptors, in blocks of consecutive indexes, and
  the horizon below which every index of a stored descriptor is watched.
 */
module WalletDerivation {
  import opened Prelude
  import opened WalletScan

  type Descriptor = nat

  const DERIVATION_COUNT: nat := 100
  const GAP_LIMIT: nat := 20
  const INDEX_INITIAL: nat := 0

  /** Descriptor parsing and key derivation. */
  datatype Deriver = Deriver(
    spkHash: SpkHash,
    // has the descriptor a wildcard; none when it does not parse
    wildcard: Descriptor -> Option<bool>,
    // how many single descriptors it splits into; none when it cannot be split
    paths: Descriptor -> Option<nat>,
    // script of one path at one index; none when that index cannot be derived
    script: (Descriptor, nat, nat) -> Option<Script>)

  ghost predicate CanDerive(dv: Deriver, d: Descriptor, start: nat, count: nat) {
    && dv.paths(d).Some?
    && forall p: nat, i: nat :: p < dv.paths(d).value && start <= i < start + count ==> dv.script(d, p, i).Some?
  }

  // ---------- blocks of scripts ----------

  /** One path yields `count` scripts in index order. */
  ghost predicate IsBlock(dv: Deriver, d: Descriptor, p: nat, start: nat, scripts: seq<Script>) {
    forall i :: 0 <= i < |scripts| ==> dv.script(d, p, start + i) == Some(scripts[i])
  }

  /** The scripts of all paths, one block of `count` after the other. */
  ghost predicate AreBlocks(dv: Deriver, d: Descriptor, n: nat, start: nat, count: nat, scripts: seq<Script>)
    decreases n
  {
    if n == 0 then scripts == []
    else
      && count <= |scripts|
      && AreBlocks(dv, d, n - 1, start, count, scripts[..|scripts| - count])
      && IsBlock(dv, d, n - 1, start, scripts[|scripts| - count..])
  }

  method DeriveFromParsed(dv: Deriver, d: Descriptor, p: nat, index: nat, quantity: nat)
    returns (r: Option<seq<Script>>)
    ensures r.Some? ==> |r.value| == quantity && IsBlock(dv, d, p, index, r.value)
    ensures r.None? ==> exists i: nat :: index <= i < index + quantity && dv.script(d, p, i).None?
  {
    var addresses := [];
    for i := index to index + quantity
      invariant |addresses| == i - index && IsBlock(dv, d, p, index, addresses)
    {
      match dv.script(d, p, i) {
        case Some(script) => addresses := addresses + [script];
        case None => return None;
      }
    }
    return Some(addresses);
  }

  method DeriveFromDescriptor(dv: Deriver, d: Descriptor, index: nat, quantity: nat) returns (r: Option<seq<Script>>)
    ensures r.Some? ==> dv.paths(d).Some? && AreBlocks(dv, d, dv.paths(d).value, index, quantity, r.value)
    ensures r.None? ==> !CanDerive(dv, d, index, quantity)
  {
    if dv.paths(d).None? {
      return None;
    }
    var addresses := [];
    for p := 0 to dv.paths(d).value
      invariant AreBlocks(dv, d, p, index, quantity, addresses)
    {
      var block := DeriveFromParsed(dv, d, p, index, quantity);
      if block.None? {
        return None;
      }
      ghost var more := addresses + block.value;
      assert more[..|more| - quantity] == addresses && more[|more| - quantity..] == block.value;
      addresses := addresses + block.value;
    }
    return Some(addresses);
  }

  lemma AtLeastOnce(k: int, c: nat)
    ensures k >= 1 ==> k * c >= c
    ensures k <= -1 ==> k * c + c <= 0
  {
  }

  lemma ModOf(q: nat, i: nat, c: nat)
    requires i < c
    ensures (q * c + i) % c == i
  {
    var x := q * c + i;
    var k := q - x / c;
    assert k * c == q * c - x / c * c;
    assert k * c == x % c - i;
    AtLeastOnce(k, c);
    assert k == 0;
  }

  lemma {:induction false} BlocksLength(dv: Deriver, d: Descriptor, n: nat, start: nat, count: nat,
                                        scripts: seq<Script>)
    requires AreBlocks(dv, d, n, start, count, scripts)
    ensures |scripts| == n * count
  {
    if n != 0 {
      BlocksLength(dv, d, n - 1, start, count, scripts[..|scripts| - count]);
    }
  }

  /** The position modulo the block length is the index, whatever the path. */
  lemma {:induction false} PositionIsIndex(dv: Deriver, d: Descriptor, n: nat, start: nat, count: nat,
                                           scripts: seq<Script>, pos: nat)
    returns (p: nat)
    requires AreBlocks(dv, d, n, start, count, scripts) && pos < |scripts|
    ensures p < n && count > 0 && dv.script(d, p, start + pos % count) == Some(scripts[pos])
  {
    var cut := |scripts| - count;
    if pos < cut {
      p := PositionIsIndex(dv, d, n - 1, start, count, scripts[..cut], pos);
    } else {
      p := n - 1;
      BlocksLength(dv, d, n - 1, start, count, scripts[..cut]);
      ModOf(n - 1, pos - cut, count);
      assert scripts[cut..][pos - cut] == scripts[pos];
    }
  }

  lemma BlockAt(dv: Deriver, d: Descriptor, p: nat, start: nat, scripts: seq<Script>, i: nat)
    requires IsBlock(dv, d, p, start, scripts) && start <= i < start + |scripts|
    ensures dv.script(d, p, i).Some? && dv.script(d, p, i).value in scripts
  {
    var k := i - start;
    assert dv.script(d, p, start + k) == Some(scripts[k]);
  }

  /** No index of the range is missing on any path. */
  lemma {:induction false} IndexHasPosition(dv: Deriver, d: Descriptor, n: nat, start: nat, count: nat,
                                            scripts: seq<Script>, p: nat, i: nat)
    requires AreBlocks(dv, d, n, start, count, scripts) && p < n && start <= i < start + count
    ensures dv.script(d, p, i).Some? && dv.script(d, p, i).value in scripts
  {
    var cut := |scripts| - count;
    if p == n - 1 {
      BlockAt(dv, d, p, start, scripts[cut..], i);
    } else {
      IndexHasPosition(dv, d, n - 1, start, count, scripts[..cut], p, i);
    }
  }

  // ---------- which scripts are derived ----------

  ghost function ScriptOf(dv: Deriver, d: Descriptor, p: nat, i: nat): Script {
    match dv.script(d, p, i)
    case Some(script) => script
    case None => 0
  }

  ghost function PathBlock(dv: Deriver, d: Descriptor, p: nat, start: nat, count: nat): (b: seq<Script>)
    ensures |b| == count && forall i :: 0 <= i < count ==> b[i] == ScriptOf(dv, d, p, start + i)
  {
    if count == 0 then [] else PathBlock(dv, d, p, start, count - 1) + [ScriptOf(dv, d, p, start + count - 1)]
  }

  /** The scripts of the first `n` paths at `count` indexes each, path by path. */
  ghost function PathScripts(dv: Deriver, d: Descriptor, n: nat, start: nat, count: nat): seq<Script> {
    if n == 0 then []
    else PathScripts(dv, d, n - 1, start, count) + PathBlock(dv, d, n - 1, start, count)
  }

  /** The scripts of a descriptor: at `count` indexes per path with a wildcard, at the first one without. */
  ghost function ScriptsFor(dv: Deriver, d: Descriptor, start: nat, count: nat): seq<Script> {
    match dv.paths(d)
    case None => []
    case Some(n) =>
      if dv.wildcard(d) == Some(true) then PathScripts(dv, d, n, start, count)
      else PathScripts(dv, d, n, INDEX_INITIAL, 1)
  }

  /** The scripts of all descriptors, in order. */
  ghost function ScriptsForAll(dv: Deriver, ds: seq<Descriptor>, start: nat, count: nat): seq<Script> {
    if ds == [] then []
    else ScriptsForAll(dv, ds[..|ds| - 1], start, count) + ScriptsFor(dv, ds[|ds| - 1], start, count)
  }

  lemma MoreScripts(dv: Deriver, ds: seq<Descriptor>, i: nat, start: nat, count: nat)
    requires i < |ds|
    ensures ScriptsForAll(dv, ds[..i + 1], start, count) ==
            ScriptsForAll(dv, ds[..i], start, count) + ScriptsFor(dv, ds[i], start, count)
  {
    assert ds[..i + 1][..i] == ds[..i];
  }

  lemma OnlyScripts(dv: Deriver, d: Descriptor, start: nat, count: nat)
    ensures ScriptsForAll(dv, [d], start, count) == ScriptsFor(dv, d, start, count)
  {
    assert [d][..0] == [];
  }

  lemma {:induction false} BlocksAre(dv: Deriver, d: Descriptor, n: nat, start: nat, count: nat, scripts: seq<Script>)
    requires AreBlocks(dv, d, n, start, count, scripts)
    ensures scripts == PathScripts(dv, d, n, start, count)
  {
    if n != 0 {
      var cut := |scripts| - count;
      BlocksAre(dv, d, n - 1, start, count, scripts[..cut]);
      assert scripts == scripts[..cut] + scripts[cut..];
    }
  }

  /** Path by path and index by index, each script stands at its place, and there are no others. */
  lemma {:induction false} ScriptAt(dv: Deriver, d: Descriptor, n: nat, start: nat, count: nat, p: nat, i: nat)
    requires p < n && i < count
    ensures |PathScripts(dv, d, n, start, count)| == n * count && 0 <= p * count + i < n * count
    ensures PathScripts(dv, d, n, start, count)[p * count + i] == ScriptOf(dv, d, p, start + i)
  {
    PathsLength(dv, d, n, start, count);
    PathsLength(dv, d, n - 1, start, count);
    if p < n - 1 {
      ScriptAt(dv, d, n - 1, start, count, p, i);
    }
  }

  lemma {:induction false} PathsLength(dv: Deriver, d: Descriptor, n: nat, start: nat, count: nat)
    ensures |PathScripts(dv, d, n, start, count)| == n * count
  {
    if n != 0 {
      PathsLength(dv, d, n - 1, start, count);
    }
  }

  // ---------- the horizon ----------

  type DerivedIndex = map<Hash, nat>

  function HashAt(dv: Deriver, d: Descriptor, p: nat, i: nat): Option<Hash> {
    match dv.script(d, p, i)
    case Some(script) => Some(dv.spkHash(script))
    case None => None
  }

  /** The script of this path and index is watched, and an index is on record for it. */
  ghost predicate WatchedAt(dv: Deriver, keys: set<Hash>, derived: DerivedIndex, d: Descriptor, p: nat, i: nat) {
    HashAt(dv, d, p, i).Some? && HashAt(dv, d, p, i).value in keys && HashAt(dv, d, p, i).value in derived
  }

  ghost predicate Watched(dv: Deriver, keys: set<Hash>, derived: DerivedIndex, d: Descriptor, lo: nat, hi: nat) {
    && dv.wildcard(d).Some? && dv.paths(d).Some?
    && if dv.wildcard(d).value then
         forall p: nat, i: nat {:trigger WatchedAt(dv, keys, derived, d, p, i)} ::
           p < dv.paths(d).value && lo <= i < hi ==> WatchedAt(dv, keys, derived, d, p, i)
       else
         forall p: nat {:trigger HashAt(dv, d, p, INDEX_INITIAL)} ::
           p < dv.paths(d).value ==>
             HashAt(dv, d, p, INDEX_INITIAL).Some? && HashAt(dv, d, p, INDEX_INITIAL).value in keys
  }

  /** The index on record is one at which a descriptor of the list yields the script. */
  ghost predicate Derives(dv: Deriver, d: Descriptor, h: Hash, i: nat) {
    && dv.wildcard(d) == Some(true) && dv.paths(d).Some?
    && exists p: nat {:trigger HashAt(dv, d, p, i)} :: p < dv.paths(d).value && HashAt(dv, d, p, i) == Some(h)
  }

  ghost predicate RecordOk(dv: Deriver, ds: seq<Descriptor>, limit: nat, derived: DerivedIndex, h: Hash) {
    h in derived ==>
      && derived[h] < limit
      && exists d :: d in ds && Derives(dv, d, h, derived[h])
  }

  /** `failed`: the last attempt to derive a batch went wrong part-way. */
  ghost predicate HorizonOk(dv: Deriver, ds: seq<Descriptor>, horizon: nat, failed: bool, keys: set<Hash>,
                            derived: DerivedIndex) {
    && (forall d {:trigger Watched(dv, keys, derived, d, 0, horizon)} :: d in ds ==>
          Watched(dv, keys, derived, d, 0, horizon))
    && (forall h {:trigger RecordOk(dv, ds, Limit(horizon, failed), derived, h)} ::
          RecordOk(dv, ds, Limit(horizon, failed), derived, h))
    && (ds != [] ==> horizon >= DERIVATION_COUNT)
  }

  /** Recorded indexes stay below the horizon, or below the next one after a failed batch. */
  function Limit(horizon: nat, failed: bool): nat {
    if failed then horizon + DERIVATION_COUNT else horizon
  }

  /** Every new record comes from one of the descriptors and an index of the range. */
  ghost predicate NewRecord(dv: Deriver, ds: seq<Descriptor>, lo: nat, hi: nat, before: DerivedIndex,
                            after: DerivedIndex, h: Hash) {
    h in after ==>
      || (h in before && after[h] == before[h])
      || (lo <= after[h] < hi && exists d :: d in ds && Derives(dv, d, h, after[h]))
  }

  ghost predicate Recorded(dv: Deriver, ds: seq<Descriptor>, lo: nat, hi: nat, before: DerivedIndex,
                           after: DerivedIndex) {
    && before.Keys <= after.Keys
    && forall h {:trigger NewRecord(dv, ds, lo, hi, before, after, h)} :: NewRecord(dv, ds, lo, hi, before, after, h)
  }

  lemma RecordedTrans(dv: Deriver, ds: seq<Descriptor>, es: seq<Descriptor>, all: seq<Descriptor>, lo: nat, hi: nat,
                      a: DerivedIndex, b: DerivedIndex, c: DerivedIndex)
    requires Recorded(dv, ds, lo, hi, a, b) && Recorded(dv, es, lo, hi, b, c)
    requires forall d :: d in ds || d in es ==> d in all
    ensures Recorded(dv, all, lo, hi, a, c)
  {
    forall h
      ensures NewRecord(dv, all, lo, hi, a, c, h)
    {
      assert NewRecord(dv, ds, lo, hi, a, b, h) && NewRecord(dv, es, lo, hi, b, c, h);
    }
  }

  lemma WatchedGrows(dv: Deriver, d: Descriptor, lo: nat, hi: nat, keys: set<Hash>, keys': set<Hash>, a: DerivedIndex,
                     b: DerivedIndex)
    requires Watched(dv, keys, a, d, lo, hi) && keys <= keys' && a.Keys <= b.Keys
    ensures Watched(dv, keys', b, d, lo, hi)
  {
    forall p: nat, i: nat | dv.wildcard(d).value && p < dv.paths(d).value && lo <= i < hi
      ensures WatchedAt(dv, keys', b, d, p, i)
    {
      assert WatchedAt(dv, keys, a, d, p, i);
    }
  }

  lemma WatchedJoin(dv: Deriver, d: Descriptor, mid: nat, hi: nat, keys: set<Hash>, derived: DerivedIndex)
    requires Watched(dv, keys, derived, d, 0, mid) && Watched(dv, keys, derived, d, mid, hi)
    ensures Watched(dv, keys, derived, d, 0, hi)
  {
    forall p: nat, i: nat | dv.wildcard(d).value && p < dv.paths(d).value && i < hi
      ensures WatchedAt(dv, keys, derived, d, p, i)
    {
      assert i < mid || WatchedAt(dv, keys, derived, d, p, i);
      assert i >= mid || WatchedAt(dv, keys, derived, d, p, i);
    }
  }

  ghost predicate AllWatched(dv: Deriver, keys: set<Hash>, derived: DerivedIndex, ds: seq<Descriptor>, lo: nat,
                             hi: nat) {
    forall d {:trigger Watched(dv, keys, derived, d, lo, hi)} :: d in ds ==> Watched(dv, keys, derived, d, lo, hi)
  }

  // ---------- how the operations keep the horizon ----------

  /** Watching more is no harm. */
  lemma HorizonGrows(dv: Deriver, ds: seq<Descriptor>, horizon: nat, failed: bool, keys: set<Hash>, keys': set<Hash>,
                     derived: DerivedIndex)
    requires HorizonOk(dv, ds, horizon, failed, keys, derived) && keys <= keys'
    ensures HorizonOk(dv, ds, horizon, failed, keys', derived)
  {
    forall d | d in ds
      ensures Watched(dv, keys', derived, d, 0, horizon)
    {
      assert Watched(dv, keys, derived, d, 0, horizon);
      WatchedGrows(dv, d, 0, horizon, keys, keys', derived, derived);
    }
  }

  /** A batch beyond the horizon. */
  lemma BatchKeeps(dv: Deriver, ds: seq<Descriptor>, horizon: nat, failed: bool, ok: bool,
                   keys: set<Hash>, derived: DerivedIndex, keys': set<Hash>, derived': DerivedIndex)
    requires HorizonOk(dv, ds, horizon, failed, keys, derived)
    requires keys <= keys' && Recorded(dv, ds, horizon, horizon + DERIVATION_COUNT, derived, derived')
    requires ok ==> AllWatched(dv, keys', derived', ds, horizon, horizon + DERIVATION_COUNT)
    ensures ok ==> HorizonOk(dv, ds, horizon + DERIVATION_COUNT, false, keys', derived')
    ensures !ok ==> HorizonOk(dv, ds, horizon, true, keys', derived')
  {
    var next := horizon + DERIVATION_COUNT;
    forall d | d in ds
      ensures Watched(dv, keys', derived', d, 0, horizon)
      ensures ok ==> Watched(dv, keys', derived', d, 0, next)
    {
      assert Watched(dv, keys, derived, d, 0, horizon);
      WatchedGrows(dv, d, 0, horizon, keys, keys', derived, derived');
      if ok {
        assert Watched(dv, keys', derived', d, horizon, next);
        WatchedJoin(dv, d, horizon, next, keys', derived');
      }
    }
    forall h
      ensures RecordOk(dv, ds, next, derived', h)
    {
      assert NewRecord(dv, ds, horizon, next, derived, derived', h);
      assert RecordOk(dv, ds, Limit(horizon, failed), derived, h);
    }
  }

  /** A new descriptor, derived up to the horizon the others have. */
  lemma PushKeeps(dv: Deriver, ds: seq<Descriptor>, d: Descriptor, horizon: nat, failed: bool,
                  keys: set<Hash>, derived: DerivedIndex, keys': set<Hash>, derived': DerivedIndex)
    requires HorizonOk(dv, ds, horizon, failed, keys, derived)
    requires var h := if horizon < DERIVATION_COUNT then DERIVATION_COUNT else horizon;
             && keys <= keys' && Recorded(dv, [d], 0, h, derived, derived')
             && AllWatched(dv, keys', derived', [d], 0, h)
    ensures HorizonOk(dv, ds + [d], if horizon < DERIVATION_COUNT then DERIVATION_COUNT else horizon,
                      failed, keys', derived')
  {
    var h := if horizon < DERIVATION_COUNT then DERIVATION_COUNT else horizon;
    forall e | e in ds + [d]
      ensures Watched(dv, keys', derived', e, 0, h)
    {
      assert e in [d] ==> Watched(dv, keys', derived', e, 0, h);
      if e in ds {
        assert Watched(dv, keys, derived, e, 0, horizon);
        WatchedGrows(dv, e, 0, horizon, keys, keys', derived, derived');
      }
    }
    forall x
      ensures RecordOk(dv, ds + [d], Limit(h, failed), derived', x)
    {
      assert NewRecord(dv, [d], 0, h, derived, derived', x);
      assert RecordOk(dv, ds, Limit(horizon, failed), derived, x);
    }
  }

  /** Rebuilding everything from the stored descriptors. */
  lemma ReloadKeeps(dv: Deriver, ds: seq<Descriptor>, horizon: nat, keys: set<Hash>, derived: DerivedIndex)
    requires ds == [] ==> derived == map[]
    requires ds != [] ==>
              horizon >= DERIVATION_COUNT && Recorded(dv, ds, 0, horizon, map[], derived) &&
              AllWatched(dv, keys, derived, ds, 0, horizon)
    ensures HorizonOk(dv, ds, horizon, false, keys, derived)
  {
    forall h
      ensures RecordOk(dv, ds, horizon, derived, h)
    {
      assert ds != [] ==> NewRecord(dv, ds, 0, horizon, map[], derived, h);
    }
  }

  /** Deriving this range from the descriptor reports no error. */
  ghost predicate Derivable(dv: Deriver, d: Descriptor, start: nat, count: nat) {
    && dv.wildcard(d).Some?
    && if dv.wildcard(d).value then CanDerive(dv, d, start, count) else CanDerive(dv, d, INDEX_INITIAL, 1)
  }

  /** What is watched can be derived again. */
  lemma WatchedDerivable(dv: Deriver, d: Descriptor, lo: nat, count: nat, keys: set<Hash>, derived: DerivedIndex)
    requires Watched(dv, keys, derived, d, lo, lo + count)
    ensures Derivable(dv, d, lo, count)
  {
    if dv.wildcard(d).value {
      forall p: nat, i: nat | p < dv.paths(d).value && lo <= i < lo + count
        ensures dv.script(d, p, i).Some?
      {
        assert WatchedAt(dv, keys, derived, d, p, i);
      }
    } else {
      forall p: nat, i: nat | p < dv.paths(d).value && i < 1
        ensures dv.script(d, p, i).Some?
      {
        assert HashAt(dv, d, p, INDEX_INITIAL).Some?;
      }
    }
  }

  // ---------- the gap ----------

  ghost predicate AllDerivable(dv: Deriver, ds: seq<Descriptor>, start: nat, count: nat) {
    forall d {:trigger Derivable(dv, d, start, count)} :: d in ds ==> Derivable(dv, d, start, count)
  }

  lemma AllWatchedDerivable(dv: Deriver, ds: seq<Descriptor>, start: nat, count: nat, keys: set<Hash>,
                            derived: DerivedIndex)
    requires AllWatched(dv, keys, derived, ds, start, start + count)
    ensures AllDerivable(dv, ds, start, count)
  {
    forall d | d in ds
      ensures Derivable(dv, d, start, count)
    {
      assert Watched(dv, keys, derived, d, start, start + count);
      WatchedDerivable(dv, d, start, count, keys, derived);
    }
  }

  /** The horizon after a payment to an address with this index on record, if any. */
  ghost function HorizonAfter(dv: Deriver, ds: seq<Descriptor>, horizon: nat, index: Option<nat>): nat {
    if index.Some? && index.value + GAP_LIMIT >= horizon && AllDerivable(dv, ds, horizon, DERIVATION_COUNT)
    then horizon + DERIVATION_COUNT else horizon
  }

  /** What is noted about batches and payments since loading: whether the last batch failed, whether any did, and the
      indexes of the derived addresses paid to or spent from. */
  datatype Notes = Notes(failed: bool, everFailed: bool, used: set<nat>)

  ghost function NotesAfter(dv: Deriver, ds: seq<Descriptor>, horizon: nat, index: Option<nat>, notes: Notes): Notes {
    match index
    case None => notes
    case Some(i) =>
      var bad := i + GAP_LIMIT >= horizon && !AllDerivable(dv, ds, horizon, DERIVATION_COUNT);
      Notes(if i + GAP_LIMIT >= horizon then bad else notes.failed, notes.everFailed || bad, notes.used + {i})
  }

  /** The payment leaves a gap above its index if there was one, or if the next batch can be derived and reaches far
      enough. Both can be told before the payment. */
  ghost predicate GapKept(dv: Deriver, ds: seq<Descriptor>, horizon: nat, index: nat) {
    || index + GAP_LIMIT < horizon
    || (AllDerivable(dv, ds, horizon, DERIVATION_COUNT) && index + GAP_LIMIT < horizon + DERIVATION_COUNT)
  }

  lemma GapExactly(dv: Deriver, ds: seq<Descriptor>, horizon: nat, index: nat)
    ensures index + GAP_LIMIT < HorizonAfter(dv, ds, horizon, Some(index)) <==> GapKept(dv, ds, horizon, index)
  {
  }

  ghost predicate BelowGap(index: nat, horizon: nat) {
    index + GAP_LIMIT < horizon
  }

  /** As long as no batch has failed, the gap above every used index is kept. */
  ghost predicate GapOk(notes: Notes, horizon: nat) {
    notes.everFailed ||
    (!notes.failed && forall i {:trigger BelowGap(i, horizon)} :: i in notes.used ==> BelowGap(i, horizon))
  }

  lemma GapStep(dv: Deriver, ds: seq<Descriptor>, horizon: nat, notes: Notes, keys: set<Hash>, derived: DerivedIndex,
                h: Hash)
    requires HorizonOk(dv, ds, horizon, notes.failed, keys, derived) && GapOk(notes, horizon)
    ensures GapOk(NotesAfter(dv, ds, horizon, Get(derived, h), notes), HorizonAfter(dv, ds, horizon, Get(derived, h)))
  {
    var index := Get(derived, h);
    var notes', horizon' := NotesAfter(dv, ds, horizon, index, notes), HorizonAfter(dv, ds, horizon, index);
    if !notes'.everFailed {
      assert RecordOk(dv, ds, Limit(horizon, notes.failed), derived, h);
      forall i | i in notes'.used
        ensures BelowGap(i, horizon')
      {
        assert i in notes.used ==> BelowGap(i, horizon);
      }
    }
  }

  lemma GapGrows(notes: Notes, horizon: nat, horizon': nat)
    requires GapOk(notes, horizon) && horizon <= horizon'
    ensures GapOk(notes, horizon')
  {
    forall i | !notes.everFailed && i in notes.used
      ensures BelowGap(i, horizon')
    {
      assert BelowGap(i, horizon);
    }
  }

  /** Below the horizon, where every index is without a failed batch, only the batch can fail to keep the gap. */
  lemma GapBelowHorizon(dv: Deriver, ds: seq<Descriptor>, horizon: nat, index: nat)
    requires index < horizon && AllDerivable(dv, ds, horizon, DERIVATION_COUNT)
    ensures GapKept(dv, ds, horizon, index)
  {
  }
}
