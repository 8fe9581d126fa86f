/** Whole runs of the flat chain store. */
module FlatRuns {
  import opened Prelude
  import opened ChainTypes
  import ProbeTable
  import opened FlatDisk
  import opened FlatChainStores

  /** `Activate` saves a best-chain header and updates its index, as the node does. */
  datatype Event = Save(header: DiskBlockHeader) | Activate(header: DiskBlockHeader) | Look(hash: BlockHash) {
    function Hash(): BlockHash {
      if Look? then hash else header.header.hash
    }
  }

  /** The store after a list of saves. */
  function SaveAll(store: Store, log: seq<DiskBlockHeader>): Store {
    if log == [] then store else SaveAll(store, log[..|log| - 1]).SaveHeader(log[|log| - 1])
  }

  lemma SaveOne(store: Store, log: seq<DiskBlockHeader>, d: DiskBlockHeader)
    ensures SaveAll(store, log + [d]) == SaveAll(store, log).SaveHeader(d)
  {
    assert (log + [d])[..|log|] == log;
  }

  /** The log answers with the last header it has for a hash, and leaves other hashes as they were. */
  lemma {:induction false} NewestSaved(store: Store, log: seq<DiskBlockHeader>, h: BlockHash, i: nat)
    requires i <= |log| && forall j :: i <= j < |log| ==> log[j].header.hash != h
    requires i > 0 ==> log[i - 1].header.hash == h
    ensures Get(SaveAll(store, log).headers, h) == if i > 0 then Some(log[i - 1]) else Get(store.headers, h)
  {
    if i < |log| {
      NewestSaved(store, log[..|log| - 1], h, i);
    }
  }

  // ---------- one event ----------

  /** The event is through: a lookup, a fork header saved, or a best-chain header saved and indexed. */
  ghost predicate Through(s: FlatChainStore, event: Event)
    reads s, s.buckets, s.headers, s.forks
  {
    match event
    case Look(_) => true
    case Save(d) => s.MaySave(d) && !d.MainChain()
    case Activate(d) =>
      s.MaySave(d) &&
      (d.MainChain() ==> s.occupancy + 1 < s.buckets.Length && (d.header.hash == s.genesis ==> d.height == 0))
  }

  /** Takes an event if the slot it writes may be written. A lookup puts nothing in doubt, an event that is through
      clears its hash, and any other casts doubt on its hash at most. */
  method Take(s: FlatChainStore, event: Event) returns (saved: bool, through: bool)
    requires s.Valid()
    modifies s, s.buckets, s.headers, s.forks
    ensures s.Valid()
    ensures saved <==> !event.Look? && old(s.MaySave(event.header))
    ensures through <==> old(Through(s, event))
    ensures s.store == if saved then old(s.store).SaveHeader(event.header) else old(s.store)
    ensures event.Look? ==> s.Doubtful() <= old(s.Doubtful())
    ensures !event.Look? && through ==> s.Doubtful() <= old(s.Doubtful()) - {event.Hash()}
    ensures s.Doubtful() <= old(s.Doubtful()) + {event.Hash()}
  {
    saved, through := false, false;
    if event.Look? {
      var _ := s.GetHeader(event.hash);
      through := true;
    } else {
      var can := s.CanSave(event.header);
      if can {
        saved, through := SaveOrActivate(s, event.header, event.Activate?);
      }
    }
  }

  method SaveOrActivate(s: FlatChainStore, d: DiskBlockHeader, activate: bool) returns (saved: bool, through: bool)
    requires s.Valid() && s.Takes(d)
    modifies s, s.buckets, s.headers, s.forks
    ensures s.Valid()
    ensures saved <==> old(s.MaySave(d))
    ensures through <==> old(Through(s, if activate then Activate(d) else Save(d)))
    ensures s.store == if saved then old(s.store).SaveHeader(d) else old(s.store)
    ensures through ==> s.Doubtful() <= old(s.Doubtful()) - {d.header.hash}
    ensures s.Doubtful() <= old(s.Doubtful()) + {d.header.hash}
  {
    var r := s.SaveHeader(d);
    saved := r.Ok?;
    through := saved && !d.MainChain();
    if saved && activate && d.MainChain() && (d.header.hash == s.genesis ==> d.height == 0) {
      assert SlotOk(s.View(), s.store, d.height);
      ghost var b;
      r, b := s.UpdateBlockIndex(d.height, d.header.hash);
      through := r.Ok?;
    }
  }

  // ---------- any run ----------

  /** The headers of the events that were saved, in order. */
  function Saved(events: seq<Event>, saves: seq<bool>): seq<DiskBlockHeader>
    requires |saves| == |events|
  {
    if events == [] then []
    else
      var n := |events| - 1;
      var front := Saved(events[..n], saves[..n]);
      if saves[n] && !events[n].Look? then front + [events[n].header] else front
  }

  /** The hashes of the events that are not through. */
  function Unfinished(events: seq<Event>, through: seq<bool>): set<BlockHash>
    requires |through| == |events|
  {
    if events == [] then {}
    else
      var n := |events| - 1;
      Unfinished(events[..n], through[..n]) + if through[n] then {} else {events[n].Hash()}
  }

  lemma OneMore(events: seq<Event>, i: nat, flags: seq<bool>, flag: bool)
    requires i < |events| && |flags| == i
    ensures Saved(events[..i + 1], flags + [flag]) ==
            if flag && !events[i].Look? then Saved(events[..i], flags) + [events[i].header]
            else Saved(events[..i], flags)
    ensures Unfinished(events[..i + 1], flags + [flag]) ==
            Unfinished(events[..i], flags) + if flag then {} else {events[i].Hash()}
  {
    assert events[..i + 1][..i] == events[..i] && (flags + [flag])[..i] == flags;
  }

  /** What is known after the first `n` events: what they saved, and which hashes may be in doubt. */
  ghost predicate Tracked(events: seq<Event>, n: nat, saves: seq<bool>, through: seq<bool>,
                          start: Store, doubt: set<BlockHash>, store: Store, doubt': set<BlockHash>)
  {
    && n <= |events| && |saves| == |through| == n
    && (forall i :: 0 <= i < n ==> (through[i] ==> saves[i] || events[i].Look?))
    && store == SaveAll(start, Saved(events[..n], saves))
    && doubt' <= doubt + Unfinished(events[..n], through)
  }

  lemma TrackedStep(events: seq<Event>, n: nat, saves: seq<bool>, through: seq<bool>, start: Store,
                    doubt: set<BlockHash>, store: Store, doubt': set<BlockHash>, saved: bool, t: bool, next: Store,
                    doubt'': set<BlockHash>)
    requires n < |events| && Tracked(events, n, saves, through, start, doubt, store, doubt')
    requires (saved ==> !events[n].Look?) && (t ==> saved || events[n].Look?)
    requires next == if saved then store.SaveHeader(events[n].header) else store
    requires doubt'' <= if t then doubt' else doubt' + {events[n].Hash()}
    ensures Tracked(events, n + 1, saves + [saved], through + [t], start, doubt, next, doubt'')
  {
    OneMore(events, n, saves, saved);
    OneMore(events, n, through, t);
    if saved {
      SaveOne(start, Saved(events[..n], saves), events[n].header);
    }
  }

  method RunEvents(s: FlatChainStore, events: seq<Event>) returns (saves: seq<bool>, through: seq<bool>)
    requires s.Valid()
    modifies s, s.buckets, s.headers, s.forks
    ensures s.Valid()
    ensures Tracked(events, |events|, saves, through, old(s.store), old(s.Doubtful()), s.store, s.Doubtful())
  {
    saves, through := [], [];
    for i := 0 to |events|
      invariant s.Valid()
      invariant Tracked(events, i, saves, through, old(s.store), old(s.Doubtful()), s.store, s.Doubtful())
    {
      ghost var store, doubt := s.store, s.Doubtful();
      var saved, t := Take(s, events[i]);
      TrackedStep(events, i, saves, through, old(s.store), old(s.Doubtful()), store, doubt, saved, t, s.store,
                  s.Doubtful());
      saves, through := saves + [saved], through + [t];
    }
  }

  /** Over any run of saves, activations and lookups on a valid store, each event is saved or not, and through or not.
      A lookup then finds the newest header saved, or nothing if there is none, for every hash that was not in doubt
      and has no unfinished event. Genesis is always found. */
  method AnyRun(s: FlatChainStore, events: seq<Event>, hash: BlockHash)
    returns (saves: seq<bool>, through: seq<bool>, r: Result<Option<DiskBlockHeader>, FlatError>)
    requires s.Valid()
    modifies s, s.buckets, s.headers, s.forks
    ensures s.Valid() && |saves| == |through| == |events|
    ensures forall i :: 0 <= i < |events| ==> (through[i] ==> saves[i] || events[i].Look?)
    ensures s.store == SaveAll(old(s.store), Saved(events, saves))
    ensures s.Doubtful() <= old(s.Doubtful()) + Unfinished(events, through)
    ensures r.Ok? && (hash == s.genesis ==> r.value.Some?)
    ensures hash !in old(s.Doubtful()) + Unfinished(events, through) ==>
              r.value == Get(SaveAll(old(s.store), Saved(events, saves)).headers, hash)
  {
    saves, through := RunEvents(s, events);
    assert events[..|events|] == events;
    r := s.GetHeader(hash);
  }

  /** The headers of all events that save one. */
  function AllHeaders(events: seq<Event>): seq<DiskBlockHeader> {
    if events == [] then []
    else
      var n := |events| - 1;
      AllHeaders(events[..n]) + if events[n].Look? then [] else [events[n].header]
  }

  lemma {:induction false} AllSaved(events: seq<Event>, saves: seq<bool>)
    requires |saves| == |events| && forall i :: 0 <= i < |events| ==> saves[i] || events[i].Look?
    ensures Saved(events, saves) == AllHeaders(events)
  {
    if events != [] {
      AllSaved(events[..|events| - 1], saves[..|events| - 1]);
    }
  }

  lemma {:induction false} AllThrough(events: seq<Event>, through: seq<bool>)
    requires |through| == |events| && forall i :: 0 <= i < |events| ==> through[i]
    ensures Unfinished(events, through) == {}
  {
    if events != [] {
      AllThrough(events[..|events| - 1], through[..|events| - 1]);
    }
  }

  /** On a new store, a run whose events are all through leaves nothing in doubt: every hash is looked up as its last
      event saved it, hashes never saved are absent, and genesis is found. */
  method CleanRun(g: Header, home: Home, indexSize: nat, headersSize: nat, forkSize: nat, cacheSize: nat,
                  events: seq<Event>, hash: BlockHash)
    returns (s: FlatChainStore, clean: bool, r: Result<Option<DiskBlockHeader>, FlatError>)
    requires g.hash != NO_HASH && ProbeTable.HomeOk(home, indexSize) && headersSize > 0 && cacheSize > 0
    ensures fresh(s) && s.Valid() && r.Ok? && (hash == g.hash ==> r.value.Some?)
    ensures clean ==>
              && s.pending == {} && s.stale == {}
              && r.value ==
                 Get(SaveAll(Store(map[], map[]).SaveHeader(FullyValid(g, 0)), AllHeaders(events)).headers, hash)
  {
    s := new FlatChainStore(g, home, indexSize, headersSize, forkSize, cacheSize);
    var saves, through;
    saves, through, r := AnyRun(s, events, hash);
    clean := forall i :: 0 <= i < |events| ==> through[i];
    if clean {
      AllSaved(events, saves);
      AllThrough(events, through);
    }
  }
}
