/**
  The watch-only wallet: a cache of addresses that is updated block by block and
  derives further addresses as payments come near its horizon.
 */
module Wallets {
  import opened Prelude
  import opened Transactions
  import opened WalletScan
  import opened WalletLedger
  import opened WalletDerivation
  import opened WalletGap
  import opened WalletStore

  datatype Database = Database(
    addresses: Addresses, txs: map<Txid, CachedTransaction>, descriptors: seq<Descriptor>, derivationIndex: nat)

  /** The horizon a wallet with descriptors has at least. */
  function FirstHorizon(database: Database): nat {
    if database.derivationIndex < DERIVATION_COUNT then DERIVATION_COUNT else database.derivationIndex
  }

  /** The stored copies after new addresses were cached: each is saved once, as it was then. */
  function Copied(copies: Addresses, m: Addresses, m': Addresses): Addresses {
    copies + (m' - m.Keys)
  }

  lemma CopiedTrans(copies: Addresses, a: Addresses, b: Addresses, c: Addresses)
    requires Grown(a, b) && Grown(b, c)
    ensures Copied(Copied(copies, a, b), b, c) == Copied(copies, a, c)
  {
  }

  lemma CopiedSame(copies: Addresses, m: Addresses)
    ensures Copied(copies, m, m) == copies
  {
    assert m - m.Keys == map[];
  }

  /** Only the balance of the address has gone down. */
  function Lowered(m: Addresses, h: Hash, value: nat): Addresses
    requires h in m && value <= m[h].balance
  {
    m[h := m[h].(balance := m[h].balance - value)]
  }

  /** The stored copies after a transaction joined the history of an address: the copy is rewritten only if it was new
      to it. */
  function Rewritten(copies: Addresses, m: Addresses, m': Addresses, h: Hash, id: Txid): Addresses {
    if h in m && h in m' && id !in m[h].transactions && m'[h].scriptHash in copies
    then copies[m'[h].scriptHash := m'[h]] else copies
  }

  /** Copies that agree with the addresses in memory still do after an entry if and only if the transaction was new to
      the history of its address, or is not confirmed. */
  lemma CopyExactly(height: nat, isSpend: bool, m: Addresses, m': Addresses, index: UtxoIndex, index': UtxoIndex,
                    h: Hash, op: OutPoint, value: nat, id: Txid)
    requires Entered(height, isSpend, m, m', index, index', h, op, value, id) && m[h].scriptHash == h
    requires isSpend ==> op in m[h].utxos
    ensures Rewritten(m, m, m', h, id) == m' <==> id !in m[h].transactions || height == 0
  {
    if id !in m[h].transactions || height == 0 {
      assert m'.Keys == m.Keys;
    } else {
      assert if isSpend then op !in m'[h].utxos else |m'[h].utxos| > |m[h].utxos|;
    }
  }

  /** So when a transaction pays an address twice, the copy misses the second payment. */
  lemma SecondPaymentMissing(m: Addresses, m1: Addresses, m2: Addresses, i0: UtxoIndex, i1: UtxoIndex, i2: UtxoIndex,
                             h: Hash, id: Txid, a: nat, b: nat)
    requires h in m && m[h].scriptHash == h && id !in m[h].transactions
    requires Entered(1, false, m, m1, i0, i1, h, OutPoint(id, 0), a, id)
    requires Entered(1, false, m1, m2, i1, i2, h, OutPoint(id, 1), b, id)
    ensures var copies := Rewritten(Rewritten(m, m, m1, h, id), m1, m2, h, id);
            copies[h].balance == m[h].balance + a && m2[h].balance == m[h].balance + a + b
  {
    CopyExactly(1, false, m, m1, i0, i1, h, OutPoint(id, 0), a, id);
    CopyExactly(1, false, m1, m2, i1, i2, h, OutPoint(id, 1), b, id);
  }

  /** A stored transaction is the one that was seen. */
  ghost predicate StoredOk(seen: Seen, txs: Stored, t: Txid) {
    t in txs ==> t in seen && txs[t].tx == seen[t]
  }

  /** An output on record is one of a confirmed transaction, which is stored. */
  ghost predicate HasTx(txs: Stored, confirmed: set<Txid>, index: UtxoIndex, op: OutPoint) {
    op in index ==> op.txid in txs && op.txid in confirmed
  }

  ghost predicate TxsOk(seen: Seen, confirmed: set<Txid>, txs: Stored, index: UtxoIndex) {
    && (forall t {:trigger StoredOk(seen, txs, t)} :: StoredOk(seen, txs, t))
    && (forall op {:trigger HasTx(txs, confirmed, index, op)} :: HasTx(txs, confirmed, index, op))
  }

  /** The confirmed transactions after one more. */
  function ConfirmedWith(height: nat, confirmed: set<Txid>, tx: Transaction): set<Txid> {
    if height > 0 then confirmed + {tx.txid} else confirmed
  }

  lemma TxsGrow(seen: Seen, confirmed: set<Txid>, txs: Stored, index: UtxoIndex, tx: Transaction, height: nat)
    requires TxsOk(seen, confirmed, txs, index) && Consistent(seen, tx)
    ensures TxsOk(seen[tx.txid := tx], ConfirmedWith(height, confirmed, tx), txs, index)
    ensures tx.txid !in confirmed ==> Unlisted(index.Keys, tx.txid, 0)
  {
    var seen', confirmed' := seen[tx.txid := tx], ConfirmedWith(height, confirmed, tx);
    forall t
      ensures StoredOk(seen', txs, t)
    {
      assert StoredOk(seen, txs, t);
    }
    forall op
      ensures HasTx(txs, confirmed', index, op)
    {
      assert HasTx(txs, confirmed, index, op);
    }
    forall i | tx.txid !in confirmed
      ensures OutPoint(tx.txid, i) !in index
    {
      assert HasTx(txs, confirmed, index, OutPoint(tx.txid, i));
    }
  }

  lemma StoreKeeps(seen: Seen, confirmed: set<Txid>, txs: Stored, index: UtxoIndex, index': UtxoIndex,
                   cached: CachedTransaction)
    requires TxsOk(seen, confirmed, txs, index) && cached.hash in seen && seen[cached.hash] == cached.tx
    requires forall op :: op in index' && op !in index ==> op.txid == cached.hash && cached.hash in confirmed
    ensures TxsOk(seen, confirmed, txs[cached.hash := cached], index')
  {
    var txs' := txs[cached.hash := cached];
    forall t
      ensures StoredOk(seen, txs', t)
    {
      assert StoredOk(seen, txs, t);
    }
    forall op
      ensures HasTx(txs', confirmed, index', op)
    {
      assert HasTx(txs, confirmed, index, op);
    }
  }

  /** Addresses are only added, and the same descriptors are derived at least as far. */
  ghost predicate Wider(keys: set<Hash>, tracked: set<Hash>, database: Database,
                        keys': set<Hash>, tracked': set<Hash>, database': Database) {
    && keys <= keys' && tracked <= tracked'
    && database'.descriptors == database.descriptors && database'.derivationIndex >= database.derivationIndex
  }

  class AddressCache {
    const dv: Deriver
    var database: Database
    var addressMap: Addresses
    var scriptSet: set<Hash>
    var utxoIndex: UtxoIndex
    var derivedIndex: DerivedIndex
    // every transaction processed so far
    ghost var seen: Seen
    // the ids of those in blocks at positive heights
    ghost var confirmed: set<Txid>
    // the transactions of blocks at positive heights, in order
    ghost var history: seq<Transaction>
    // addresses that had no coin in the scan when they were cached
    ghost var tracked: set<Hash>
    // batches and payments since loading
    ghost var notes: Notes

    ghost predicate Valid()
      reads this
    {
      && scriptSet == addressMap.Keys
      && HorizonOk(dv, database.descriptors, database.derivationIndex, notes.failed, addressMap.Keys, derivedIndex)
    }

    /** As long as no batch has failed, the gap above every used index is kept. */
    ghost predicate Gapped()
      reads this
    {
      GapOk(notes, database.derivationIndex)
    }

    ghost predicate Books()
      reads this
    {
      LedgerOk(dv.spkHash, seen, addressMap, utxoIndex) && TxsOk(seen, confirmed, database.txs, utxoIndex)
    }

    ghost predicate Faithful()
      reads this
    {
      AtStep(dv.spkHash, TrailOf(history, 0), addressMap, tracked) && CoinsSeen(seen, Scan(history))
    }

    /** Nothing is missed, as long as payments are in order. */
    ghost predicate OnCourse(trail: Trail)
      reads this
    {
      Ahead(dv, database.descriptors, trail, database.derivationIndex, tracked)
    }

    // ---------- addresses ----------

    method CacheAddress(script: Script)
      requires scriptSet == addressMap.Keys
      modifies `database, `addressMap, `scriptSet
      ensures scriptSet == addressMap.Keys == old(addressMap.Keys) + {dv.spkHash(script)}
      ensures Grown(old(addressMap), addressMap)
      ensures database == old(database).(addresses := Copied(old(database).addresses, old(addressMap), addressMap))
    {
      var hash := dv.spkHash(script);
      if hash !in addressMap {
        var newAddress := NewAddress(hash, script);
        database := database.(addresses := database.addresses[hash := newAddress]);
        addressMap := addressMap[hash := newAddress];
        scriptSet := scriptSet + {hash};
        assert addressMap - old(addressMap).Keys == map[hash := newAddress];
      } else {
        CopiedSame(database.addresses, addressMap);
      }
    }

    /** Caches a list of scripts with nothing on record about their index. */
    method CacheAll(scripts: seq<Script>)
      requires scriptSet == addressMap.Keys
      modifies `database, `addressMap, `scriptSet
      ensures scriptSet == addressMap.Keys && Grown(old(addressMap), addressMap)
      ensures AllCached(dv.spkHash, addressMap.Keys, scripts)
      ensures database == old(database).(addresses := Copied(old(database).addresses, old(addressMap), addressMap))
    {
      CopiedSame(database.addresses, addressMap);
      for i := 0 to |scripts|
        invariant scriptSet == addressMap.Keys && Grown(old(addressMap), addressMap)
        invariant AllCached(dv.spkHash, addressMap.Keys, scripts[..i])
        invariant database == old(database).(addresses := Copied(old(database).addresses, old(addressMap), addressMap))
      {
        ghost var keys, mid := addressMap.Keys, addressMap;
        CacheAddress(scripts[i]);
        CopiedTrans(old(database).addresses, old(addressMap), mid, addressMap);
        OneCached(dv.spkHash, keys, addressMap.Keys, scripts, i);
      }
      assert scripts[..|scripts|] == scripts;
    }

    /** Caches a block of derived scripts, each with the index its position stands for. */
    method RecordAll(d: Descriptor, start: nat, count: nat, scripts: seq<Script>)
      requires scriptSet == addressMap.Keys
      requires dv.wildcard(d) == Some(true) && dv.paths(d).Some?
      requires AreBlocks(dv, d, dv.paths(d).value, start, count, scripts)
      modifies `database, `addressMap, `scriptSet, `derivedIndex
      ensures scriptSet == addressMap.Keys && Grown(old(addressMap), addressMap)
      ensures AllCached(dv.spkHash, addressMap.Keys * derivedIndex.Keys, scripts)
      ensures Recorded(dv, [d], start, start + count, old(derivedIndex), derivedIndex)
      ensures database == old(database).(addresses := Copied(old(database).addresses, old(addressMap), addressMap))
    {
      NothingRecorded(dv, [d], start, start + count, derivedIndex);
      CopiedSame(database.addresses, addressMap);
      for position := 0 to |scripts|
        invariant scriptSet == addressMap.Keys && Grown(old(addressMap), addressMap)
        invariant AllCached(dv.spkHash, addressMap.Keys * derivedIndex.Keys, scripts[..position])
        invariant Recorded(dv, [d], start, start + count, old(derivedIndex), derivedIndex)
        invariant database == old(database).(addresses := Copied(old(database).addresses, old(addressMap), addressMap))
      {
        ghost var p := PositionIsIndex(dv, d, dv.paths(d).value, start, count, scripts, position);
        var index := start + position % count;
        OneRecord(dv, d, p, index, start, start + count, old(derivedIndex), derivedIndex,
                  dv.spkHash(scripts[position]));
        ghost var keys := addressMap.Keys * derivedIndex.Keys;
        derivedIndex := derivedIndex[dv.spkHash(scripts[position]) := index];
        ghost var mid := addressMap;
        CacheAddress(scripts[position]);
        CopiedTrans(old(database).addresses, old(addressMap), mid, addressMap);
        OneCached(dv.spkHash, keys, addressMap.Keys * derivedIndex.Keys, scripts, position);
      }
      assert scripts[..|scripts|] == scripts;
    }

    /** One descriptor's part of a range; an error leaves everything as it was. */
    method DeriveOne(d: Descriptor, start: nat, count: nat) returns (r: Option<seq<Script>>)
      requires scriptSet == addressMap.Keys
      modifies `database, `addressMap, `scriptSet, `derivedIndex
      ensures scriptSet == addressMap.Keys && Grown(old(addressMap), addressMap)
      ensures Recorded(dv, [d], start, start + count, old(derivedIndex), derivedIndex)
      ensures r.Some? ==> r.value == ScriptsFor(dv, d, start, count)
      ensures r.Some? ==> Watched(dv, addressMap.Keys, derivedIndex, d, start, start + count)
      ensures r.Some? ==> AllCached(dv.spkHash, addressMap.Keys, r.value)
      ensures r.None? ==>
                !Derivable(dv, d, start, count) && addressMap == old(addressMap) && derivedIndex == old(derivedIndex)
      ensures database == old(database).(addresses := Copied(old(database).addresses, old(addressMap), addressMap))
    {
      NothingRecorded(dv, [d], start, start + count, derivedIndex);
      CopiedSame(database.addresses, addressMap);
      if dv.wildcard(d).None? {
        return None;
      }
      if !dv.wildcard(d).value {
        r := DeriveFromDescriptor(dv, d, INDEX_INITIAL, 1);
        if r.Some? {
          BlocksAre(dv, d, dv.paths(d).value, INDEX_INITIAL, 1, r.value);
          CacheAll(r.value);
          FixedWatched(dv, addressMap.Keys, derivedIndex, d, start, start + count, r.value);
        }
      } else {
        r := DeriveFromDescriptor(dv, d, start, count);
        if r.Some? {
          BlocksAre(dv, d, dv.paths(d).value, start, count, r.value);
          RecordAll(d, start, count, r.value);
          RangeWatched(dv, addressMap.Keys, derivedIndex, d, start, count, r.value);
        }
      }
    }

    method DeriveRange(descriptors: seq<Descriptor>, start: nat, count: nat) returns (r: Option<seq<Script>>)
      requires scriptSet == addressMap.Keys
      modifies `database, `addressMap, `scriptSet, `derivedIndex
      ensures scriptSet == addressMap.Keys && Grown(old(addressMap), addressMap)
      ensures Recorded(dv, descriptors, start, start + count, old(derivedIndex), derivedIndex)
      ensures r.Some? ==> r.value == ScriptsForAll(dv, descriptors, start, count)
      ensures r.Some? ==> AllWatched(dv, addressMap.Keys, derivedIndex, descriptors, start, start + count)
      ensures r.Some? ==> AllCached(dv.spkHash, addressMap.Keys, r.value)
      ensures r.None? ==> exists d :: d in descriptors && !Derivable(dv, d, start, count)
      ensures r.None? && |descriptors| == 1 ==> addressMap == old(addressMap) && derivedIndex == old(derivedIndex)
      ensures database == old(database).(addresses := Copied(old(database).addresses, old(addressMap), addressMap))
    {
      var derived := [];
      FirstDerived(dv, descriptors, start, count, database, addressMap, derivedIndex);
      for i := 0 to |descriptors|
        invariant scriptSet == addressMap.Keys
        invariant i == 0 ==> addressMap == old(addressMap) && derivedIndex == old(derivedIndex)
        invariant DerivedTo(dv, descriptors, i, start, count, old(database), old(addressMap), old(derivedIndex),
                            database, addressMap, derivedIndex, derived)
      {
        ghost var db, m, before := database, addressMap, derivedIndex;
        var one := DeriveOne(descriptors[i], start, count);
        DerivedMore(dv, descriptors, i, start, count, old(database), old(addressMap), old(derivedIndex), db, m, before,
                    derived, database, addressMap, derivedIndex);
        if one.None? {
          return None;
        }
        DerivedNext(dv, descriptors, i, start, count, old(database), old(addressMap), old(derivedIndex), db, m, before,
                    derived, database, addressMap, derivedIndex, one.value);
        derived := derived + one.value;
      }
      assert descriptors[..|descriptors|] == descriptors;
      AllWatchedCached(dv, addressMap.Keys, derivedIndex, descriptors, start, count);
      return Some(derived);
    }

    /** Derives the batch beyond the horizon on every descriptor. */
    method DeriveBatch() returns (ok: bool)
      requires Valid()
      modifies `database, `addressMap, `scriptSet, `derivedIndex
      ensures ok <==> AllDerivable(dv, database.descriptors, database.derivationIndex, DERIVATION_COUNT)
      ensures scriptSet == addressMap.Keys && Grown(old(addressMap), addressMap)
      ensures HorizonOk(dv, database.descriptors, database.derivationIndex + if ok then DERIVATION_COUNT else 0, !ok,
                        addressMap.Keys, derivedIndex)
      ensures database == old(database).(addresses := Copied(old(database).addresses, old(addressMap), addressMap))
    {
      ghost var keys, before := addressMap.Keys, derivedIndex;
      var horizon := database.derivationIndex;
      var r := DeriveRange(database.descriptors, horizon, DERIVATION_COUNT);
      ok := r.Some?;
      if ok {
        AllWatchedDerivable(dv, database.descriptors, horizon, DERIVATION_COUNT, addressMap.Keys, derivedIndex);
      }
      BatchKeeps(dv, database.descriptors, horizon, notes.failed, ok, keys, before, addressMap.Keys, derivedIndex);
    }

    /** Another batch on every descriptor; only complete success moves the horizon. */
    method DeriveAddresses() returns (ok: bool)
      requires Valid()
      modifies `database, `addressMap, `scriptSet, `derivedIndex, `notes
      ensures Valid() && Grown(old(addressMap), addressMap)
      ensures notes == Notes(!ok, old(notes).everFailed || !ok, old(notes).used)
      ensures ok <==> AllDerivable(dv, database.descriptors, old(database).derivationIndex, DERIVATION_COUNT)
      ensures database == old(database).(addresses := Copied(old(database).addresses, old(addressMap), addressMap),
                                         derivationIndex := old(database).derivationIndex +
                                                            if ok then DERIVATION_COUNT else 0)
    {
      ok := DeriveBatch();
      notes := Notes(!ok, notes.everFailed || !ok, notes.used);
      if ok {
        database := database.(derivationIndex := database.derivationIndex + DERIVATION_COUNT);
      }
    }

    method MaybeDeriveAddresses(hash: Hash)
      requires Valid()
      modifies `database, `addressMap, `scriptSet, `derivedIndex, `notes
      ensures Valid() && Grown(old(addressMap), addressMap)
      ensures database == old(database).(addresses := Copied(old(database).addresses, old(addressMap), addressMap),
                                         derivationIndex := database.derivationIndex)
      ensures database.derivationIndex ==
              HorizonAfter(dv, database.descriptors, old(database).derivationIndex, Get(old(derivedIndex), hash))
      // the gap is kept exactly when that could be told before
      ensures hash in old(derivedIndex) ==>
                (old(derivedIndex)[hash] + GAP_LIMIT < database.derivationIndex <==>
                 GapKept(dv, database.descriptors, old(database).derivationIndex, old(derivedIndex)[hash]))
      ensures notes ==
              NotesAfter(dv, database.descriptors, old(database).derivationIndex, Get(old(derivedIndex), hash),
                         old(notes))
    {
      CopiedSame(database.addresses, addressMap);
      if hash in derivedIndex && derivedIndex[hash] + GAP_LIMIT >= database.derivationIndex {
        var _ := DeriveAddresses();
      }
      if hash in old(derivedIndex) {
        notes := notes.(used := notes.used + {old(derivedIndex)[hash]});
      }
    }

    // ---------- transactions ----------

    method SaveMempoolTx(hash: Hash, txid: Txid)
      modifies `database, `addressMap
      ensures addressMap == if hash in old(addressMap) then Noted(old(addressMap), hash, txid) else old(addressMap)
      ensures database == old(database).(addresses := Rewritten(old(database).addresses, old(addressMap), addressMap,
                                                                hash, txid))
    {
      if hash in addressMap && txid !in addressMap[hash].transactions {
        var address := addressMap[hash];
        addressMap := addressMap[hash := address.(transactions := address.transactions + [txid])];
        UpdateAddress(addressMap[hash]);
      }
    }

    /** Rewrites the stored copy of an address, if there is one. */
    method UpdateAddress(address: CachedAddress)
      modifies `database
      ensures database == old(database).(addresses := if address.scriptHash in old(database).addresses
                                                      then old(database).addresses[address.scriptHash := address]
                                                      else old(database).addresses)
    {
      if address.scriptHash in database.addresses {
        database := database.(addresses := database.addresses[address.scriptHash := address]);
      }
    }

    /** Enters a confirmed payment or spend. A spend must be covered by the balance and name an existing input; that of
        an output which is not listed only lowers the balance. */
    method SaveNonMempoolTx(tx: Transaction, isSpend: bool, value: nat, index: nat, hash: Hash)
      requires hash in addressMap && isSpend ==> value <= addressMap[hash].balance && index < |tx.inputs|
      modifies `database, `addressMap, `utxoIndex
      ensures hash !in old(addressMap) ==> addressMap == old(addressMap) && utxoIndex == old(utxoIndex)
      ensures hash in old(addressMap) && Distinct(old(addressMap)[hash].utxos) &&
              (isSpend ==> tx.inputs[index] in old(addressMap)[hash].utxos) ==>
                Entered(1, isSpend, old(addressMap), addressMap, old(utxoIndex), utxoIndex, hash,
                        if isSpend then tx.inputs[index] else OutPoint(tx.txid, index), value, tx.txid)
      ensures hash in old(addressMap) && isSpend && tx.inputs[index] !in old(addressMap)[hash].utxos ==>
                && utxoIndex == old(utxoIndex)
                && addressMap == Noted(Lowered(old(addressMap), hash, value), hash, tx.txid)
      ensures database == old(database).(addresses := Rewritten(old(database).addresses, old(addressMap), addressMap,
                                                                hash, tx.txid))
      ensures addressMap.Keys == old(addressMap.Keys)
    {
      if hash in addressMap {
        if isSpend {
          SpendFrom(hash, tx.inputs[index], value);
        } else {
          var address, utxo := addressMap[hash], OutPoint(tx.txid, index);
          addressMap := addressMap[hash := address.(balance := address.balance + value,
                                                    utxos := address.utxos + [utxo])];
          utxoIndex := utxoIndex[utxo := hash];
        }
        SaveMempoolTx(hash, tx.txid);
      }
    }

    method SpendFrom(hash: Hash, op: OutPoint, value: nat)
      requires hash in addressMap && value <= addressMap[hash].balance
      modifies `addressMap, `utxoIndex
      ensures Distinct(old(addressMap)[hash].utxos) && op in old(addressMap)[hash].utxos ==>
                addressMap == Spent(old(addressMap), hash, op, value) && utxoIndex == old(utxoIndex) - {op}
      ensures op !in old(addressMap)[hash].utxos ==>
                addressMap == Lowered(old(addressMap), hash, value) && utxoIndex == old(utxoIndex)
      ensures addressMap.Keys == old(addressMap.Keys)
      ensures addressMap[hash].transactions == old(addressMap)[hash].transactions
    {
      var address := addressMap[hash];
      var utxos := address.utxos;
      match Position(utxos, op) {
        case Some(idx) =>
          if Distinct(utxos) {
            RemoveAt(utxos, idx);
          }
          utxos := utxos[..idx] + utxos[idx + 1..];
          utxoIndex := utxoIndex - {op};
        case None =>
      }
      addressMap := addressMap[hash := address.(balance := address.balance - value, utxos := utxos)];
    }

    /** Makes sure the address is cached, then derives a batch if it is near the horizon. */
    method Prepare(hash: Hash, outputs: seq<TxOut>, index: nat)
      requires Valid()
      requires hash !in addressMap ==> index < |outputs| && dv.spkHash(outputs[index].script) == hash
      modifies `database, `addressMap, `scriptSet, `derivedIndex, `notes
      ensures Valid() && Grown(old(addressMap), addressMap) && hash in addressMap
      ensures database == old(database).(addresses := Copied(old(database).addresses, old(addressMap), addressMap),
                                         derivationIndex := database.derivationIndex)
      ensures database.derivationIndex ==
              HorizonAfter(dv, database.descriptors, old(database).derivationIndex, Get(old(derivedIndex), hash))
      ensures notes ==
              NotesAfter(dv, database.descriptors, old(database).derivationIndex, Get(old(derivedIndex), hash),
                         old(notes))
    {
      ghost var keys := addressMap.Keys;
      CopiedSame(database.addresses, addressMap);
      if hash !in addressMap {
        CacheAddress(outputs[index].script);
      }
      HorizonGrows(dv, database.descriptors, database.derivationIndex, notes.failed, keys, addressMap.Keys,
                   derivedIndex);
      ghost var cached := addressMap;
      MaybeDeriveAddresses(hash);
      GrownTrans(old(addressMap), cached, addressMap);
      CopiedTrans(old(database).addresses, old(addressMap), cached, addressMap);
    }

    /** The entry is a payment or a spend that the block holds and the books do not have yet. */
    ghost predicate Proper(tx: Transaction, height: nat, value: nat, index: nat, isSpend: bool, hash: Hash)
      reads this
    {
      && tx.txid in seen && seen[tx.txid] == tx && (height > 0 ==> tx.txid in confirmed)
      && if isSpend then
           && index < |tx.inputs| && tx.inputs[index] in utxoIndex && utxoIndex[tx.inputs[index]] == hash
           && value == ValueOf(seen, tx.inputs[index])
         else
           && index < |tx.outputs| && dv.spkHash(tx.outputs[index].script) == hash && value == tx.outputs[index].value
           && (height > 0 ==> OutPoint(tx.txid, index) !in utxoIndex)
    }

    /** Confirmed transactions change the books, unconfirmed ones only the history. */
    method Enter(tx: Transaction, height: nat, value: nat, index: nat, isSpend: bool, hash: Hash)
      requires hash in addressMap
      requires height > 0 && isSpend ==> value <= addressMap[hash].balance && index < |tx.inputs|
      modifies `database, `addressMap, `utxoIndex
      ensures database == old(database).(addresses := Rewritten(old(database).addresses, old(addressMap), addressMap,
                                                                hash, tx.txid))
      ensures addressMap.Keys == old(addressMap.Keys)
      ensures old(LedgerOk(dv.spkHash, seen, addressMap, utxoIndex) &&
                  Proper(tx, height, value, index, isSpend, hash)) ==>
                && LedgerOk(dv.spkHash, seen, addressMap, utxoIndex)
                && Entered(height, isSpend, old(addressMap), addressMap, old(utxoIndex), utxoIndex, hash,
                           if isSpend then tx.inputs[index] else OutPoint(tx.txid, index), value, tx.txid)
    {
      ghost var op := if isSpend && index < |tx.inputs| then tx.inputs[index] else OutPoint(tx.txid, index);
      if LedgerOk(dv.spkHash, seen, addressMap, utxoIndex) && Proper(tx, height, value, index, isSpend, hash) {
        assert AddressOk(dv.spkHash, seen, addressMap, utxoIndex, hash);
        if isSpend {
          BalanceCovers(dv.spkHash, seen, addressMap, utxoIndex, op);
        }
      }
      if height > 0 {
        SaveNonMempoolTx(tx, isSpend, value, index, hash);
      } else {
        SaveMempoolTx(hash, tx.txid);
      }
      if old(LedgerOk(dv.spkHash, seen, addressMap, utxoIndex) && Proper(tx, height, value, index, isSpend, hash)) {
        EntryKeeps(dv.spkHash, seen, height, isSpend, old(addressMap), addressMap, old(utxoIndex), utxoIndex, hash, op,
                   tx.txid);
      }
    }

    /** Enters a payment to, or a spend from, an address, after any batch it causes to be derived. A payment to
        an address that is not cached must name the output that pays it. */
    method CacheTransaction(tx: Transaction, height: nat, value: nat, position: nat, index: nat, isSpend: bool,
                            hash: Hash)
      returns (ghost mid: Addresses)
      requires Valid()
      requires hash !in addressMap ==> index < |tx.outputs| && dv.spkHash(tx.outputs[index].script) == hash
      requires height > 0 && isSpend ==> hash in addressMap && value <= addressMap[hash].balance && index < |tx.inputs|
      modifies `database, `addressMap, `scriptSet, `utxoIndex, `derivedIndex, `notes
      ensures Valid() && database.descriptors == old(database).descriptors
      ensures database.txs == WithTx(old(database).txs, tx, height, position)
      ensures Grown(old(addressMap), mid) && hash in mid && addressMap.Keys == mid.Keys
      ensures database.addresses ==
              Rewritten(Copied(old(database).addresses, old(addressMap), mid), mid, addressMap, hash, tx.txid)
      ensures database.derivationIndex ==
              HorizonAfter(dv, database.descriptors, old(database).derivationIndex, Get(old(derivedIndex), hash))
      ensures hash in old(derivedIndex) ==>
                (old(derivedIndex)[hash] + GAP_LIMIT < database.derivationIndex <==>
                 GapKept(dv, database.descriptors, old(database).derivationIndex, old(derivedIndex)[hash]))
      ensures notes ==
              NotesAfter(dv, database.descriptors, old(database).derivationIndex, Get(old(derivedIndex), hash),
                         old(notes))
      ensures old(Books() && Proper(tx, height, value, index, isSpend, hash)) ==>
                && Books()
                && Entered(height, isSpend, mid, addressMap, old(utxoIndex), utxoIndex, hash,
                           if isSpend then tx.inputs[index] else OutPoint(tx.txid, index), value, tx.txid)
    {
      ghost var proper := Books() && Proper(tx, height, value, index, isSpend, hash);
      var cached := CachedTransaction(tx, height, tx.txid, position);
      database := database.(txs := database.txs[tx.txid := cached]);
      Prepare(hash, tx.outputs, index);
      mid := addressMap;
      if proper {
        GrownKeeps(dv.spkHash, seen, old(addressMap), mid, utxoIndex);
      }
      Enter(tx, height, value, index, isSpend, hash);
      if proper {
        EnteredIndex(height, isSpend, mid, addressMap, old(utxoIndex), utxoIndex, hash,
                     if isSpend then tx.inputs[index] else OutPoint(tx.txid, index), value, tx.txid);
        StoreKeeps(seen, confirmed, old(database.txs), old(utxoIndex), utxoIndex, cached);
      }
    }

    // ---------- blocks ----------

    /** The transaction is being processed: noted as seen and, in a block at a positive height, as confirmed. */
    ghost predicate Entering(tx: Transaction, height: nat)
      reads this
    {
      tx.txid in seen && seen[tx.txid] == tx && (height > 0 ==> tx.txid in confirmed)
    }

    method ProcessInput(tx: Transaction, height: nat, position: nat, vin: nat, ghost trail: Trail)
      requires Valid() && Books() && AtStep(dv.spkHash, trail, addressMap, tracked)
      requires Entering(tx, height) && vin < |tx.inputs|
      modifies `database, `addressMap, `scriptSet, `utxoIndex, `derivedIndex, `notes, `tracked
      ensures Valid() && Books() && old(utxoIndex.Keys) - {tx.inputs[vin]} <= utxoIndex.Keys <= old(utxoIndex.Keys)
      ensures Wider(old(addressMap.Keys), old(tracked), old(database), addressMap.Keys, tracked, database)
      ensures database.txs == StoredIf(tx.inputs[vin] in old(utxoIndex), old(database).txs, tx, height, position)
      ensures AtStep(dv.spkHash, trail.Spend(height, tx.inputs[vin]), addressMap, tracked)
      ensures old(OnCourse(trail)) ==> OnCourse(trail.Spend(height, tx.inputs[vin]))
    {
      var op := tx.inputs[vin];
      if op in utxoIndex {
        BalanceCovers(dv.spkHash, seen, addressMap, utxoIndex, op);
        assert AddressOk(dv.spkHash, seen, addressMap, utxoIndex, utxoIndex[op]);
        assert HasTx(database.txs, confirmed, utxoIndex, op) && StoredOk(seen, database.txs, op.txid);
        var address := addressMap[utxoIndex[op]];
        var utxo := database.txs[op.txid].tx.outputs[op.vout];
        ghost var mid := CacheTransaction(tx, height, utxo.value, position, vin, true, address.scriptHash);
        SpendStep(dv.spkHash, seen, height, trail, old(addressMap), mid, addressMap, old(utxoIndex), utxoIndex,
                  tracked, op, tx.txid);
        tracked := Tracking(dv.spkHash, trail.scan, mid, tracked);
      } else {
        ForeignSpendStep(dv.spkHash, seen, height, trail, addressMap, utxoIndex, tracked, op);
      }
      if old(OnCourse(trail)) {
        SpendAhead(dv, database.descriptors, height, trail, op, old(database).derivationIndex, old(tracked),
                   database.derivationIndex, tracked);
      }
    }

    method ProcessInputs(tx: Transaction, height: nat, position: nat, ghost trail: Trail)
      requires Valid() && Books() && AtStep(dv.spkHash, trail, addressMap, tracked)
      requires Entering(tx, height)
      modifies `database, `addressMap, `scriptSet, `utxoIndex, `derivedIndex, `notes, `tracked
      ensures Valid() && Books()
      ensures old(utxoIndex.Keys) - InputsOf(tx.inputs, |tx.inputs|) <= utxoIndex.Keys <= old(utxoIndex.Keys)
      ensures Wider(old(addressMap.Keys), old(tracked), old(database), addressMap.Keys, tracked, database)
      ensures database.txs == StoredIf(Spends(old(utxoIndex.Keys), tx), old(database).txs, tx, height, position)
      ensures AtStep(dv.spkHash, trail.SpendAll(height, tx.inputs, |tx.inputs|), addressMap, tracked)
      ensures old(OnCourse(trail)) ==> OnCourse(trail.SpendAll(height, tx.inputs, |tx.inputs|))
    {
      for vin := 0 to |tx.inputs|
        invariant Valid() && Books()
        invariant old(utxoIndex.Keys) - InputsOf(tx.inputs, vin) <= utxoIndex.Keys <= old(utxoIndex.Keys)
        invariant database.txs == StoredIf(SpendsFirst(old(utxoIndex.Keys), tx.inputs, vin), old(database).txs, tx,
                                           height, position)
        invariant Wider(old(addressMap.Keys), old(tracked), old(database), addressMap.Keys, tracked, database)
        invariant AtStep(dv.spkHash, trail.SpendAll(height, tx.inputs, vin), addressMap, tracked)
        invariant old(OnCourse(trail)) ==> OnCourse(trail.SpendAll(height, tx.inputs, vin))
      {
        SpendNext(trail, height, tx.inputs, vin);
        OneInput(utxoIndex.Keys, old(utxoIndex.Keys), tx.inputs, vin);
        ProcessInput(tx, height, position, vin, trail.SpendAll(height, tx.inputs, vin));
      }
    }

    method ProcessOutput(tx: Transaction, height: nat, position: nat, vout: nat, ghost trail: Trail)
      returns (mine: bool)
      requires Valid() && Books() && AtStep(dv.spkHash, trail, addressMap, tracked)
      requires Entering(tx, height) && vout < |tx.outputs| && (height > 0 ==> OutPoint(tx.txid, vout) !in utxoIndex)
      modifies `database, `addressMap, `scriptSet, `utxoIndex, `derivedIndex, `notes, `tracked
      ensures Valid() && Books()
      ensures old(utxoIndex.Keys) <= utxoIndex.Keys <= old(utxoIndex.Keys) + {OutPoint(tx.txid, vout)}
      ensures mine && height > 0 ==> OutPoint(tx.txid, vout) in utxoIndex
      ensures database.txs == StoredIf(mine, old(database).txs, tx, height, position)
      ensures Wider(old(addressMap.Keys), old(tracked), old(database), addressMap.Keys, tracked, database)
      ensures AtStep(dv.spkHash, trail.Pay(height, CoinAt(tx, vout)), addressMap, tracked)
      ensures old(OnCourse(trail)) ==> OnCourse(trail.Pay(height, CoinAt(tx, vout)))
      ensures mine == (dv.spkHash(tx.outputs[vout].script) in old(addressMap))
    {
      var hash := dv.spkHash(tx.outputs[vout].script);
      mine := hash in scriptSet;
      if mine {
        ghost var mid := CacheTransaction(tx, height, tx.outputs[vout].value, position, vout, false, hash);
        PaymentDone(dv, database.descriptors, height, trail, old(addressMap), mid, addressMap, old(utxoIndex),
                    utxoIndex, old(derivedIndex), tracked, CoinAt(tx, vout), old(database).derivationIndex,
                    old(notes).failed, database.derivationIndex, tx.txid);
        tracked := Tracking(dv.spkHash, trail.scan, mid, tracked);
      } else {
        ForeignPaymentDone(dv, database.descriptors, height, trail, addressMap, derivedIndex, tracked, CoinAt(tx, vout),
                           database.derivationIndex, notes.failed);
      }
    }

    method ProcessOutputs(tx: Transaction, height: nat, position: nat, ghost trail: Trail)
      returns (mine: seq<(Transaction, TxOut)>)
      requires Valid() && Books() && AtStep(dv.spkHash, trail, addressMap, tracked)
      requires Entering(tx, height) && (height > 0 ==> Unlisted(utxoIndex.Keys, tx.txid, 0))
      modifies `database, `addressMap, `scriptSet, `utxoIndex, `derivedIndex, `notes, `tracked
      ensures Valid() && Books()
      ensures Wider(old(addressMap.Keys), old(tracked), old(database), addressMap.Keys, tracked, database)
      ensures old(utxoIndex.Keys) + PaidBy(dv.spkHash, old(addressMap.Keys), tx, height > 0, |tx.outputs|)
              <= utxoIndex.Keys <= old(utxoIndex.Keys) + OutputsOf(tx, |tx.outputs|)
      ensures database.txs == StoredIf(mine != [], old(database).txs, tx, height, position)
      ensures AtStep(dv.spkHash, trail.PayAll(height, tx, |tx.outputs|), addressMap, tracked)
      ensures old(OnCourse(trail)) ==> OnCourse(trail.PayAll(height, tx, |tx.outputs|))
      ensures Found(dv.spkHash, old(addressMap.Keys), addressMap.Keys, tx, mine, |tx.outputs|)
    {
      PayNone(trail, height, tx);
      mine := [];
      for vout := 0 to |tx.outputs|
        invariant Valid() && Books()
        invariant Wider(old(addressMap.Keys), old(tracked), old(database), addressMap.Keys, tracked, database)
        invariant height > 0 ==> Unlisted(utxoIndex.Keys, tx.txid, vout)
        invariant old(utxoIndex.Keys) + PaidBy(dv.spkHash, old(addressMap.Keys), tx, height > 0, vout)
                  <= utxoIndex.Keys <= old(utxoIndex.Keys) + OutputsOf(tx, vout)
        invariant database.txs == StoredIf(mine != [], old(database).txs, tx, height, position)
        invariant AtStep(dv.spkHash, trail.PayAll(height, tx, vout), addressMap, tracked)
        invariant old(OnCourse(trail)) ==> OnCourse(trail.PayAll(height, tx, vout))
        invariant Found(dv.spkHash, old(addressMap.Keys), addressMap.Keys, tx, mine, vout)
      {
        PayNext(trail, height, tx, vout);
        ghost var keys, index := addressMap.Keys, utxoIndex.Keys;
        var found := ProcessOutput(tx, height, position, vout, trail.PayAll(height, tx, vout));
        OneUnlisted(index, utxoIndex.Keys, tx.txid, vout);
        OneOutputOf(tx, vout);
        OnePaidOutput(dv.spkHash, old(addressMap.Keys), tx, height > 0, vout);
        StoredAgain(mine != [], found, old(database).txs, tx, height, position);
        OneOutput(dv.spkHash, old(addressMap.Keys), keys, addressMap.Keys, tx, mine, vout);
        if found {
          mine := mine + [(tx, tx.outputs[vout])];
        }
      }
    }

    method ProcessBoth(tx: Transaction, height: nat, position: nat, ghost trail: Trail)
      returns (mine: seq<(Transaction, TxOut)>)
      requires Valid() && Books() && AtStep(dv.spkHash, trail, addressMap, tracked)
      requires Entering(tx, height) && (height > 0 ==> Unlisted(utxoIndex.Keys, tx.txid, 0))
      modifies `database, `addressMap, `scriptSet, `utxoIndex, `derivedIndex, `notes, `tracked
      ensures Valid() && Books()
      ensures Wider(old(addressMap.Keys), old(tracked), old(database), addressMap.Keys, tracked, database)
      ensures old(utxoIndex.Keys) - InputsOf(tx.inputs, |tx.inputs|) +
              PaidBy(dv.spkHash, old(addressMap.Keys), tx, height > 0, |tx.outputs|) <= utxoIndex.Keys
      ensures utxoIndex.Keys <= old(utxoIndex.Keys) + OutputsOf(tx, |tx.outputs|)
      ensures database.txs == StoredIf(Spends(old(utxoIndex.Keys), tx) || mine != [], old(database).txs, tx, height,
                                       position)
      ensures AtStep(dv.spkHash, trail.Follow(height, tx), addressMap, tracked)
      ensures old(OnCourse(trail)) ==> OnCourse(trail.Follow(height, tx))
      ensures Found(dv.spkHash, old(addressMap.Keys), addressMap.Keys, tx, mine, |tx.outputs|)
    {
      ProcessInputs(tx, height, position, trail);
      PaidMore(dv.spkHash, old(addressMap.Keys), addressMap.Keys, tx, height > 0);
      mine := ProcessOutputs(tx, height, position, trail.SpendAll(height, tx.inputs, |tx.inputs|));
    }

    method ProcessTransaction(tx: Transaction, height: nat, position: nat, ghost start: nat)
      returns (mine: seq<(Transaction, TxOut)>)
      requires Valid() && Books() && Faithful() && Consistent(seen, tx) && (height > 0 ==> tx.txid !in confirmed)
      modifies this
      ensures Valid() && Books() && Faithful()
      ensures Wider(old(addressMap.Keys), old(tracked), old(database), addressMap.Keys, tracked, database)
      ensures seen == old(seen)[tx.txid := tx] && confirmed == ConfirmedWith(height, old(confirmed), tx)
      ensures old(utxoIndex.Keys) - InputsOf(tx.inputs, |tx.inputs|) +
              PaidBy(dv.spkHash, old(addressMap.Keys), tx, height > 0, |tx.outputs|) <= utxoIndex.Keys
      ensures utxoIndex.Keys <= old(utxoIndex.Keys) + OutputsOf(tx, |tx.outputs|)
      ensures database.txs == StoredIf(Spends(old(utxoIndex.Keys), tx) || mine != [], old(database).txs, tx, height,
                                       position)
      ensures history == Confirmed(height, old(history), [tx])
      ensures old(OnCourse(TrailOf(history, start))) ==> OnCourse(TrailOf(history, start))
      ensures Found(dv.spkHash, old(addressMap.Keys), addressMap.Keys, tx, mine, |tx.outputs|)
    {
      SeeKeeps(dv.spkHash, seen, addressMap, utxoIndex, tx);
      SeenGrows(seen, Scan(history), tx);
      TxsGrow(seen, confirmed, database.txs, utxoIndex, tx, height);
      seen, confirmed := seen[tx.txid := tx], ConfirmedWith(height, confirmed, tx);
      mine := ProcessBoth(tx, height, position, TrailOf(history, start));
      FollowIs(history, start, height, tx);
      ConfirmedScan(seen, height, history, tx);
      history := Confirmed(height, history, [tx]);
    }

    /** Processes a block whose transactions are not confirmed yet; they may have been entered unconfirmed before. */
    method BlockProcess(txdata: seq<Transaction>, height: nat, ghost start: nat)
      returns (mine: seq<(Transaction, TxOut)>, ghost touched: seq<bool>)
      requires Valid() && Books() && Faithful() && AllNew(seen, confirmed, height, txdata)
      modifies this
      ensures Valid() && Books() && Faithful()
      ensures Wider(old(addressMap.Keys), old(tracked), old(database), addressMap.Keys, tracked, database)
      ensures history == Confirmed(height, old(history), txdata)
      ensures seen == SeenAfter(old(seen), txdata) && confirmed == ConfirmedAfter(height, old(confirmed), txdata)
      ensures old(OnCourse(TrailOf(history, start))) ==> OnCourse(TrailOf(history, start))
      ensures FoundAll(dv.spkHash, old(addressMap.Keys), addressMap.Keys, txdata, mine)
      ensures BlockStored(dv.spkHash, old(addressMap.Keys), old(utxoIndex.Keys), old(database).txs, txdata, |txdata|,
                          height, touched, addressMap.Keys, utxoIndex.Keys, database.txs)
    {
      mine, touched := [], [];
      for position := 0 to |txdata|
        invariant Valid() && Books() && Faithful()
        invariant Wider(old(addressMap.Keys), old(tracked), old(database), addressMap.Keys, tracked, database)
        invariant Processed(height, txdata, position, old(seen), seen, old(confirmed), confirmed, old(history), history)
        invariant old(OnCourse(TrailOf(history, start))) ==> OnCourse(TrailOf(history, start))
        invariant FoundAll(dv.spkHash, old(addressMap.Keys), addressMap.Keys, txdata[..position], mine)
        invariant BlockStored(dv.spkHash, old(addressMap.Keys), old(utxoIndex.Keys), old(database).txs, txdata,
                              position, height, touched, addressMap.Keys, utxoIndex.Keys, database.txs)
      {
        ProcessedStep(height, txdata, position, old(seen), seen, old(confirmed), confirmed, old(history), history);
        ghost var keys, index, txs := addressMap.Keys, utxoIndex.Keys, database.txs;
        var more := ProcessTransaction(txdata[position], height, position, start);
        ghost var t := Spends(index, txdata[position]) || more != [];
        FoundPays(dv.spkHash, keys, addressMap.Keys, txdata[position], more);
        StoredStep(dv.spkHash, old(addressMap.Keys), old(utxoIndex.Keys), old(database).txs, txdata, position, height,
                   touched, keys, index, txs, t, addressMap.Keys, utxoIndex.Keys, database.txs);
        touched := touched + [t];
        OneMoreFound(dv.spkHash, old(addressMap.Keys), keys, addressMap.Keys, txdata, position, mine, more);
        mine := mine + more;
      }
      ProcessedAll(height, txdata, old(seen), seen, old(confirmed), confirmed, old(history), history);
    }

    // ---------- queries ----------

    /** For a tracked address, the value the scan holds for it. */
    method GetAddressBalance(h: Hash) returns (r: Option<nat>)
      requires Books() && Faithful()
      ensures r.Some? <==> h in addressMap
      ensures h in tracked ==> r == Some(Worth(dv.spkHash, Scan(history), h))
    {
      if h in tracked {
        AgreesWithScan(dv.spkHash, seen, Scan(history), addressMap, utxoIndex, tracked, h);
      }
      r := if h in addressMap then Some(addressMap[h].balance) else None;
    }

    /** The unspent outputs of an address; none of the lookups behind it can fail. */
    method GetAddressUtxos(h: Hash) returns (r: Option<seq<Coin>>)
      requires Books() && Faithful()
      ensures r.Some? <==> h in addressMap
      ensures r.Some? ==> Outpoints(r.value) == addressMap[h].utxos && CoinsSeen(seen, r.value)
      ensures h in tracked ==> r.Some? && Outpoints(r.value) == Mine(dv.spkHash, Scan(history), h)
    {
      if h !in addressMap {
        assert !Follows(dv.spkHash, Scan(history), addressMap, h);
        return None;
      }
      assert AddressOk(dv.spkHash, seen, addressMap, utxoIndex, h);
      assert h in tracked ==> Follows(dv.spkHash, Scan(history), addressMap, h);
      var utxos := addressMap[h].utxos;
      var coins := [];
      for i := 0 to |utxos|
        invariant Outpoints(coins) == utxos[..i] && CoinsSeen(seen, coins)
      {
        var op := utxos[i];
        assert Owned(dv.spkHash, seen, utxoIndex, h, op);
        assert HasTx(database.txs, confirmed, utxoIndex, op) && StoredOk(seen, database.txs, op.txid);
        var c := Coin(op, database.txs[op.txid].tx.outputs[op.vout]);
        OneMoreCoin(seen, coins, c);
        coins := coins + [c];
        assert utxos[..i + 1] == utxos[..i] + [op];
      }
      assert utxos[..|utxos|] == utxos;
      r := Some(coins);
    }

    // ---------- descriptors ----------

    /** Derives a new descriptor as far as the others and stores it. */
    method StoreDescriptor(d: Descriptor) returns (r: Option<seq<Script>>)
      requires Valid()
      modifies `database, `addressMap, `scriptSet, `derivedIndex
      ensures Valid() && Grown(old(addressMap), addressMap)
      ensures r.Some? ==>
                && r.value == ScriptsFor(dv, d, INDEX_INITIAL, FirstHorizon(old(database)))
                && AllCached(dv.spkHash, addressMap.Keys, r.value)
                && database == old(database).(addresses := Copied(old(database).addresses, old(addressMap), addressMap),
                                              descriptors := old(database).descriptors + [d],
                                              derivationIndex := FirstHorizon(old(database)))
      ensures r.None? ==>
                && addressMap == old(addressMap) && derivedIndex == old(derivedIndex) && database == old(database)
                && !Derivable(dv, d, INDEX_INITIAL, FirstHorizon(old(database)))
    {
      var horizon := FirstHorizon(database);
      r := DeriveRange([d], INDEX_INITIAL, horizon);
      if r.Some? {
        OnlyScripts(dv, d, INDEX_INITIAL, horizon);
        PushKeeps(dv, database.descriptors, d, database.derivationIndex, notes.failed,
                  old(addressMap.Keys), old(derivedIndex), addressMap.Keys, derivedIndex);
        database := database.(descriptors := database.descriptors + [d], derivationIndex := horizon);
      } else {
        CopiedSame(old(database).addresses, addressMap);
      }
    }

    /** Adds a descriptor, derived as far as the others; an error changes nothing. */
    method PushDescriptor(d: Descriptor) returns (r: Option<seq<Script>>)
      requires Valid()
      modifies `database, `addressMap, `scriptSet, `derivedIndex, `tracked
      ensures Valid() && Grown(old(addressMap), addressMap)
      ensures d in old(database).descriptors ==> r.None?
      ensures r.Some? ==>
                && r.value == ScriptsFor(dv, d, INDEX_INITIAL, FirstHorizon(old(database)))
                && AllCached(dv.spkHash, addressMap.Keys, r.value)
                && database == old(database).(addresses := Copied(old(database).addresses, old(addressMap), addressMap),
                                              descriptors := old(database).descriptors + [d],
                                              derivationIndex := FirstHorizon(old(database)))
      ensures r.None? ==>
                && addressMap == old(addressMap) && derivedIndex == old(derivedIndex) && database == old(database)
                && (d in old(database).descriptors || !Derivable(dv, d, INDEX_INITIAL, FirstHorizon(old(database))))
      ensures old(database).descriptors != [] ==> database.derivationIndex == old(database).derivationIndex
      ensures old(Books()) ==> Books()
      // an address that is new, and has no coin in the scan, is followed from now on
      ensures old(Faithful()) ==>
                && Faithful() && tracked >= old(tracked)
                && forall h :: h in addressMap && h !in old(addressMap) && Mine(dv.spkHash, Scan(history), h) == [] ==>
                     h in tracked
    {
      if d in database.descriptors {
        r := None;
      } else {
        r := StoreDescriptor(d);
      }
      if old(Books()) {
        GrownKeeps(dv.spkHash, seen, old(addressMap), addressMap, utxoIndex);
      }
      FollowNew(old(addressMap));
    }

    /** Notes which addresses can be followed from here on. */
    ghost method FollowNew(before: Addresses)
      requires Grown(before, addressMap)
      modifies `tracked
      ensures tracked == Tracking(dv.spkHash, Scan(history), addressMap, old(tracked))
      ensures AtStep(dv.spkHash, TrailOf(history, 0), before, old(tracked)) ==>
                AtStep(dv.spkHash, TrailOf(history, 0), addressMap, tracked)
    {
      if AtStep(dv.spkHash, TrailOf(history, 0), before, tracked) {
        GrownFollows(dv.spkHash, Scan(history), before, addressMap, tracked, PaidTo(dv.spkHash, OutsOf(history)));
      }
      tracked := Tracking(dv.spkHash, Scan(history), addressMap, tracked);
    }

    // ---------- loading ----------

    /** Loads a database; the stored descriptors must still derive up to the horizon. The stored transactions count as
        seen, and those at a positive height as confirmed. */
    constructor (dv: Deriver, database: Database)
      requires forall d :: d in database.descriptors ==> Derivable(dv, d, INDEX_INITIAL, FirstHorizon(database))
      ensures this.dv == dv && Valid() && notes == Notes(false, false, {})
      ensures seen == SeenOf(database.txs) && confirmed == ConfirmedOf(database.txs) && history == []
      ensures Grown(database.addresses, addressMap) && (database.descriptors == [] ==> addressMap == database.addresses)
      ensures Inverse(database.addresses, utxoIndex)
      ensures this.database.descriptors == database.descriptors && this.database.txs == database.txs
      ensures this.database.derivationIndex == if database.descriptors == [] then database.derivationIndex
                                               else FirstHorizon(database)
      ensures StoredRight(dv.spkHash, database) ==> Books()
      ensures database.addresses == map[] && database.txs == map[] ==> Books() && Faithful()
    {
      this.dv, this.database := dv, database;
      addressMap, scriptSet := database.addresses, database.addresses.Keys;
      utxoIndex, derivedIndex := map[], map[];
      seen, confirmed, history, tracked := SeenOf(database.txs), ConfirmedOf(database.txs), [], {};
      notes := Notes(false, false, {});
      new;
      Restore();
      Begin(database.addresses);
    }

    /** Rebuilds the index of outputs and derives all stored descriptors again. */
    method Restore()
      requires scriptSet == addressMap.Keys && utxoIndex == map[] && derivedIndex == map[] && !notes.failed
      requires forall d :: d in database.descriptors ==> Derivable(dv, d, INDEX_INITIAL, FirstHorizon(database))
      modifies `database, `addressMap, `scriptSet, `utxoIndex, `derivedIndex
      ensures Valid() && Grown(old(addressMap), addressMap) && Inverse(old(addressMap), utxoIndex)
      ensures database.descriptors == old(database).descriptors && database.txs == old(database).txs
      ensures database.derivationIndex == if database.descriptors == [] then old(database).derivationIndex
                                          else FirstHorizon(old(database))
      ensures old(database).descriptors == [] ==> addressMap == old(addressMap)
    {
      LoadUtxos();
      if database.descriptors != [] {
        var horizon := FirstHorizon(database);
        database := database.(derivationIndex := horizon);
        var r := DeriveRange(database.descriptors, INDEX_INITIAL, horizon);
        assert r.Some?;
      }
      ReloadKeeps(dv, database.descriptors, database.derivationIndex, addressMap.Keys, derivedIndex);
    }

    /** The books after loading: right if the stored ones are, and with every address followed if there were none. */
    ghost method Begin(loaded: Addresses)
      requires history == [] && tracked == {} && Grown(loaded, addressMap) && Inverse(loaded, utxoIndex)
      requires seen == SeenOf(database.txs) && confirmed == ConfirmedOf(database.txs)
      modifies `tracked
      ensures AddressesRight(dv.spkHash, database.txs, loaded) ==> Books()
      ensures loaded == map[] && database.txs == map[] ==> Books() && Faithful()
    {
      EmptyBooks(dv.spkHash);
      if AddressesRight(dv.spkHash, database.txs, loaded) {
        LoadedBooks(dv.spkHash, database.txs, loaded, utxoIndex);
        GrownKeeps(dv.spkHash, seen, loaded, addressMap, utxoIndex);
      }
      FollowNew(loaded);
    }

    /** Indexes the outputs of the loaded addresses. */
    method LoadUtxos()
      modifies `utxoIndex
      ensures old(utxoIndex) == map[] ==> Inverse(addressMap, utxoIndex)
    {
      var left := addressMap.Keys;
      ghost var empty := utxoIndex == map[];
      while left != {}
        invariant left <= addressMap.Keys
        invariant empty ==> forall op {:trigger Lists(addressMap, utxoIndex, op)} :: Lists(addressMap, utxoIndex, op)
        invariant forall h, op :: h in addressMap && h !in left && op in addressMap[h].utxos ==> op in utxoIndex
        decreases |left|
      {
        var h :| h in left;
        left := left - {h};
        ghost var before := utxoIndex;
        utxoIndex := utxoIndex + map op | op in addressMap[h].utxos :: addressMap[h].scriptHash;
        if empty {
          MoreLists(addressMap, before, utxoIndex, h);
        }
      }
    }
  }

  // ---------- what was stored ----------

  ghost function SeenOf(txs: Stored): Seen {
    map t | t in txs :: txs[t].tx
  }

  ghost function ConfirmedOf(txs: Stored): set<Txid> {
    set t | t in txs && txs[t].height > 0
  }

  /** An indexed output is listed by the address it is indexed under. */
  ghost predicate Lists(m: Addresses, index: UtxoIndex, op: OutPoint) {
    op in index ==> exists h :: h in m && op in m[h].utxos && index[op] == m[h].scriptHash
  }

  /** The index leads from exactly the listed outputs to an address that lists them. */
  ghost predicate Inverse(m: Addresses, index: UtxoIndex) {
    && (forall op {:trigger Lists(m, index, op)} :: Lists(m, index, op))
    && (forall h, op :: h in m && op in m[h].utxos ==> op in index)
  }

  lemma MoreLists(m: Addresses, index: UtxoIndex, index': UtxoIndex, h: Hash)
    requires h in m && index' == index + map op | op in m[h].utxos :: m[h].scriptHash
    requires forall op {:trigger Lists(m, index, op)} :: Lists(m, index, op)
    ensures forall op {:trigger Lists(m, index', op)} :: Lists(m, index', op)
  {
    forall op
      ensures Lists(m, index', op)
    {
      assert Lists(m, index, op);
    }
  }

  /** The stored copy of an address: its outputs are different ones of stored confirmed transactions, pay it, and add up
      to its balance. */
  ghost predicate AddressRight(hash: SpkHash, txs: Stored, m: Addresses, h: Hash) {
    h in m ==>
      && m[h].scriptHash == h && Distinct(m[h].utxos) && m[h].balance == SumOf(SeenOf(txs), m[h].utxos)
      && forall op :: op in m[h].utxos ==>
           && op.txid in ConfirmedOf(txs) && HasOutput(SeenOf(txs), op)
           && hash(SeenOf(txs)[op.txid].outputs[op.vout].script) == h
  }

  ghost predicate AddressesRight(hash: SpkHash, txs: Stored, m: Addresses) {
    forall h {:trigger AddressRight(hash, txs, m, h)} :: AddressRight(hash, txs, m, h)
  }

  ghost predicate StoredRight(hash: SpkHash, database: Database) {
    AddressesRight(hash, database.txs, database.addresses)
  }

  /** Loading right copies gives books in order. */
  lemma LoadedBooks(hash: SpkHash, txs: Stored, m: Addresses, index: UtxoIndex)
    requires AddressesRight(hash, txs, m) && Inverse(m, index)
    ensures LedgerOk(hash, SeenOf(txs), m, index) && TxsOk(SeenOf(txs), ConfirmedOf(txs), txs, index)
  {
    var seen, confirmed := SeenOf(txs), ConfirmedOf(txs);
    forall op
      ensures IndexOk(m, index, op) && HasTx(txs, confirmed, index, op)
    {
      assert Lists(m, index, op);
      if op in index {
        var h :| h in m && op in m[h].utxos && index[op] == m[h].scriptHash;
        assert AddressRight(hash, txs, m, h);
      }
    }
    forall h
      ensures AddressOk(hash, seen, m, index, h)
    {
      assert AddressRight(hash, txs, m, h);
      forall op | h in m && op in m[h].utxos
        ensures Owned(hash, seen, index, h, op)
      {
        assert Lists(m, index, op);
        var g :| g in m && op in m[g].utxos && index[op] == m[g].scriptHash;
        assert AddressRight(hash, txs, m, g);
      }
    }
    forall t
      ensures StoredOk(seen, txs, t)
    {
    }
  }

  function Outpoints(coins: seq<Coin>): seq<OutPoint> {
    if coins == [] then [] else Outpoints(coins[..|coins| - 1]) + [coins[|coins| - 1].outpoint]
  }

  lemma OneMoreCoin(seen: Seen, coins: seq<Coin>, c: Coin)
    requires CoinsSeen(seen, coins) && HasOutput(seen, c.outpoint) &&
             seen[c.outpoint.txid].outputs[c.outpoint.vout] == c.out
    ensures CoinsSeen(seen, coins + [c]) && Outpoints(coins + [c]) == Outpoints(coins) + [c.outpoint]
  {
    var more := coins + [c];
    assert more[..|coins|] == coins;
    forall x
      ensures CoinSeen(seen, more, x)
    {
      assert CoinSeen(seen, coins, x);
    }
  }

  lemma EmptyBooks(hash: SpkHash)
    ensures LedgerOk(hash, map[], map[], map[]) && TxsOk(map[], {}, map[], map[]) && AddressesRight(hash, map[], map[])
    ensures CoinsSeen(map[], []) && AtStep(hash, TrailOf([], 0), map[], {})
  {
  }

  /** The confirmed history after some more transactions; those of a block at height zero do not enter it. */
  function Confirmed(height: nat, history: seq<Transaction>, txdata: seq<Transaction>): seq<Transaction> {
    if height > 0 then history + txdata else history
  }

  lemma ConfirmedScan(seen: Seen, height: nat, history: seq<Transaction>, tx: Transaction)
    requires CoinsSeen(seen, Scan(history)) && tx.txid in seen && seen[tx.txid] == tx
    ensures Scan(Confirmed(height, history, [tx])) == Progress(height, Scan(history), ScanTx(Scan(history), tx))
    ensures CoinsSeen(seen, Scan(Confirmed(height, history, [tx])))
  {
    ScanTxSeen(seen, Scan(history), tx);
    assert (history + [tx])[..|history|] == history;
  }

  lemma OneConfirmed(height: nat, history: seq<Transaction>, txdata: seq<Transaction>, n: nat)
    requires n < |txdata|
    ensures Confirmed(height, Confirmed(height, history, txdata[..n]), [txdata[n]]) ==
            Confirmed(height, history, txdata[..n + 1])
  {
    assert txdata[..n + 1] == txdata[..n] + [txdata[n]];
    assert history + txdata[..n] + [txdata[n]] == history + (txdata[..n] + [txdata[n]]);
  }

  function SeenAfter(seen: Seen, txdata: seq<Transaction>): Seen {
    if txdata == [] then seen
    else
      var tx := txdata[|txdata| - 1];
      SeenAfter(seen, txdata[..|txdata| - 1])[tx.txid := tx]
  }

  function ConfirmedAfter(height: nat, confirmed: set<Txid>, txdata: seq<Transaction>): set<Txid> {
    if txdata == [] then confirmed
    else ConfirmedWith(height, ConfirmedAfter(height, confirmed, txdata[..|txdata| - 1]), txdata[|txdata| - 1])
  }

  /** The ghost state after the first `n` transactions of a block. */
  ghost predicate Processed(height: nat, txdata: seq<Transaction>, n: nat, seen: Seen, seen': Seen,
                            confirmed: set<Txid>, confirmed': set<Txid>, history: seq<Transaction>,
                            history': seq<Transaction>)
  {
    && n <= |txdata| && AllNew(seen', confirmed', height, txdata[n..])
    && seen' == SeenAfter(seen, txdata[..n])
    && confirmed' == ConfirmedAfter(height, confirmed, txdata[..n])
    && history' == Confirmed(height, history, txdata[..n])
  }

  lemma ProcessedStep(height: nat, txdata: seq<Transaction>, n: nat, seen: Seen, seen': Seen, confirmed: set<Txid>,
                      confirmed': set<Txid>, history: seq<Transaction>, history': seq<Transaction>)
    requires n < |txdata| && Processed(height, txdata, n, seen, seen', confirmed, confirmed', history, history')
    ensures Consistent(seen', txdata[n]) && (height > 0 ==> txdata[n].txid !in confirmed')
    ensures Processed(height, txdata, n + 1, seen, seen'[txdata[n].txid := txdata[n]],
                      confirmed, ConfirmedWith(height, confirmed', txdata[n]), history,
                      Confirmed(height, history', [txdata[n]]))
  {
    assert txdata[n..][0] == txdata[n];
    assert txdata[n..][1..] == txdata[n + 1..];
    assert txdata[..n + 1][..n] == txdata[..n];
    OneConfirmed(height, history, txdata, n);
  }

  lemma ProcessedAll(height: nat, txdata: seq<Transaction>, seen: Seen, seen': Seen, confirmed: set<Txid>,
                     confirmed': set<Txid>, history: seq<Transaction>, history': seq<Transaction>)
    requires Processed(height, txdata, |txdata|, seen, seen', confirmed, confirmed', history, history')
    ensures txdata[..|txdata|] == txdata
    ensures seen' == SeenAfter(seen, txdata) && confirmed' == ConfirmedAfter(height, confirmed, txdata)
    ensures history' == Confirmed(height, history, txdata)
  {
    assert txdata[..|txdata|] == txdata;
  }

  /** Something is found exactly where an output pays the wallet. */
  lemma FoundPays(hash: SpkHash, before: set<Hash>, after: set<Hash>, tx: Transaction,
                  mine: seq<(Transaction, TxOut)>)
    requires Found(hash, before, after, tx, mine, |tx.outputs|)
    ensures Pays(hash, before, tx) ==> mine != []
    ensures mine != [] ==> Pays(hash, after, tx)
  {
    if mine != [] {
      var x := mine[0];
      assert x in mine;
      var i :| 0 <= i < |tx.outputs| && tx.outputs[i] == x.1;
    }
  }

  lemma OneMoreFound(hash: SpkHash, before: set<Hash>, keys: set<Hash>, keys': set<Hash>, txdata: seq<Transaction>,
                     n: nat, mine: seq<(Transaction, TxOut)>, more: seq<(Transaction, TxOut)>)
    requires n < |txdata| && FoundAll(hash, before, keys, txdata[..n], mine) && keys <= keys'
    requires before <= keys && Found(hash, keys, keys', txdata[n], more, |txdata[n].outputs|)
    ensures FoundAll(hash, before, keys', txdata[..n + 1], mine + more)
  {
    var txs, all := txdata[..n + 1], mine + more;
    assert txs == txdata[..n] + [txdata[n]];
    forall t | t in txs
      ensures Reported(hash, before, t, all)
    {
      assert t in txdata[..n] ==> Reported(hash, before, t, mine);
    }
    forall x | x in all
      ensures ReportOk(hash, keys', txs, x)
    {
      assert x in mine ==> ReportOk(hash, keys, txdata[..n], x);
    }
  }

  /** When its turn comes, no transaction has an id that stands for another one and, at a positive height, none is
      confirmed. */
  ghost predicate AllNew(seen: Seen, confirmed: set<Txid>, height: nat, txdata: seq<Transaction>)
    decreases |txdata|
  {
    txdata == [] ||
    (var tx := txdata[0];
     && Consistent(seen, tx) && (height > 0 ==> tx.txid !in confirmed)
     && AllNew(seen[tx.txid := tx], ConfirmedWith(height, confirmed, tx), height, txdata[1..]))
  }

  /** Every output of the transaction that pays one of the addresses is reported. */
  ghost predicate Reported(hash: SpkHash, keys: set<Hash>, t: Transaction, mine: seq<(Transaction, TxOut)>) {
    forall i :: 0 <= i < |t.outputs| && hash(t.outputs[i].script) in keys ==> (t, t.outputs[i]) in mine
  }

  /** A report names an output of the block that pays one of the addresses. */
  ghost predicate ReportOk(hash: SpkHash, keys: set<Hash>, txdata: seq<Transaction>, x: (Transaction, TxOut)) {
    x.0 in txdata && x.1 in x.0.outputs && hash(x.1.script) in keys
  }

  ghost predicate FoundAll(hash: SpkHash, before: set<Hash>, after: set<Hash>, txdata: seq<Transaction>,
                           mine: seq<(Transaction, TxOut)>) {
    && (forall t {:trigger Reported(hash, before, t, mine)} :: t in txdata ==> Reported(hash, before, t, mine))
    && (forall x {:trigger ReportOk(hash, after, txdata, x)} :: x in mine ==> ReportOk(hash, after, txdata, x))
  }

  /** The list holds every output that pays an address in `before`, and only outputs that pay one in `after`. */
  ghost predicate Found(hash: SpkHash, before: set<Hash>, after: set<Hash>, tx: Transaction,
                        mine: seq<(Transaction, TxOut)>, n: nat)
  {
    && n <= |tx.outputs|
    && (forall i :: 0 <= i < n && hash(tx.outputs[i].script) in before ==> (tx, tx.outputs[i]) in mine)
    && (forall x :: x in mine ==> x.0 == tx && x.1 in tx.outputs && hash(x.1.script) in after)
  }

  // ---------- lemmas about the loops above ----------

  /** No output of the transaction from number `n` on is listed. */
  ghost predicate Unlisted(index: set<OutPoint>, txid: Txid, n: nat) {
    forall i: nat :: n <= i ==> OutPoint(txid, i) !in index
  }

  lemma OneUnlisted(index: set<OutPoint>, index': set<OutPoint>, txid: Txid, n: nat)
    requires index' <= index + {OutPoint(txid, n)}
    ensures Unlisted(index, txid, n) ==> Unlisted(index', txid, n + 1)
  {
  }

  lemma OneOutput(hash: SpkHash, before: set<Hash>, keys: set<Hash>, keys': set<Hash>, tx: Transaction,
                  mine: seq<(Transaction, TxOut)>, n: nat)
    requires n < |tx.outputs| && before <= keys <= keys' && Found(hash, before, keys, tx, mine, n)
    ensures var h := hash(tx.outputs[n].script);
            Found(hash, before, keys', tx, if h in keys then mine + [(tx, tx.outputs[n])] else mine, n + 1)
  {
  }

  ghost predicate AllCached(hash: SpkHash, keys: set<Hash>, scripts: seq<Script>) {
    forall s :: s in scripts ==> hash(s) in keys
  }

  /** What deriving the first `i` descriptors has done. */
  ghost predicate DerivedTo(dv: Deriver, ds: seq<Descriptor>, i: nat, start: nat, count: nat,
                            db: Database, m: Addresses, derived: DerivedIndex,
                            db': Database, m': Addresses, derived': DerivedIndex, scripts: seq<Script>) {
    && i <= |ds|
    && DerivedIn(dv, ds, start, count, db, m, derived, db', m', derived')
    && AllWatched(dv, m'.Keys, derived', ds[..i], start, start + count)
    && scripts == ScriptsForAll(dv, ds[..i], start, count)
  }

  /** Addresses were added and saved, and indexes of the range recorded, for some of the descriptors. */
  ghost predicate DerivedIn(dv: Deriver, ds: seq<Descriptor>, start: nat, count: nat,
                            db: Database, m: Addresses, derived: DerivedIndex,
                            db': Database, m': Addresses, derived': DerivedIndex) {
    && Grown(m, m') && Recorded(dv, ds, start, start + count, derived, derived')
    && db' == db.(addresses := Copied(db.addresses, m, m'))
  }

  lemma FirstDerived(dv: Deriver, ds: seq<Descriptor>, start: nat, count: nat, db: Database, m: Addresses,
                     derived: DerivedIndex)
    ensures DerivedTo(dv, ds, 0, start, count, db, m, derived, db, m, derived, [])
  {
    NothingRecorded(dv, ds, start, start + count, derived);
    CopiedSame(db.addresses, m);
  }

  lemma DerivedMore(dv: Deriver, ds: seq<Descriptor>, i: nat, start: nat, count: nat,
                    db: Database, m: Addresses, derived: DerivedIndex,
                    db1: Database, m1: Addresses, derived1: DerivedIndex, scripts: seq<Script>,
                    db2: Database, m2: Addresses, derived2: DerivedIndex)
    requires i < |ds| && DerivedTo(dv, ds, i, start, count, db, m, derived, db1, m1, derived1, scripts)
    requires DerivedIn(dv, [ds[i]], start, count, db1, m1, derived1, db2, m2, derived2)
    ensures DerivedIn(dv, ds, start, count, db, m, derived, db2, m2, derived2)
  {
    GrownTrans(m, m1, m2);
    CopiedTrans(db.addresses, m, m1, m2);
    RecordedTrans(dv, ds, [ds[i]], ds, start, start + count, derived, derived1, derived2);
  }

  lemma DerivedNext(dv: Deriver, ds: seq<Descriptor>, i: nat, start: nat, count: nat,
                    db: Database, m: Addresses, derived: DerivedIndex,
                    db1: Database, m1: Addresses, derived1: DerivedIndex, scripts: seq<Script>,
                    db2: Database, m2: Addresses, derived2: DerivedIndex, more: seq<Script>)
    requires i < |ds| && DerivedTo(dv, ds, i, start, count, db, m, derived, db1, m1, derived1, scripts)
    requires DerivedIn(dv, [ds[i]], start, count, db1, m1, derived1, db2, m2, derived2)
    requires DerivedIn(dv, ds, start, count, db, m, derived, db2, m2, derived2)
    requires Watched(dv, m2.Keys, derived2, ds[i], start, start + count) && more == ScriptsFor(dv, ds[i], start, count)
    ensures DerivedTo(dv, ds, i + 1, start, count, db, m, derived, db2, m2, derived2, scripts + more)
  {
    MoreScripts(dv, ds, i, start, count);
    WatchedOneMore(dv, m1.Keys, m2.Keys, derived1, derived2, ds, i, start, start + count);
  }

  /** The scripts of a watched descriptor are cached. */
  lemma WatchedCached(dv: Deriver, keys: set<Hash>, derived: DerivedIndex, d: Descriptor, start: nat, count: nat)
    requires Watched(dv, keys, derived, d, start, start + count)
    ensures AllCached(dv.spkHash, keys, ScriptsFor(dv, d, start, count))
  {
    var n := dv.paths(d).value;
    if dv.wildcard(d).value {
      forall p: nat, i: nat | p < n && start <= i < start + count
        ensures dv.spkHash(ScriptOf(dv, d, p, i)) in keys
      {
        assert WatchedAt(dv, keys, derived, d, p, i);
      }
      PathsCached(dv, keys, d, n, start, count);
    } else {
      forall p: nat, i: nat | p < n && INDEX_INITIAL <= i < INDEX_INITIAL + 1
        ensures dv.spkHash(ScriptOf(dv, d, p, i)) in keys
      {
        assert HashAt(dv, d, p, INDEX_INITIAL).Some?;
      }
      PathsCached(dv, keys, d, n, INDEX_INITIAL, 1);
    }
  }

  lemma {:induction false} PathsCached(dv: Deriver, keys: set<Hash>, d: Descriptor, n: nat, start: nat, count: nat)
    requires forall p: nat, i: nat :: p < n && start <= i < start + count ==> dv.spkHash(ScriptOf(dv, d, p, i)) in keys
    ensures AllCached(dv.spkHash, keys, PathScripts(dv, d, n, start, count))
  {
    if n != 0 {
      PathsCached(dv, keys, d, n - 1, start, count);
    }
  }

  lemma {:induction false} AllWatchedCached(dv: Deriver, keys: set<Hash>, derived: DerivedIndex, ds: seq<Descriptor>,
                                            start: nat, count: nat)
    requires AllWatched(dv, keys, derived, ds, start, start + count)
    ensures AllCached(dv.spkHash, keys, ScriptsForAll(dv, ds, start, count))
  {
    if ds != [] {
      var n := |ds| - 1;
      forall d | d in ds[..n]
        ensures Watched(dv, keys, derived, d, start, start + count)
      {
        assert d in ds;
      }
      AllWatchedCached(dv, keys, derived, ds[..n], start, count);
      WatchedCached(dv, keys, derived, ds[n], start, count);
    }
  }

  lemma OneCached(hash: SpkHash, keys: set<Hash>, keys': set<Hash>, scripts: seq<Script>, i: nat)
    requires i < |scripts| && AllCached(hash, keys, scripts[..i]) && keys + {hash(scripts[i])} <= keys'
    ensures AllCached(hash, keys', scripts[..i + 1])
  {
    assert scripts[..i + 1] == scripts[..i] + [scripts[i]];
  }

  lemma NothingRecorded(dv: Deriver, ds: seq<Descriptor>, lo: nat, hi: nat, derived: DerivedIndex)
    ensures Recorded(dv, ds, lo, hi, derived, derived)
  {
    forall h
      ensures NewRecord(dv, ds, lo, hi, derived, derived, h)
    {
    }
  }

  lemma OneRecord(dv: Deriver, d: Descriptor, p: nat, i: nat, lo: nat, hi: nat, before: DerivedIndex,
                  after: DerivedIndex, h: Hash)
    requires Recorded(dv, [d], lo, hi, before, after) && lo <= i < hi
    requires dv.wildcard(d) == Some(true) && dv.paths(d).Some? && p < dv.paths(d).value &&
             HashAt(dv, d, p, i) == Some(h)
    ensures Recorded(dv, [d], lo, hi, before, after[h := i])
  {
    assert Derives(dv, d, h, i);
    var more := after[h := i];
    forall g
      ensures NewRecord(dv, [d], lo, hi, before, more, g)
    {
      assert NewRecord(dv, [d], lo, hi, before, after, g);
      assert d in [d];
    }
  }

  lemma {:induction false} FixedWatched(dv: Deriver, keys: set<Hash>, derived: DerivedIndex, d: Descriptor, lo: nat,
                                        hi: nat, scripts: seq<Script>)
    requires dv.wildcard(d) == Some(false) && dv.paths(d).Some?
    requires AreBlocks(dv, d, dv.paths(d).value, INDEX_INITIAL, 1, scripts)
    requires AllCached(dv.spkHash, keys, scripts)
    ensures Watched(dv, keys, derived, d, lo, hi)
  {
    forall p: nat | p < dv.paths(d).value
      ensures HashAt(dv, d, p, INDEX_INITIAL).Some? && HashAt(dv, d, p, INDEX_INITIAL).value in keys
    {
      IndexHasPosition(dv, d, dv.paths(d).value, INDEX_INITIAL, 1, scripts, p, INDEX_INITIAL);
    }
  }

  lemma {:induction false} RangeWatched(dv: Deriver, keys: set<Hash>, derived: DerivedIndex, d: Descriptor, start: nat,
                                        count: nat, scripts: seq<Script>)
    requires dv.wildcard(d) == Some(true) && dv.paths(d).Some?
    requires AreBlocks(dv, d, dv.paths(d).value, start, count, scripts)
    requires AllCached(dv.spkHash, keys * derived.Keys, scripts)
    ensures Watched(dv, keys, derived, d, start, start + count)
  {
    forall p: nat, i: nat | p < dv.paths(d).value && start <= i < start + count
      ensures WatchedAt(dv, keys, derived, d, p, i)
    {
      IndexHasPosition(dv, d, dv.paths(d).value, start, count, scripts, p, i);
    }
  }

  lemma WatchedOneMore(dv: Deriver, keys: set<Hash>, keys': set<Hash>, a: DerivedIndex, b: DerivedIndex,
                       ds: seq<Descriptor>, i: nat, lo: nat, hi: nat)
    requires i < |ds| && AllWatched(dv, keys, a, ds[..i], lo, hi) && keys <= keys' && a.Keys <= b.Keys
    requires Watched(dv, keys', b, ds[i], lo, hi)
    ensures AllWatched(dv, keys', b, ds[..i + 1], lo, hi)
  {
    forall d | d in ds[..i + 1]
      ensures Watched(dv, keys', b, d, lo, hi)
    {
      if d != ds[i] {
        assert d in ds[..i];
        assert Watched(dv, keys, a, d, lo, hi);
        WatchedGrows(dv, d, lo, hi, keys, keys', a, b);
      }
    }
  }

  // ---------- whole runs ----------

  datatype MinedBlock = MinedBlock(txdata: seq<Transaction>, height: nat)

  /** All transactions of the blocks, in order. */
  function Flatten(blocks: seq<MinedBlock>): seq<Transaction> {
    if blocks == [] then [] else Flatten(blocks[..|blocks| - 1]) + blocks[|blocks| - 1].txdata
  }

  /** Each transaction of the blocks is confirmed once. */
  ghost predicate AllNewBlocks(seen: Seen, confirmed: set<Txid>, blocks: seq<MinedBlock>)
    decreases |blocks|
  {
    blocks == [] ||
    (var b := blocks[0];
     && AllNew(seen, confirmed, b.height, b.txdata)
     && AllNewBlocks(SeenAfter(seen, b.txdata), ConfirmedAfter(b.height, confirmed, b.txdata), blocks[1..]))
  }

  lemma NextBlock(seen: Seen, confirmed: set<Txid>, history: seq<Transaction>, blocks: seq<MinedBlock>, i: nat)
    requires i < |blocks| && AllNewBlocks(seen, confirmed, blocks[i..]) && blocks[i].height > 0
    ensures var b := blocks[i];
            && AllNew(seen, confirmed, b.height, b.txdata)
            && AllNewBlocks(SeenAfter(seen, b.txdata), ConfirmedAfter(b.height, confirmed, b.txdata), blocks[i + 1..])
    ensures Confirmed(blocks[i].height, Confirmed(1, history, Flatten(blocks[..i])), blocks[i].txdata)
            == Confirmed(1, history, Flatten(blocks[..i + 1]))
  {
    assert blocks[i..][1..] == blocks[i + 1..];
    assert blocks[..i + 1][..i] == blocks[..i];
    assert history + Flatten(blocks[..i]) + blocks[i].txdata == history + (Flatten(blocks[..i]) + blocks[i].txdata);
  }

  /** The wallet's record of an address is what the scan holds for it. */
  ghost predicate Exact(hash: SpkHash, scan: seq<Coin>, m: Addresses, h: Hash) {
    h in m && m[h].utxos == Mine(hash, scan, h) && m[h].balance == Worth(hash, scan, h)
  }

  ghost predicate AllExact(hash: SpkHash, scan: seq<Coin>, m: Addresses, tracked: set<Hash>) {
    forall h {:trigger Exact(hash, scan, m, h)} :: h in tracked ==> Exact(hash, scan, m, h)
  }

  lemma FollowedIsExact(hash: SpkHash, seen: Seen, scan: seq<Coin>, m: Addresses, index: UtxoIndex, tracked: set<Hash>)
    requires LedgerOk(hash, seen, m, index) && AllFollow(hash, scan, m, tracked) && CoinsSeen(seen, scan)
    ensures AllExact(hash, scan, m, tracked)
  {
    forall h | h in tracked
      ensures Exact(hash, scan, m, h)
    {
      AgreesWithScan(hash, seen, scan, m, index, tracked, h);
    }
  }

  /** What comes before transaction `i` of block `k`. */
  ghost function Before(blocks: seq<MinedBlock>, k: nat, i: nat): seq<Transaction>
    requires k < |blocks| && i < |blocks[k].txdata|
  {
    Flatten(blocks[..k]) + blocks[k].txdata[..i]
  }

  /** A transaction of a block that pays an address cached at the start, or spends an output that is listed because it
      was at the start or because it pays such an address, is stored with the height of the block and its position. */
  ghost predicate TxStored(hash: SpkHash, keys: set<Hash>, index: set<OutPoint>, blocks: seq<MinedBlock>, txs: Stored,
                           k: nat, i: nat) {
    k < |blocks| && i < |blocks[k].txdata| &&
    (|| Pays(hash, keys, blocks[k].txdata[i])
     || Spends(SureAfter(hash, keys, index, Before(blocks, k, i), true), blocks[k].txdata[i])) ==>
      var tx := blocks[k].txdata[i];
      Get(txs, tx.txid) == Some(CachedTransaction(tx, blocks[k].height, tx.txid, i))
  }

  ghost predicate AllTxStored(hash: SpkHash, keys: set<Hash>, index: set<OutPoint>, blocks: seq<MinedBlock>, n: nat,
                              txs: Stored, confirmed: set<Txid>, index': set<OutPoint>) {
    && n <= |blocks|
    && (forall k: nat, i: nat {:trigger TxStored(hash, keys, index, blocks, txs, k, i)} ::
          k < n ==> TxStored(hash, keys, index, blocks, txs, k, i))
    && (forall k, i :: 0 <= k < n && 0 <= i < |blocks[k].txdata| ==> blocks[k].txdata[i].txid in confirmed)
    && SureAfter(hash, keys, index, Flatten(blocks[..n]), true) <= index'
  }

  lemma TxStoredLess(hash: SpkHash, keys: set<Hash>, index: set<OutPoint>, blocks: seq<MinedBlock>, txs: Stored,
                     k: nat, i: nat)
    requires TxStored(hash, keys, index, blocks, txs, k, i)
    ensures TxStored(hash, keys, {}, blocks, txs, k, i)
  {
    if k < |blocks| && i < |blocks[k].txdata| {
      SureMore(hash, keys, {}, keys, index, Before(blocks, k, i), true);
    }
  }

  /** No transaction of a block at a positive height has the id of an earlier one. */
  lemma {:induction false} NewIds(seen: Seen, confirmed: set<Txid>, height: nat, txdata: seq<Transaction>, i: nat)
    requires AllNew(seen, confirmed, height, txdata) && height > 0 && i < |txdata|
    ensures txdata[i].txid !in confirmed
    ensures forall j :: i < j < |txdata| ==> txdata[j].txid != txdata[i].txid
    decreases |txdata|
  {
    var tx, rest := txdata[0], txdata[1..];
    var seen', confirmed' := seen[tx.txid := tx], ConfirmedWith(height, confirmed, tx);
    if i > 0 {
      NewIds(seen', confirmed', height, rest, i - 1);
      forall j | i < j < |txdata|
        ensures txdata[j].txid != txdata[i].txid
      {
        assert rest[j - 1] == txdata[j] && rest[i - 1] == txdata[i];
      }
    } else {
      forall j | 0 < j < |txdata|
        ensures txdata[j].txid != tx.txid
      {
        NewIds(seen', confirmed', height, rest, j - 1);
        assert rest[j - 1] == txdata[j];
      }
    }
  }

  lemma {:induction false} ConfirmedHolds(height: nat, confirmed: set<Txid>, txdata: seq<Transaction>)
    requires height > 0
    ensures confirmed <= ConfirmedAfter(height, confirmed, txdata)
    ensures forall i :: 0 <= i < |txdata| ==> txdata[i].txid in ConfirmedAfter(height, confirmed, txdata)
  {
    if txdata != [] {
      ConfirmedHolds(height, confirmed, txdata[..|txdata| - 1]);
    }
  }

  /** What concerns the wallet in the first block to come is marked in it. */
  lemma BlockMarks(hash: SpkHash, keys: set<Hash>, index: set<OutPoint>, blocks: seq<MinedBlock>, n: nat,
                   k1: set<Hash>, i1: set<OutPoint>, txs: Stored, touched: seq<bool>, k2: set<Hash>,
                   i2: set<OutPoint>, txs': Stored, i: nat)
    requires n < |blocks| && i < |blocks[n].txdata| && blocks[n].height > 0 && keys <= k1
    requires SureAfter(hash, keys, index, Flatten(blocks[..n]), true) <= i1
    requires BlockStored(hash, k1, i1, txs, blocks[n].txdata, |blocks[n].txdata|, blocks[n].height, touched, k2, i2,
                         txs')
    requires || Pays(hash, keys, blocks[n].txdata[i])
             || Spends(SureAfter(hash, keys, index, Before(blocks, n, i), true), blocks[n].txdata[i])
    ensures touched[i]
  {
    var txdata, sure := blocks[n].txdata, SureAfter(hash, keys, index, Flatten(blocks[..n]), true);
    assert MarkOk(hash, k1, i1, k2, blocks[n].height, txdata, touched, i);
    if Pays(hash, keys, txdata[i]) {
      PaysMore(hash, keys, k1, txdata[i]);
    } else {
      SureConcat(hash, keys, index, Flatten(blocks[..n]), txdata[..i], true);
      SureMore(hash, keys, sure, k1, i1, txdata[..i], true);
      SpendsMore(SureAfter(hash, keys, sure, txdata[..i], true), SureAfter(hash, k1, i1, txdata[..i], true), txdata[i]);
    }
  }

  /** What must be listed after one more block is. */
  lemma BlockSure(hash: SpkHash, keys: set<Hash>, index: set<OutPoint>, blocks: seq<MinedBlock>, n: nat,
                  k1: set<Hash>, i1: set<OutPoint>, i2: set<OutPoint>)
    requires n < |blocks| && keys <= k1 && SureAfter(hash, keys, index, Flatten(blocks[..n]), true) <= i1
    requires SureAfter(hash, k1, i1, blocks[n].txdata, true) <= i2
    ensures SureAfter(hash, keys, index, Flatten(blocks[..n + 1]), true) <= i2
  {
    var sure := SureAfter(hash, keys, index, Flatten(blocks[..n]), true);
    assert blocks[..n + 1][..n] == blocks[..n];
    SureConcat(hash, keys, index, Flatten(blocks[..n]), blocks[n].txdata, true);
    SureMore(hash, keys, sure, k1, i1, blocks[n].txdata, true);
  }

  /** One more block keeps what was stored and stores its own. */
  lemma BlockTxStored(hash: SpkHash, keys: set<Hash>, index: set<OutPoint>, blocks: seq<MinedBlock>, n: nat, seen: Seen,
                      confirmed: set<Txid>, k1: set<Hash>, i1: set<OutPoint>, txs: Stored, touched: seq<bool>,
                      k2: set<Hash>, i2: set<OutPoint>, txs': Stored)
    requires n < |blocks| && AllTxStored(hash, keys, index, blocks, n, txs, confirmed, i1) && keys <= k1
    requires AllNew(seen, confirmed, blocks[n].height, blocks[n].txdata) && blocks[n].height > 0
    requires BlockStored(hash, k1, i1, txs, blocks[n].txdata, |blocks[n].txdata|, blocks[n].height, touched, k2, i2,
                         txs')
    ensures AllTxStored(hash, keys, index, blocks, n + 1, txs',
                        ConfirmedAfter(blocks[n].height, confirmed, blocks[n].txdata), i2)
  {
    var txdata, height := blocks[n].txdata, blocks[n].height;
    ConfirmedHolds(height, confirmed, txdata);
    assert txdata[..|txdata|] == txdata;
    BlockSure(hash, keys, index, blocks, n, k1, i1, i2);
    forall k: nat, i: nat | k < n + 1
      ensures TxStored(hash, keys, index, blocks, txs', k, i)
    {
      if i < |blocks[k].txdata| &&
         (|| Pays(hash, keys, blocks[k].txdata[i])
          || Spends(SureAfter(hash, keys, index, Before(blocks, k, i), true), blocks[k].txdata[i])) {
        if k < n {
          assert TxStored(hash, keys, index, blocks, txs, k, i);
          forall j | 0 <= j < |txdata|
            ensures txdata[j].txid != blocks[k].txdata[i].txid
          {
            NewIds(seen, confirmed, height, txdata, j);
          }
          StoredLast(txs, txdata, height, touched, blocks[k].txdata[i].txid, 0);
        } else {
          BlockMarks(hash, keys, index, blocks, n, k1, i1, txs, touched, k2, i2, txs', i);
          NewIds(seen, confirmed, height, txdata, i);
          StoredLast(txs, txdata, height, touched, txdata[i].txid, i + 1);
        }
      }
    }
  }

  /** Over any blocks at positive heights in which each transaction is confirmed once, every tracked address
      ends with exactly the coins, and the balance, that a scan of all their transactions gives it. Addresses derived
      on the way are tracked unless they had been paid before, and none lists anything but coins of the scan. */
  method AnyBlocks(c: AddressCache, blocks: seq<MinedBlock>, ghost start: nat)
    requires c.Valid() && c.Books() && c.Faithful()
    requires forall i :: 0 <= i < |blocks| ==> blocks[i].height > 0
    requires AllNewBlocks(c.seen, c.confirmed, blocks)
    modifies c
    ensures c.Valid() && c.Books() && c.Faithful()
    ensures Wider(old(c.addressMap.Keys), old(c.tracked), old(c.database), c.addressMap.Keys, c.tracked, c.database)
    ensures c.history == Confirmed(1, old(c.history), Flatten(blocks))
    ensures AllExact(c.dv.spkHash, Scan(c.history), c.addressMap, c.tracked)
    ensures old(c.OnCourse(TrailOf(c.history, start))) ==> c.OnCourse(TrailOf(c.history, start))
    ensures forall k: nat, i: nat :: TxStored(c.dv.spkHash, old(c.addressMap.Keys), old(c.utxoIndex.Keys), blocks,
                                              c.database.txs, k, i)
  {
    for i := 0 to |blocks|
      invariant c.Valid() && c.Books() && c.Faithful()
      invariant Wider(old(c.addressMap.Keys), old(c.tracked), old(c.database), c.addressMap.Keys, c.tracked, c.database)
      invariant c.history == Confirmed(1, old(c.history), Flatten(blocks[..i]))
      invariant AllNewBlocks(c.seen, c.confirmed, blocks[i..])
      invariant AllTxStored(c.dv.spkHash, old(c.addressMap.Keys), old(c.utxoIndex.Keys), blocks, i, c.database.txs,
                            c.confirmed, c.utxoIndex.Keys)
      invariant old(c.OnCourse(TrailOf(c.history, start))) ==> c.OnCourse(TrailOf(c.history, start))
    {
      NextBlock(c.seen, c.confirmed, old(c.history), blocks, i);
      ghost var seen, confirmed, txs := c.seen, c.confirmed, c.database.txs;
      ghost var keys, index := c.addressMap.Keys, c.utxoIndex.Keys;
      var _, touched := c.BlockProcess(blocks[i].txdata, blocks[i].height, start);
      BlockTxStored(c.dv.spkHash, old(c.addressMap.Keys), old(c.utxoIndex.Keys), blocks, i, seen, confirmed, keys,
                    index, txs, touched, c.addressMap.Keys, c.utxoIndex.Keys, c.database.txs);
    }
    assert blocks[..|blocks|] == blocks;
    FollowedIsExact(c.dv.spkHash, c.seen, Scan(c.history), c.addressMap, c.utxoIndex, c.tracked);
  }

  // ---------- from a new wallet ----------

  /** A wallet that has seen no transaction: whatever it has cached is tracked. */
  ghost predicate Unused(c: AddressCache)
    reads c
  {
    && c.Valid() && c.Books() && c.Faithful() && c.history == [] && c.seen == map[] && c.confirmed == {}
    && c.addressMap.Keys <= c.tracked
  }

  /** Every script of the answers is cached. */
  ghost predicate AnswersCached(hash: SpkHash, keys: set<Hash>, answers: seq<Option<seq<Script>>>) {
    forall i :: 0 <= i < |answers| && answers[i].Some? ==> AllCached(hash, keys, answers[i].value)
  }

  /** Pushing to a wallet that has seen nothing leaves it so. */
  method PushUnused(c: AddressCache, d: Descriptor) returns (r: Option<seq<Script>>)
    requires Unused(c)
    modifies c
    ensures Unused(c) && c.addressMap.Keys >= old(c.addressMap.Keys)
    ensures c.database.descriptors == old(c.database.descriptors) + if r.Some? then [d] else []
    ensures c.database.derivationIndex ==
            if r.Some? then FirstHorizon(old(c.database)) else old(c.database.derivationIndex)
    ensures old(c.database.descriptors) != [] ==> c.database.derivationIndex == old(c.database.derivationIndex)
    ensures r.Some? ==> r.value == ScriptsFor(c.dv, d, INDEX_INITIAL, c.database.derivationIndex)
    ensures r.Some? ==> AllCached(c.dv.spkHash, c.addressMap.Keys, r.value)
    ensures r.None? ==>
              d in old(c.database.descriptors) || !Derivable(c.dv, d, INDEX_INITIAL, FirstHorizon(old(c.database)))
    ensures c.notes == old(c.notes)
  {
    r := c.PushDescriptor(d);
  }

  /** Pushes descriptors one after the other. */
  method PushAll(c: AddressCache, pushed: seq<Descriptor>) returns (answers: seq<Option<seq<Script>>>)
    requires Unused(c)
    modifies c
    ensures Unused(c) && |answers| == |pushed| && AnswersCached(c.dv.spkHash, c.addressMap.Keys, answers)
    ensures AnswersOwn(c.dv, pushed, c.database.derivationIndex, answers)
    ensures c.database.derivationIndex >= old(c.database.derivationIndex)
    ensures c.database.descriptors == old(c.database.descriptors) + Kept(pushed, answers)
  {
    answers := [];
    for i := 0 to |pushed|
      invariant Unused(c) && |answers| == i && AnswersCached(c.dv.spkHash, c.addressMap.Keys, answers)
      invariant AnswersOwn(c.dv, pushed, c.database.derivationIndex, answers)
      invariant c.database.derivationIndex >= old(c.database.derivationIndex)
      invariant c.database.descriptors == old(c.database.descriptors) + Kept(pushed[..i], answers)
    {
      ghost var keys, horizon := c.addressMap.Keys, c.database.derivationIndex;
      SomeKept(pushed[..i], answers);
      var r := PushUnused(c, pushed[i]);
      AnswerCached(c.dv.spkHash, keys, c.addressMap.Keys, answers, r);
      AnswerOwn(c.dv, pushed, horizon, c.database.derivationIndex, answers, r);
      OneKept(pushed, i, answers, r);
      answers := answers + [r];
    }
    assert pushed[..|pushed|] == pushed;
  }

  /** The descriptors that were answered with scripts. */
  function Kept(pushed: seq<Descriptor>, answers: seq<Option<seq<Script>>>): seq<Descriptor>
    requires |answers| == |pushed|
  {
    if pushed == [] then []
    else
      var n := |pushed| - 1;
      Kept(pushed[..n], answers[..n]) + if answers[n].Some? then [pushed[n]] else []
  }

  lemma OneKept(pushed: seq<Descriptor>, i: nat, answers: seq<Option<seq<Script>>>, r: Option<seq<Script>>)
    requires i < |pushed| && |answers| == i
    ensures Kept(pushed[..i + 1], answers + [r]) == Kept(pushed[..i], answers) + if r.Some? then [pushed[i]] else []
  {
    assert pushed[..i + 1][..i] == pushed[..i] && (answers + [r])[..i] == answers;
  }

  lemma {:induction false} SomeKept(pushed: seq<Descriptor>, answers: seq<Option<seq<Script>>>)
    requires |answers| == |pushed|
    ensures Kept(pushed, answers) == [] ==> forall j :: 0 <= j < |answers| ==> answers[j].None?
  {
    if pushed != [] {
      SomeKept(pushed[..|pushed| - 1], answers[..|pushed| - 1]);
    }
  }

  /** Every answer lists the scripts of its descriptor at all indexes below the horizon. */
  ghost predicate AnswersOwn(dv: Deriver, pushed: seq<Descriptor>, horizon: nat, answers: seq<Option<seq<Script>>>) {
    && |answers| <= |pushed|
    && forall i :: 0 <= i < |answers| && answers[i].Some? ==>
         answers[i].value == ScriptsFor(dv, pushed[i], INDEX_INITIAL, horizon)
  }

  lemma AnswerOwn(dv: Deriver, pushed: seq<Descriptor>, horizon: nat, horizon': nat, answers: seq<Option<seq<Script>>>,
                  r: Option<seq<Script>>)
    requires AnswersOwn(dv, pushed, horizon, answers) && |answers| < |pushed|
    requires (exists j :: 0 <= j < |answers| && answers[j].Some?) ==> horizon' == horizon
    requires r.Some? ==> r.value == ScriptsFor(dv, pushed[|answers|], INDEX_INITIAL, horizon')
    ensures AnswersOwn(dv, pushed, horizon', answers + [r])
  {
  }

  lemma AnswerCached(hash: SpkHash, keys: set<Hash>, keys': set<Hash>, answers: seq<Option<seq<Script>>>,
                     r: Option<seq<Script>>)
    requires AnswersCached(hash, keys, answers) && keys <= keys' && (r.Some? ==> AllCached(hash, keys', r.value))
    ensures AnswersCached(hash, keys', answers + [r])
  {
    forall i | 0 <= i < |answers| && answers[i].Some?
      ensures AllCached(hash, keys', answers[i].value)
    {
      assert AllCached(hash, keys, answers[i].value);
    }
  }

  /** A wallet that loads descriptors but no address, is given more of them, and then processes any blocks at positive
      heights in which each transaction is confirmed once. The addresses it knows before the blocks are those it
      returned and those of its descriptors below the horizon. Each of them has exactly the coins and the balance that
      a scan of the blocks gives it, no address lists anything else, and a transaction that pays one of them, or spends
      what was paid to one, is stored with the height of its block and its position. If descriptors derive without end
      and without repeats, and every payment to a derived address is within the gap above an earlier one, then no coin
      of any address of a descriptor is missed, however far its index is beyond that horizon. */
  method NewWallet(dv: Deriver, stored: seq<Descriptor>, horizon: nat, pushed: seq<Descriptor>, blocks: seq<MinedBlock>)
    returns (c: AddressCache, answers: seq<Option<seq<Script>>>, start: nat, ghost known: set<Hash>)
    requires var database := Database(map[], map[], stored, horizon);
             forall d :: d in stored ==> Derivable(dv, d, INDEX_INITIAL, FirstHorizon(database))
    requires forall i :: 0 <= i < |blocks| ==> blocks[i].height > 0
    requires AllNewBlocks(map[], {}, blocks)
    ensures fresh(c) && c.Valid() && c.history == Flatten(blocks) && |answers| == |pushed|
    ensures start >= horizon && (c.database.descriptors != [] ==> start >= DERIVATION_COUNT)
    ensures c.database.descriptors == stored + Kept(pushed, answers)
    ensures AnswersOwn(dv, pushed, start, answers)
    ensures forall i, s :: 0 <= i < |answers| && answers[i].Some? && s in answers[i].value ==> dv.spkHash(s) in known
    ensures forall h, i: nat :: i < start && YieldedAt(dv, c.database.descriptors, h, i) ==> h in known
    ensures forall h :: h in known ==> Exact(dv.spkHash, Scan(Flatten(blocks)), c.addressMap, h)
    ensures forall h :: Sound(dv.spkHash, Scan(Flatten(blocks)), c.addressMap, h)
    ensures forall k: nat, i: nat :: TxStored(dv.spkHash, known, {}, blocks, c.database.txs, k, i)
    ensures Endless(dv) && Unique(dv, c.database.descriptors) &&
            Orderly(dv, c.database.descriptors, start, OutsOf(Flatten(blocks))) ==>
              forall h :: IndexFor(dv, c.database.descriptors, h).Some? ==>
                Listed(c.addressMap, h) == Mine(dv.spkHash, Scan(Flatten(blocks)), h)
  {
    c := new AddressCache(dv, Database(map[], map[], stored, horizon));
    answers := PushAll(c, pushed);
    start := c.database.derivationIndex;
    known := c.addressMap.Keys;
    ghost var derived, ds, failed := c.derivedIndex, c.database.descriptors, c.notes.failed;
    forall h, i: nat | i < start && YieldedAt(dv, ds, h, i)
      ensures h in known
    {
      YieldedWatched(dv, ds, start, failed, known, derived, h, i);
    }
    FirstStep(dv, ds, start, c.tracked);
    ghost var index := c.utxoIndex.Keys;
    AnyBlocks(c, blocks, start);
    assert c.history == Flatten(blocks);
    forall k: nat, i: nat
      ensures TxStored(dv.spkHash, known, {}, blocks, c.database.txs, k, i)
    {
      TxStoredLess(dv.spkHash, known, index, blocks, c.database.txs, k, i);
    }
    ghost var scan, outs := Scan(Flatten(blocks)), OutsOf(Flatten(blocks));
    forall h | Endless(dv) && Unique(dv, ds) && Orderly(dv, ds, start, outs) && IndexFor(dv, ds, h).Some?
      ensures Listed(c.addressMap, h) == Mine(dv.spkHash, scan, h)
    {
      NothingMissed(dv, ds, start, outs, c.database.derivationIndex, scan, c.addressMap, c.tracked, h);
    }
  }

  datatype Event =
    | Pushed(descriptor: Descriptor)
    | Derived
    | Paid(tx: Transaction, height: nat, index: nat)
    | Reloaded

  /** The index on record for what the output pays, if the wallet has one. */
  ghost function PaidIndex(c: AddressCache, event: Event): Option<nat>
    reads c
  {
    if event.Paid? && event.index < |event.tx.outputs|
    then Get(c.derivedIndex, c.dv.spkHash(event.tx.outputs[event.index].script))
    else None
  }

  /** The batch the event tries, if any, can be derived. */
  ghost predicate BatchFine(c: AddressCache, event: Event)
    reads c
  {
    match event
    case Derived => AllDerivable(c.dv, c.database.descriptors, c.database.derivationIndex, DERIVATION_COUNT)
    case Paid(_, _, _) =>
      PaidIndex(c, event).Some? && PaidIndex(c, event).value + GAP_LIMIT >= c.database.derivationIndex ==>
        AllDerivable(c.dv, c.database.descriptors, c.database.derivationIndex, DERIVATION_COUNT)
    case _ => true
  }

  /** The next batch cannot be derived. */
  ghost predicate Stuck(c: AddressCache)
    reads c
  {
    !AllDerivable(c.dv, c.database.descriptors, c.database.derivationIndex, DERIVATION_COUNT)
  }

  lemma StillStuck(dv: Deriver, ds: seq<Descriptor>, ds': seq<Descriptor>, horizon: nat)
    requires !AllDerivable(dv, ds, horizon, DERIVATION_COUNT) && ds <= ds'
    ensures !AllDerivable(dv, ds', horizon, DERIVATION_COUNT)
  {
    var d :| d in ds && !Derivable(dv, d, horizon, DERIVATION_COUNT);
    assert d in ds';
  }

  /** One event of a run. Loading starts the record of used indexes and failed batches afresh. */
  method Take(before: AddressCache, event: Event) returns (c: AddressCache)
    requires before.Valid() && before.Gapped()
    modifies before
    ensures (c == before || fresh(c)) && c.Valid() && c.Gapped() && c.dv == before.dv
    ensures old(before.database.descriptors) <= c.database.descriptors
    ensures c.database.derivationIndex >= old(before.database.derivationIndex)
    ensures !event.Pushed? ==> c.database.descriptors == old(before.database.descriptors)
    ensures event.Paid? ==>
              c.database.derivationIndex == HorizonAfter(before.dv, c.database.descriptors,
                                                         old(before.database.derivationIndex),
                                                         old(PaidIndex(before, event)))
    ensures old(Stuck(before)) ==> Stuck(c) && c.database.derivationIndex == old(before.database.derivationIndex)
    ensures event.Reloaded? ==> c.notes == Notes(false, false, {})
    ensures !event.Reloaded? ==>
              && c.notes.everFailed == (old(before.notes).everFailed || !old(BatchFine(before, event)))
              && c.notes.used ==
                 old(before.notes).used +
                 if old(PaidIndex(before, event)).Some? then {old(PaidIndex(before, event)).value} else {}
  {
    c := before;
    match event {
      case Pushed(d) =>
        var _ := c.PushDescriptor(d);
        GapGrows(c.notes, old(c.database.derivationIndex), c.database.derivationIndex);
        if old(Stuck(before)) {
          assert old(before.database.descriptors) != [];
          StillStuck(c.dv, old(before.database.descriptors), c.database.descriptors, c.database.derivationIndex);
        }
      case Derived =>
        var _ := c.DeriveAddresses();
        if !c.notes.everFailed {
          GapGrows(c.notes, old(c.database.derivationIndex), c.database.derivationIndex);
        }
      case Paid(tx, height, index) =>
        if index < |tx.outputs| {
          GapStep(c.dv, c.database.descriptors, c.database.derivationIndex, c.notes, c.addressMap.Keys, c.derivedIndex,
                  c.dv.spkHash(tx.outputs[index].script));
          ghost var _ := c.CacheTransaction(tx, height, tx.outputs[index].value, 0, index, false,
                                            c.dv.spkHash(tx.outputs[index].script));
        }
      case Reloaded =>
        c := Reload(c);
    }
  }

  /** With such descriptors no batch fails. */
  lemma EndlessFine(c: AddressCache, event: Event)
    requires c.Valid() && Endless(c.dv)
    ensures BatchFine(c, event)
  {
    EndlessDerivable(c.dv, c.database.descriptors, c.database.derivationIndex, c.notes.failed, c.addressMap.Keys,
                     c.derivedIndex);
  }

  /** The outputs of the payments among the events, in order. */
  function PaidOuts(events: seq<Event>): seq<TxOut> {
    if events == [] then []
    else
      var n := |events| - 1;
      var e := events[n];
      PaidOuts(events[..n]) + if e.Paid? && e.index < |e.tx.outputs| then [e.tx.outputs[e.index]] else []
  }

  /** Over any run of descriptors pushed, batches derived, payments and reloads, every stored descriptor is watched at
      every index below the horizon and the horizon never moves back. If descriptors derive without end and without
      repeats, the gap above each payment below the first horizon is kept to the end, and above every payment if they
      are in order. If the next batch cannot be derived, the horizon never moves again. As long as no batch has failed
      since loading, every recorded index is below the horizon and the gap above every index used since is kept. */
  method AnyDerivations(start: AddressCache, events: seq<Event>) returns (c: AddressCache)
    requires start.Valid() && start.Gapped()
    modifies start
    ensures (c == start || fresh(c)) && c.Valid() && c.Gapped() && c.dv == start.dv
    ensures old(start.database.descriptors) <= c.database.descriptors
    ensures c.database.derivationIndex >= old(start.database.derivationIndex)
    ensures forall d :: d in c.database.descriptors ==>
              Watched(c.dv, c.addressMap.Keys, c.derivedIndex, d, 0, c.database.derivationIndex)
    ensures GapsHold(c.dv, old(start.database.descriptors), old(start.database.derivationIndex), PaidOuts(events),
                     c.database.descriptors, c.database.derivationIndex)
    ensures old(Stuck(start)) ==> Stuck(c) && c.database.derivationIndex == old(start.database.derivationIndex)
    ensures Endless(c.dv) && !old(start.notes).everFailed ==> !c.notes.everFailed
    ensures !c.notes.everFailed ==> forall h :: h in c.derivedIndex ==> c.derivedIndex[h] < c.database.derivationIndex
    ensures !c.notes.everFailed ==> forall i :: i in c.notes.used ==> i + GAP_LIMIT < c.database.derivationIndex
  {
    c := start;
    ghost var first, horizon := start.database.descriptors, start.database.derivationIndex;
    for k := 0 to |events|
      invariant (c == start || fresh(c)) && c.Valid() && c.Gapped() && c.dv == start.dv
      invariant first <= c.database.descriptors && horizon <= c.database.derivationIndex
      invariant Endless(c.dv) && !old(start.notes).everFailed ==> !c.notes.everFailed
      invariant GapsHold(c.dv, first, horizon, PaidOuts(events[..k]), c.database.descriptors,
                         c.database.derivationIndex)
      invariant old(Stuck(start)) ==> Stuck(c) && c.database.derivationIndex == horizon
    {
      c := NextEvent(c, events, k, first, horizon);
    }
    assert events[..|events|] == events;
    forall h | h in c.derivedIndex
      ensures c.derivedIndex[h] < Limit(c.database.derivationIndex, c.notes.failed)
    {
      assert RecordOk(c.dv, c.database.descriptors, Limit(c.database.derivationIndex, c.notes.failed), c.derivedIndex,
                      h);
    }
    forall i | !c.notes.everFailed && i in c.notes.used
      ensures i + GAP_LIMIT < c.database.derivationIndex
    {
      assert BelowGap(i, c.database.derivationIndex);
    }
  }

  lemma OnePayment(events: seq<Event>, k: nat)
    requires k < |events|
    ensures var e := events[k];
            PaidOuts(events[..k + 1]) == if e.Paid? && e.index < |e.tx.outputs|
                                         then PaidOuts(events[..k]) + [e.tx.outputs[e.index]]
                                         else PaidOuts(events[..k])
  {
    assert events[..k + 1][..k] == events[..k];
  }

  method NextEvent(before: AddressCache, events: seq<Event>, k: nat, ghost first: seq<Descriptor>, ghost horizon: nat)
    returns (c: AddressCache)
    requires k < |events| && before.Valid() && before.Gapped()
    requires first <= before.database.descriptors && horizon <= before.database.derivationIndex
    requires GapsHold(before.dv, first, horizon, PaidOuts(events[..k]), before.database.descriptors,
                      before.database.derivationIndex)
    modifies before
    ensures (c == before || fresh(c)) && c.Valid() && c.Gapped() && c.dv == before.dv
    ensures first <= c.database.descriptors && horizon <= c.database.derivationIndex
    ensures Endless(c.dv) && !old(before.notes).everFailed ==> !c.notes.everFailed
    ensures GapsHold(c.dv, first, horizon, PaidOuts(events[..k + 1]), c.database.descriptors,
                     c.database.derivationIndex)
    ensures old(Stuck(before)) ==> Stuck(c) && c.database.derivationIndex == old(before.database.derivationIndex)
  {
    if Endless(before.dv) {
      EndlessFine(before, events[k]);
    }
    c := Take(before, events[k]);
    OnePayment(events, k);
    var e := events[k];
    if e.Paid? && e.index < |e.tx.outputs| {
      GapsPay(c.dv, first, horizon, PaidOuts(events[..k]), e.tx.outputs[e.index], old(before.database.descriptors),
              old(before.database.derivationIndex), old(before.notes).failed, old(before.addressMap.Keys),
              old(before.derivedIndex), c.database.derivationIndex);
    } else {
      GapsGrow(c.dv, first, horizon, PaidOuts(events[..k]), old(before.database.descriptors),
               old(before.database.derivationIndex), c.database.descriptors, c.database.derivationIndex);
    }
  }

  /** What a wallet has stored can be loaded again. */
  method Reload(c: AddressCache) returns (r: AddressCache)
    requires c.Valid()
    ensures fresh(r) && r.Valid() && r.Gapped() && r.notes == Notes(false, false, {}) && r.dv == c.dv
    ensures r.database.descriptors == c.database.descriptors && r.database.derivationIndex == c.database.derivationIndex
  {
    forall d | d in c.database.descriptors
      ensures Derivable(c.dv, d, INDEX_INITIAL, c.database.derivationIndex)
    {
      assert Watched(c.dv, c.addressMap.Keys, c.derivedIndex, d, 0, c.database.derivationIndex);
      WatchedDerivable(c.dv, d, 0, c.database.derivationIndex, c.addressMap.Keys, c.derivedIndex);
    }
    r := new AddressCache(c.dv, c.database);
  }

  // ---------- a gap that is not kept ----------

  /** Descriptors 0 and 1, of which the second yields no script from index 100 on. */
  function ExampleDeriver(): Deriver {
    Deriver(s => s, _ => Some(true), _ => Some(1), (d, _, i) => if d == 1 && i >= 100 then None else Some(1000 * d + i))
  }

  lemma ExampleRecord(ds: seq<Descriptor>, keys: set<Hash>, derived: DerivedIndex)
    requires ds == [0, 1] && HorizonOk(ExampleDeriver(), ds, 100, false, keys, derived)
    ensures 90 in keys && 90 in derived && derived[90] == 90
    ensures !AllDerivable(ExampleDeriver(), ds, 100, DERIVATION_COUNT)
  {
    var dv := ExampleDeriver();
    assert 0 in ds && 1 in ds;
    assert Watched(dv, keys, derived, 0, 0, 100);
    assert WatchedAt(dv, keys, derived, 0, 0, 90) && HashAt(dv, 0, 0, 90) == Some(90);
    assert RecordOk(dv, ds, Limit(100, false), derived, 90);
    assert !Derivable(dv, 1, 100, DERIVATION_COUNT) by {
      assert dv.script(1, 0, 100).None?;
    }
  }

  lemma ExampleDerivable()
    ensures Derivable(ExampleDeriver(), 0, 0, 100) && Derivable(ExampleDeriver(), 1, 0, 100)
  {
  }

  /** A wallet with both of them. */
  method ExampleWallet() returns (c: AddressCache)
    ensures fresh(c) && c.Valid() && c.dv == ExampleDeriver() && c.notes == Notes(false, false, {})
    ensures c.database.descriptors == [0, 1] && c.database.derivationIndex == 100
  {
    ExampleDerivable();
    c := new AddressCache(ExampleDeriver(), Database(map[], map[], [], 0));
    var r := PushUnused(c, 0);
    assert c.database.descriptors == [0] && c.database.derivationIndex == 100;
    r := PushUnused(c, 1);
  }

  /** With both descriptors pushed, a payment to index 90 of the first finds no room for a batch: the horizon stays at
      100 and the gap of 20 is not kept. */
  method GapExample(tx: Transaction) returns (c: AddressCache)
    requires tx.outputs == [TxOut(1, 90)]
    ensures fresh(c) && c.database.descriptors == [0, 1] && c.database.derivationIndex == 100
    ensures 90 in c.notes.used && !BelowGap(90, c.database.derivationIndex)
  {
    c := ExampleWallet();
    ExampleRecord(c.database.descriptors, c.addressMap.Keys, c.derivedIndex);
    ghost var _ := c.CacheTransaction(tx, 1, 1, 0, 0, false, 90);
  }
}
