/**
  The filters file as a sequence of records, and the sparse index of their
  positions: one entry for every thousandth height that has a filter.
 */
module FilterRecords {
  import opened MachineInts

  const MAX_FILTER_SIZE := 1_000_000
  const HEADER_SIZE := 4
  const RECORD_HEADER_SIZE := 8
  const INDEX_INTERVAL := 1_000

  datatype Record = Record(height: u32, content: seq<u8>)

  /** The length of the content fits its field. */
  predicate Fits(r: Record) {
    |r.content| < 0x1_0000_0000
  }

  /** The content is within the limit for a filter. */
  predicate Small(r: Record) {
    |r.content| <= MAX_FILTER_SIZE
  }

  /** Height, length and content of a record. */
  ghost function Encode(r: Record): (b: seq<u8>)
    requires Fits(r)
    ensures |b| == RECORD_HEADER_SIZE + |r.content|
  {
    ToLe(r.height) + ToLe(|r.content| as u32) + r.content
  }

  ghost predicate AllFit(rs: seq<Record>) {
    forall i :: 0 <= i < |rs| ==> Fits(rs[i])
  }

  ghost predicate AllSmall(rs: seq<Record>) {
    forall i :: 0 <= i < |rs| ==> Small(rs[i])
  }

  ghost function EncodeAll(rs: seq<Record>): seq<u8>
    requires AllFit(rs)
  {
    if rs == [] then []
    else
      var n := |rs| - 1;
      EncodeAll(rs[..n]) + Encode(rs[n])
  }

  /** Where record `i` starts in the file; for `i == |rs|`, where the file ends. */
  ghost function Offset(rs: seq<Record>, i: nat): nat
    requires AllFit(rs) && i <= |rs|
  {
    HEADER_SIZE + |EncodeAll(rs[..i])|
  }

  /** Records are appended at strictly increasing heights. */
  ghost predicate Increasing(rs: seq<Record>) {
    forall i, j :: 0 <= i < j < |rs| ==> rs[i].height < rs[j].height
  }

  lemma OffsetStep(rs: seq<Record>, i: nat)
    requires AllFit(rs) && i < |rs|
    ensures Offset(rs, i + 1) == Offset(rs, i) + RECORD_HEADER_SIZE + |rs[i].content|
  {
    assert rs[..i + 1][..i] == rs[..i];
  }

  lemma {:induction false} EncodeSplit(rs: seq<Record>, i: nat)
    requires AllFit(rs) && i <= |rs|
    ensures EncodeAll(rs[..i]) <= EncodeAll(rs)
    decreases |rs|
  {
    if i == |rs| {
      assert rs[..i] == rs;
    } else {
      var n := |rs| - 1;
      EncodeSplit(rs[..n], i);
      assert rs[..n][..i] == rs[..i];
    }
  }

  /** The bytes of record `i` stand at its offset. */
  lemma RecordAt(file: seq<u8>, rs: seq<Record>, i: nat)
    requires AllFit(rs) && |file| >= HEADER_SIZE && file[HEADER_SIZE..] == EncodeAll(rs) && i < |rs|
    ensures Offset(rs, i) + RECORD_HEADER_SIZE + |rs[i].content| == Offset(rs, i + 1) <= |file|
    ensures file[Offset(rs, i)..Offset(rs, i + 1)] == Encode(rs[i])
  {
    OffsetStep(rs, i);
    EncodeSplit(rs, i + 1);
    assert rs[..i + 1][..i] == rs[..i];
    var from, to := |EncodeAll(rs[..i])|, |EncodeAll(rs[..i + 1])|;
    assert EncodeAll(rs[..i + 1])[from..] == Encode(rs[i]);
    assert file[Offset(rs, i)..Offset(rs, i + 1)] == file[HEADER_SIZE..][from..to];
  }

  lemma FileEnd(file: seq<u8>, rs: seq<Record>)
    requires AllFit(rs) && |file| >= HEADER_SIZE && file[HEADER_SIZE..] == EncodeAll(rs)
    ensures Offset(rs, |rs|) == |file|
  {
    assert rs[..|rs|] == rs;
  }

  // ---------- the index ----------

  function Zeros(n: nat): (z: seq<nat>)
    ensures |z| == n && forall i :: 0 <= i < n ==> z[i] == 0
  {
    seq(n, _ => 0)
  }

  /** Writing an entry past the end of the index file leaves zeros in between. */
  function WriteIndexEntry(index: seq<nat>, height: u32, offset: nat): (r: seq<nat>)
    ensures height as nat / INDEX_INTERVAL < |r| && r[height as nat / INDEX_INTERVAL] == offset
    ensures |r| >= |index|
    ensures forall k :: 0 <= k < |r| && k != height as nat / INDEX_INTERVAL ==>
              r[k] == if k < |index| then index[k] else 0
  {
    var entry := height as nat / INDEX_INTERVAL;
    if entry < |index| then index[entry := offset]
    else index + Zeros(entry - |index|) + [offset]
  }

  /** The index for a file of records: entry 0 names the first record, entry `k` the record at height
      `k * INDEX_INTERVAL` if there is one. */
  ghost function IndexOf(rs: seq<Record>): (index: seq<nat>)
    requires AllFit(rs)
    ensures |index| >= 1
  {
    if rs == [] then [HEADER_SIZE]
    else
      var n := |rs| - 1;
      if rs[n].height % INDEX_INTERVAL as u32 == 0 then WriteIndexEntry(IndexOf(rs[..n]), rs[n].height, Offset(rs, n))
      else IndexOf(rs[..n])
  }

  ghost predicate OnInterval(r: Record) {
    r.height % 1_000 == 0
  }

  /** A record at a multiple of 1,000 has its offset in the entry of that multiple. */
  ghost predicate EntryOf(rs: seq<Record>, index: seq<nat>, i: nat)
    requires AllFit(rs) && i < |rs|
  {
    OnInterval(rs[i]) ==>
      var k := rs[i].height as nat / 1_000;
      k < |index| && index[k] == Offset(rs, i)
  }

  /** Entry `k` is for record `i`. */
  ghost predicate EntryFor(rs: seq<Record>, k: nat, i: nat) {
    i < |rs| && rs[i].height as nat == k * 1_000
  }

  /** An entry is zero or there is a record for it; entry 0 always names the first record's place. */
  ghost predicate EntryOk(rs: seq<Record>, index: seq<nat>, k: nat)
    requires k < |index|
  {
    if k == 0 then index[k] == 4 else index[k] == 0 || exists i: nat :: EntryFor(rs, k, i)
  }

  /** Exactly the records at multiples of 1,000 are in the index, and it ends with the last of them. */
  ghost predicate Indexes(rs: seq<Record>, index: seq<nat>)
    requires AllFit(rs)
  {
    && |index| >= 1
    && (forall i: nat :: i < |rs| ==> EntryOf(rs, index, i))
    && (forall k: nat :: k < |index| ==> EntryOk(rs, index, k))
    && index[|index| - 1] != 0
  }

  lemma OffsetPrefix(rs: seq<Record>, n: nat, i: nat)
    requires AllFit(rs) && i <= n <= |rs|
    ensures Offset(rs[..n], i) == Offset(rs, i)
  {
    assert rs[..n][..i] == rs[..i];
  }

  /** One record more at the end. */
  lemma IndexesMore(rs: seq<Record>, n: nat, index: seq<nat>, index': seq<nat>)
    requires AllFit(rs) && Increasing(rs) && n + 1 == |rs| && Indexes(rs[..n], index)
    requires index' == if rs[n].height % INDEX_INTERVAL as u32 == 0
                       then WriteIndexEntry(index, rs[n].height, Offset(rs, n)) else index
    ensures Indexes(rs, index')
  {
    forall i: nat | i < |rs|
      ensures EntryOf(rs, index', i)
    {
      if i < n {
        assert EntryOf(rs[..n], index, i) && rs[i].height < rs[n].height;
        OffsetPrefix(rs, n, i);
      }
    }
    forall k: nat | k < |index'|
      ensures EntryOk(rs, index', k)
    {
      EntryKept(rs, n, index, index', k);
    }
  }

  lemma EntryKept(rs: seq<Record>, n: nat, index: seq<nat>, index': seq<nat>, k: nat)
    requires AllFit(rs) && Increasing(rs) && n + 1 == |rs| && Indexes(rs[..n], index)
    requires index' == if rs[n].height % INDEX_INTERVAL as u32 == 0
                       then WriteIndexEntry(index, rs[n].height, Offset(rs, n)) else index
    requires k < |index'|
    ensures EntryOk(rs, index', k)
  {
    if k < |index| && index'[k] == index[k] {
      assert EntryOk(rs[..n], index, k);
      if k > 0 && index[k] != 0 {
        var i: nat :| EntryFor(rs[..n], k, i);
        assert EntryFor(rs, k, i);
      }
    } else if index'[k] != 0 {
      assert EntryFor(rs, k, n);
    }
  }

  /** What the index of a file of records holds. */
  lemma {:induction false} IndexEntries(rs: seq<Record>)
    requires AllFit(rs) && Increasing(rs)
    ensures Indexes(rs, IndexOf(rs))
    decreases |rs|
  {
    if rs != [] {
      var n := |rs| - 1;
      IndexEntries(rs[..n]);
      IndexesMore(rs, n, IndexOf(rs[..n]), IndexOf(rs));
    }
  }

  /** The index grows record by record. */
  lemma IndexStep(rs: seq<Record>, i: nat)
    requires AllFit(rs) && i < |rs|
    ensures IndexOf(rs[..i + 1]) ==
            if rs[i].height % INDEX_INTERVAL as u32 == 0
            then WriteIndexEntry(IndexOf(rs[..i]), rs[i].height, Offset(rs, i))
            else IndexOf(rs[..i])
  {
    assert rs[..i + 1][..i] == rs[..i];
    OffsetPrefix(rs, i + 1, i);
  }
}
