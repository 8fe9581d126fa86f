/** The compact-filters store: an append-only file, its index, and iteration from a height. */
module FlatFilters {
  import opened Prelude
  import opened MachineInts
  import opened FilterRecords

  datatype FilterError = OversizedBlockFilter | Io

  const HEIGHTS := 0x1_0000_0000

  /** Records at or above a height, in order. */
  function AtLeast(rs: seq<Record>, h: nat): seq<Record> {
    if rs == [] then []
    else if rs[0].height as nat >= h then [rs[0]] + AtLeast(rs[1..], h)
    else AtLeast(rs[1..], h)
  }

  lemma {:induction false} AtLeastAll(rs: seq<Record>, h: nat)
    requires forall j :: 0 <= j < |rs| ==> rs[j].height as nat >= h
    ensures AtLeast(rs, h) == rs
    decreases |rs|
  {
    if rs != [] {
      AtLeastAll(rs[1..], h);
    }
  }

  /** Among increasing heights, those at or above `h` are a suffix. */
  lemma {:induction false} AtLeastSuffix(rs: seq<Record>, h: nat, i: nat)
    requires Increasing(rs) && i <= |rs|
    requires forall j :: 0 <= j < i ==> (rs[j].height as nat) < h
    requires i < |rs| ==> rs[i].height as nat >= h
    ensures AtLeast(rs, h) == rs[i..]
    decreases |rs|
  {
    if i == 0 {
      AtLeastAll(rs, h);
      assert rs[0..] == rs;
    } else {
      AtLeastSuffix(rs[1..], h, i - 1);
      assert rs[1..][i - 1..] == rs[i..];
    }
  }

  /** The length field of a record at `pos`. */
  ghost function LengthAt(data: seq<u8>, pos: nat): nat
    requires pos + 8 <= |data|
  {
    FromLe(data[pos + 4..pos + 8]) as nat
  }

  /** A record with all its content stands at `pos`. */
  ghost predicate WholeAt(data: seq<u8>, pos: nat) {
    pos + 8 <= |data| && pos + 8 + LengthAt(data, pos) <= |data|
  }

  /** A reader over the filters file. */
  class FiltersIterator {
    const data: seq<u8>
    var pos: nat

    constructor (data: seq<u8>, pos: nat)
      ensures this.data == data && this.pos == pos
    {
      this.data := data;
      this.pos := pos;
    }

    /** Reads `n` bytes, or runs to the end of the file and fails. */
    method ReadExact(n: nat) returns (r: Option<seq<u8>>)
      modifies this`pos
      ensures old(pos) + n <= |data| ==> r == Some(data[old(pos)..old(pos) + n]) && pos == old(pos) + n
      ensures old(pos) + n > |data| ==> r == None && pos == (if old(pos) <= |data| then |data| else old(pos))
    {
      if pos + n <= |data| {
        r := Some(data[pos..pos + n]);
        pos := pos + n;
      } else {
        r := None;
        pos := if pos <= |data| then |data| else pos;
      }
    }

    /** Height and length in front of a record. */
    method ReadRecordHeader() returns (r: Option<(u32, u32)>)
      modifies this`pos
      ensures old(pos) + RECORD_HEADER_SIZE <= |data| ==>
                && r == Some((FromLe(data[old(pos)..old(pos) + 4]), FromLe(data[old(pos) + 4..old(pos) + 8])))
                && pos == old(pos) + RECORD_HEADER_SIZE
      ensures old(pos) + RECORD_HEADER_SIZE > |data| ==>
                r == None && pos >= old(pos) && (old(pos) <= |data| ==> pos == |data|)
    {
      var height := ReadExact(4);
      if height.None? {
        return None;
      }
      var length := ReadExact(4);
      if length.None? {
        return None;
      }
      return Some((FromLe(height.value), FromLe(length.value)));
    }

    /** The file holds the records `rs`, and the reader stands in front of record `i`. */
    ghost predicate At(rs: seq<Record>, i: nat)
      reads this
    {
      && AllFit(rs) && |data| >= HEADER_SIZE && data[HEADER_SIZE..] == EncodeAll(rs)
      && i <= |rs| && pos == Offset(rs, i)
    }

    /** The next record, if all of it is there. `withinDebugLimit` is what the debug assertion on its length evaluates
        to: it fails already for a record of exactly the largest size that can be stored. */
    method Next(ghost rs: seq<Record>, ghost i: nat) returns (r: Option<(u32, seq<u8>)>, withinDebugLimit: bool)
      modifies this`pos
      // on any file at all
      ensures r.Some? <==> WholeAt(data, old(pos))
      ensures r.Some? ==>
                && pos == old(pos) + 8 + LengthAt(data, old(pos))
                && r.value == (FromLe(data[old(pos)..old(pos) + 4]), data[old(pos) + 8..pos])
      ensures withinDebugLimit <==> old(pos) + 8 <= |data| ==> LengthAt(data, old(pos)) < 1_000_000
      // on a file of records
      ensures old(At(rs, i)) && i < |rs| ==> r == Some((rs[i].height, rs[i].content)) && At(rs, i + 1)
      ensures old(At(rs, i)) && i == |rs| ==> r == None && At(rs, i)
      ensures old(At(rs, i)) ==> (withinDebugLimit <==> !(i < |rs| && |rs[i].content| >= 1_000_000))
    {
      if At(rs, i) {
        HeadAt(data, rs, i);
      }
      var head := ReadRecordHeader();
      if head.None? {
        return None, true;
      }
      var length := head.value.1 as nat;
      withinDebugLimit := length < 1_000_000;
      var content := ReadExact(length);
      if content.None? {
        return None, withinDebugLimit;
      }
      return Some((head.value.0, content.value)), withinDebugLimit;
    }

    /** Repeated `Next`, until there is nothing more. */
    method Drain(ghost rs: seq<Record>, ghost from: nat) returns (out: seq<Record>)
      requires At(rs, from)
      modifies this`pos
      ensures out == rs[from..]
    {
      out := [];
      ghost var i := from;
      while true
        invariant At(rs, i) && from <= i
        invariant out == rs[from..i]
        decreases |rs| - i
      {
        var item, _ := Next(rs, i);
        if item.None? {
          assert rs[from..|rs|] == rs[from..];
          break;
        }
        OneMore(rs, from, i);
        out := out + [Record(item.value.0, item.value.1)];
        i := i + 1;
      }
    }
  }

  lemma OneMore(rs: seq<Record>, from: nat, i: nat)
    requires from <= i < |rs|
    ensures rs[from..i + 1] == rs[from..i] + [Record(rs[i].height, rs[i].content)]
  {
  }

  lemma SubSlice(s: seq<u8>, from: nat, to: nat, a: nat, b: nat)
    requires from <= to <= |s| && a <= b <= to - from
    ensures s[from..to][a..b] == s[from + a..from + b]
  {
    forall i | 0 <= i < b - a
      ensures s[from..to][a..b][i] == s[from + a..from + b][i]
    {
      assert s[from..to][a + i] == s[from + (a + i)];
    }
  }

  lemma EncodedParts(data: seq<u8>, r: Record, from: nat, to: nat)
    requires Fits(r) && from <= to <= |data| && data[from..to] == Encode(r)
    ensures to == from + RECORD_HEADER_SIZE + |r.content|
    ensures FromLe(data[from..from + 4]) == r.height
    ensures FromLe(data[from + 4..from + 8]) as nat == |r.content|
    ensures data[from + 8..to] == r.content
  {
    var e := Encode(r);
    SubSlice(data, from, to, 0, 4);
    SubSlice(data, from, to, 4, 8);
    SubSlice(data, from, to, 8, |e|);
    assert e[0..4] == ToLe(r.height);
    assert e[4..8] == ToLe(|r.content| as u32);
  }

  /** What a reader finds in front of record `i`. */
  lemma HeadAt(data: seq<u8>, rs: seq<Record>, i: nat)
    requires AllFit(rs) && |data| >= HEADER_SIZE && data[HEADER_SIZE..] == EncodeAll(rs) && i <= |rs|
    ensures i == |rs| ==> Offset(rs, i) == |data|
    ensures i < |rs| ==>
              var pos := Offset(rs, i);
              && pos + RECORD_HEADER_SIZE + |rs[i].content| == Offset(rs, i + 1) <= |data|
              && FromLe(data[pos..pos + 4]) == rs[i].height
              && FromLe(data[pos + 4..pos + 8]) as nat == |rs[i].content|
              && data[pos + 8..pos + 8 + |rs[i].content|] == rs[i].content
  {
    FileEnd(data, rs);
    if i < |rs| {
      RecordAt(data, rs, i);
      EncodedParts(data, rs[i], Offset(rs, i), Offset(rs, i + 1));
    }
  }

  // ---------- seeking ----------

  /** The last written position among the first `n` entries. */
  method LastWritten(index: seq<nat>, n: nat) returns (pos: nat)
    requires n <= |index|
    ensures (pos == HEADER_SIZE && forall k :: 0 <= k < n ==> index[k] == 0) ||
            exists k :: 0 <= k < n && pos == index[k] && index[k] != 0 && forall l :: k < l < n ==> index[l] == 0
  {
    var k: nat := n;
    while k > 0
      invariant k <= n
      invariant forall l :: k <= l < n ==> index[l] == 0
    {
      k := k - 1;
      if index[k] != 0 {
        return index[k];
      }
    }
    return HEADER_SIZE;
  }

  /** `i` is the first record from `from` on at or above height `h`. */
  ghost predicate FirstFrom(rs: seq<Record>, from: nat, h: nat, i: nat) {
    && from <= i <= |rs|
    && (forall j :: from <= j < i ==> (rs[j].height as nat) < h)
    && (i < |rs| ==> rs[i].height as nat >= h)
  }

  /** Reading for height `h` starts at the last record at a multiple of 1,000 that is not past the multiple before
      `h`, or at the first record. */
  ghost predicate SeekFrom(rs: seq<Record>, h: nat, from: nat) {
    && (from == 0 || (from < |rs| && OnInterval(rs[from]) && rs[from].height as nat / 1_000 <= h / 1_000))
    && forall j :: from < j < |rs| && OnInterval(rs[j]) ==> rs[j].height as nat / 1_000 > h / 1_000
  }

  /** The last position written among the entries up to that of `h` is where to start. */
  lemma SeekSound(rs: seq<Record>, h: nat, n: nat, k: nat) returns (from: nat)
    requires AllFit(rs) && Increasing(rs)
    requires var index := IndexOf(rs);
             && n == (if h / 1_000 + 1 <= |index| then h / 1_000 + 1 else |index|)
             && k < n && index[k] != 0 && forall l :: k < l < n ==> index[l] == 0
    ensures SeekFrom(rs, h, from) && from <= |rs| && IndexOf(rs)[k] == Offset(rs, from)
  {
    var index := IndexOf(rs);
    IndexEntries(rs);
    assert EntryOk(rs, index, k);
    if k == 0 {
      from := 0;
    } else {
      from :| EntryFor(rs, k, from);
      assert EntryOf(rs, index, from);
    }
    forall j | from < j < |rs| && OnInterval(rs[j])
      ensures rs[j].height as nat / 1_000 > h / 1_000
    {
      assert EntryOf(rs, index, j) && rs[from].height < rs[j].height;
    }
  }

  /** Nothing before the starting place is wanted. */
  lemma SeekSkips(rs: seq<Record>, h: nat, from: nat)
    requires Increasing(rs) && SeekFrom(rs, h, from)
    ensures from < |rs| || from == 0
    ensures forall j :: 0 <= j < from ==> (rs[j].height as nat) < h
  {
  }

  ghost predicate Above(rs: seq<Record>, height: u32) {
    forall i :: 0 <= i < |rs| ==> rs[i].height < height
  }

  /** What is written for a filter of any size: the length field holds its low 32 bits. */
  function RawRecord(height: u32, content: seq<u8>): seq<u8> {
    ToLe(height) + ToLe((|content| % HEIGHTS) as u32) + content
  }

  lemma RawIsEncode(r: Record)
    requires Fits(r)
    ensures RawRecord(r.height, r.content) == Encode(r)
  {
  }

  lemma AppendKeeps(file: seq<u8>, rs: seq<Record>, r: Record)
    requires FileHolds(file, rs) && Fits(r) && Above(rs, r.height)
    ensures FileHolds(file + RawRecord(r.height, r.content), rs + [r])
    ensures IndexOf(rs + [r]) ==
            if r.height % INDEX_INTERVAL as u32 == 0 then WriteIndexEntry(IndexOf(rs), r.height, |file|)
            else IndexOf(rs)
  {
    var next := rs + [r];
    assert next[..|rs|] == rs;
    FileEnd(file, rs);
    RawIsEncode(r);
    assert (file + Encode(r))[HEADER_SIZE..] == file[HEADER_SIZE..] + Encode(r);
  }

  /** Without a height in front, the first four bytes of the record are taken for one. */
  lemma FirstRecordLost(r: Record)
    requires Fits(r)
    ensures !FileHolds(RawRecord(r.height, r.content), [r])
  {
    RawIsEncode(r);
    assert EncodeAll([r]) == Encode(r) by {
      assert [r][..0] == [] && [r][1..] == [];
    }
  }

  /** Rewriting entry 0 completes an index exactly if its other entries are right. */
  lemma FirstEntry(index: seq<nat>, right: seq<nat>)
    requires index != [] && right != [] && right[0] == HEADER_SIZE
    ensures index[0 := HEADER_SIZE] == right <==> index[1..] == right[1..]
  {
    var rewritten := index[0 := HEADER_SIZE];
    assert rewritten == [HEADER_SIZE] + index[1..] && right == [HEADER_SIZE] + right[1..];
    assert ([HEADER_SIZE] + index[1..])[1..] == index[1..] && ([HEADER_SIZE] + right[1..])[1..] == right[1..];
  }

  class FlatFiltersStore {
    /** The filters file: a height in four bytes, then the records. */
    var file: seq<u8>

    /** The index file, as its 64-bit entries. */
    var index: seq<nat>

    /** The file holds exactly the records `rs`, and the index belongs to them. */
    ghost predicate Holds(rs: seq<Record>)
      reads this
    {
      && FileHolds(file, rs)
      && index == IndexOf(rs)
    }

    /** The height written in front of the records, if any. */
    ghost var recorded: Option<u32>

    /** The files hold the records `rs`, or are new and hold nothing yet, not even a height. */
    ghost predicate Ready(rs: seq<Record>)
      reads this
    {
      && (FileHolds(file, rs) || (file == [] && rs == []))
      && index == IndexOf(rs)
      && HeightKept()
    }

    ghost predicate HeightKept()
      reads this
    {
      recorded == if |file| >= HEADER_SIZE then Some(FromLe(file[..HEADER_SIZE])) else None
    }

    /** Opens the store on existing or new files: entry 0 is always rewritten, and an empty index is rebuilt from the
        records; what else an index file holds is taken as it is. The result is the index that appending those records
        would have left exactly if the file was empty or held the entries of that index after the first. A rebuilt
        index goes up to the first record over the limit. */
    constructor Open(file: seq<u8>, index: seq<nat>, ghost rs: seq<Record>)
      requires FileHolds(file, rs) || (file == [] && rs == [])
      ensures this.file == file && HeightKept()
      ensures index != [] ==> this.index == index[0 := HEADER_SIZE]
      ensures index == [] ==> exists n: nat :: SmallUpTo(rs, n) && this.index == IndexOf(rs[..n])
      ensures index != [] || AllSmall(rs) ==> (Ready(rs) <==> index == [] || index[1..] == IndexOf(rs)[1..])
      ensures Ready(rs) && FileHolds(file, rs) ==> Holds(rs)
    {
      var rebuilt := index;
      IndexEntries(rs);
      if index == [] {
        ghost var n;
        rebuilt, n := BuildIndex(file, [HEADER_SIZE], rs);
      } else {
        rebuilt := index[0 := HEADER_SIZE];
        assert EntryOk(rs, IndexOf(rs), 0);
        FirstEntry(index, IndexOf(rs));
      }
      this.file := file;
      this.index := rebuilt;
      recorded := if |file| >= HEADER_SIZE then Some(FromLe(file[..HEADER_SIZE])) else None;
    }

    /** Writes the height in front of the records, which makes new files hold none. */
    method SetHeight(height: u32, ghost rs: seq<Record>)
      requires Ready(rs)
      modifies this`file, this`recorded
      ensures Holds(rs) && Ready(rs) && recorded == Some(height)
    {
      file := ToLe(height) + if |file| >= HEADER_SIZE then file[HEADER_SIZE..] else [];
      assert file[HEADER_SIZE..] == EncodeAll(rs) && file[..HEADER_SIZE] == ToLe(height);
      recorded := Some(height);
    }

    /** The height written last, whatever was appended since; an error on new files. */
    method GetHeight(ghost rs: seq<Record>) returns (r: Result<u32, FilterError>)
      requires Ready(rs)
      ensures r == match recorded { case Some(height) => Ok(height) case None => Err(Io) }
    {
      r := if |file| >= HEADER_SIZE then Ok(FromLe(file[..HEADER_SIZE])) else Err(Io);
    }

    /** Appends a filter. The length is cut to 32 bits before it is checked. */
    method PutFilter(content: seq<u8>, height: u32, ghost rs: seq<Record>) returns (r: Result<(), FilterError>)
      modifies this`file, this`index
      ensures r == if |content| % 0x1_0000_0000 > 1_000_000 then Err(OversizedBlockFilter) else Ok(())
      ensures r.Err? ==> file == old(file) && index == old(index)
      ensures r.Ok? ==>
                && file == old(file) + RawRecord(height, content)
                && index == Indexed(old(index), height, |old(file)|)
      ensures r.Ok? && old(Holds(rs)) && |content| <= 1_000_000 && Above(rs, height) ==>
                Holds(rs + [Record(height, content)])
      // on new files the record is kept exactly if a height was set first
      ensures r.Ok? && old(Ready(rs)) && |content| <= 1_000_000 && Above(rs, height) ==>
                (Holds(rs + [Record(height, content)]) <==> |old(file)| >= HEADER_SIZE)
      ensures old(HeightKept()) && |old(file)| >= HEADER_SIZE ==> HeightKept()
    {
      if |content| % HEIGHTS > MAX_FILTER_SIZE {
        return Err(OversizedBlockFilter);
      }
      if FileHolds(file, rs) && |content| <= MAX_FILTER_SIZE && Above(rs, height) {
        AppendKeeps(file, rs, Record(height, content));
      }
      if file == [] && |content| <= MAX_FILTER_SIZE {
        FirstRecordLost(Record(height, content));
      }
      index := Indexed(index, height, |file|);
      assert |file| >= HEADER_SIZE ==> (file + RawRecord(height, content))[..HEADER_SIZE] == file[..HEADER_SIZE];
      file := file + RawRecord(height, content);
      return Ok(());
    }

    /** A reader in front of the first record at or above the given height, cut to 32 bits, among those from the
        indexed position on; an error exactly if a record over the limit has to be walked over. */
    method Iter(startHeight: Option<nat>, ghost rs: seq<Record>)
      returns (r: Result<FiltersIterator, FilterError>, ghost from: nat, ghost i: nat)
      requires Holds(rs)
      ensures var h := if startHeight.Some? then startHeight.value else 0;
              SeekFrom(rs, h, from) && FirstFrom(rs, from, h % HEIGHTS, i)
      ensures r.Ok? <==> forall j :: from <= j < i ==> Small(rs[j])
      ensures r.Ok? ==> fresh(r.value) && r.value.At(rs, i)
      ensures r.Err? ==> r.error == OversizedBlockFilter
    {
      var wanted := if startHeight.Some? then startHeight.value else 0;
      var entry := wanted / INDEX_INTERVAL;
      var start := wanted % HEIGHTS;
      var n := if entry + 1 <= |index| then entry + 1 else |index|;
      var pos := LastWritten(index, n);
      IndexEntries(rs);
      assert EntryOk(rs, index, 0);
      ghost var k :| 0 <= k < n && pos == index[k] && index[k] != 0 && forall l :: k < l < n ==> index[l] == 0;
      from := SeekSound(rs, wanted, n, k);
      SeekSkips(rs, wanted, from);
      var reader := new FiltersIterator(file, pos);
      var skipped;
      skipped, i := SkipBelow(reader, start, rs, from);
      r := match skipped
        case Ok(_) => Ok(reader)
        case Err(e) => Err(e);
    }

    /** Everything read from a start height on. For heights of 32 bits it is exactly the records at or above it,
        for every pattern of gaps in the index. A larger start height, at which no record can be, is cut to its
        low 32 bits: the answer is still right exactly when no record is at or above those. It fails exactly if a
        record over the limit stands between the indexed position and the first record wanted. */
    method ReadFrom(startHeight: Option<nat>, ghost rs: seq<Record>)
      returns (r: Result<seq<Record>, FilterError>, ghost from: nat)
      requires Holds(rs)
      ensures SeekFrom(rs, if startHeight.Some? then startHeight.value else 0, from)
      ensures r.Err? <==> startHeight.Some? && Blocked(rs, startHeight.value % HEIGHTS, from)
      ensures r.Err? ==> r.error == OversizedBlockFilter
      ensures startHeight.None? ==> r == Ok(rs)
      ensures r.Ok? && startHeight.Some? && startHeight.value < HEIGHTS ==> r.value == AtLeast(rs, startHeight.value)
      ensures r.Ok? && startHeight.Some? && startHeight.value >= HEIGHTS ==>
                (r.value == AtLeast(rs, startHeight.value) <==>
                 rs == [] || (rs[|rs| - 1].height as nat) < startHeight.value % HEIGHTS)
    {
      ghost var i;
      var reader;
      reader, from, i := Iter(startHeight, rs);
      ghost var h := if startHeight.Some? then startHeight.value else 0;
      BlockedIs(rs, h % HEIGHTS, from, i);
      SeekSkips(rs, h, from);
      if reader.Err? {
        return Err(reader.error), from;
      }
      var out := reader.value.Drain(rs, i);
      SeekRefinesScan(rs, h, from, i);
      r := Ok(out);
    }
  }

  lemma {:induction false} AtLeastNone(rs: seq<Record>, h: nat)
    requires h >= HEIGHTS
    ensures AtLeast(rs, h) == []
    decreases |rs|
  {
    if rs != [] {
      AtLeastNone(rs[1..], h);
    }
  }

  /** A record over the limit is met from `from` on before one at or above `h`. */
  ghost predicate Blocked(rs: seq<Record>, h: nat, from: nat) {
    exists j :: from <= j < |rs| && (rs[j].height as nat) < h && !Small(rs[j])
  }

  lemma BlockedIs(rs: seq<Record>, h: nat, from: nat, i: nat)
    requires Increasing(rs) && FirstFrom(rs, from, h, i)
    ensures Blocked(rs, h, from) <==> !forall j :: from <= j < i ==> Small(rs[j])
  {
  }

  /** Seeking through the index and skipping gives the same records as scanning them all. */
  lemma SeekRefinesScan(rs: seq<Record>, h: nat, from: nat, i: nat)
    requires Increasing(rs) && FirstFrom(rs, from, h % HEIGHTS, i)
    requires from < |rs| || from == 0
    requires forall j :: 0 <= j < from ==> (rs[j].height as nat) < h
    ensures h == 0 ==> rs[i..] == rs
    ensures h < HEIGHTS ==> rs[i..] == AtLeast(rs, h)
    ensures h >= HEIGHTS ==> (rs[i..] == AtLeast(rs, h) <==> rs == [] || (rs[|rs| - 1].height as nat) < h % HEIGHTS)
  {
    if h < HEIGHTS {
      AtLeastSuffix(rs, h, i);
    } else {
      AtLeastNone(rs, h);
    }
  }

  /** The file holds a height and then exactly the records `rs`, at increasing heights and within the size limit. */
  ghost predicate FileHolds(file: seq<u8>, rs: seq<Record>) {
    && AllFit(rs) && Increasing(rs)
    && |file| >= HEADER_SIZE && file[HEADER_SIZE..] == EncodeAll(rs)
  }

  /** Walks over the records below a height, but not over one that is too large. */
  method SkipBelow(reader: FiltersIterator, start: nat, ghost rs: seq<Record>, ghost from: nat)
    returns (r: Result<(), FilterError>, ghost i: nat)
    requires reader.At(rs, from) && Increasing(rs)
    modifies reader`pos
    ensures FirstFrom(rs, from, start, i)
    ensures r.Ok? <==> forall j :: from <= j < i ==> Small(rs[j])
    ensures r.Ok? ==> reader.At(rs, i)
    ensures r.Err? ==> r.error == OversizedBlockFilter
  {
    i := from;
    while true
      invariant reader.At(rs, i) && from <= i
      invariant forall j :: from <= j < i ==> (rs[j].height as nat) < start && Small(rs[j])
      decreases |rs| - i
    {
      HeadAt(reader.data, rs, i);
      var head := reader.ReadRecordHeader();
      if head.None? {
        break;
      }
      if head.value.0 as nat >= start {
        reader.pos := reader.pos - RECORD_HEADER_SIZE;
        break;
      }
      if head.value.1 as nat > MAX_FILTER_SIZE {
        ghost var large := i;
        i := FirstAbove(rs, start, i);
        assert !Small(rs[large]);
        return Err(OversizedBlockFilter), i;
      }
      reader.pos := reader.pos + head.value.1 as nat;
      i := i + 1;
    }
    r := Ok(());
  }

  lemma FirstAbove(rs: seq<Record>, start: nat, from: nat) returns (i: nat)
    requires Increasing(rs) && from < |rs| && (rs[from].height as nat) < start
    ensures from < i && FirstFrom(rs, from, start, i)
  {
    i := from + 1;
    while i < |rs| && (rs[i].height as nat) < start
      invariant from < i <= |rs| && forall j :: from <= j < i ==> (rs[j].height as nat) < start
    {
      i := i + 1;
    }
  }

  /** One height in so many gets an entry. */
  function Indexed(index: seq<nat>, height: u32, pos: nat): seq<nat> {
    if height % INDEX_INTERVAL as u32 == 0 then WriteIndexEntry(index, height, pos) else index
  }

  /** What the rebuilding adds to the index for record `i`. */
  lemma NextEntry(file: seq<u8>, rs: seq<Record>, i: nat)
    requires (FileHolds(file, rs) || (file == [] && rs == [])) && i <= |rs|
    ensures i == |rs| ==> rs[..i] == rs
    ensures i < |rs| ==> IndexOf(rs[..i + 1]) == Indexed(IndexOf(rs[..i]), rs[i].height, Offset(rs, i))
  {
    if i < |rs| {
      IndexStep(rs, i);
    }
  }

  /** What it finds in front of it. */
  lemma NextHead(file: seq<u8>, rs: seq<Record>, i: nat)
    requires (FileHolds(file, rs) || (file == [] && rs == [])) && i <= |rs|
    ensures i == |rs| ==> Offset(rs, i) + RECORD_HEADER_SIZE > |file|
    ensures i < |rs| ==>
              var pos := Offset(rs, i);
              && pos + RECORD_HEADER_SIZE + |rs[i].content| == Offset(rs, i + 1) <= |file| && Fits(rs[i])
              && FromLe(file[pos..pos + 4]) == rs[i].height
              && FromLe(file[pos + 4..pos + 8]) as nat == |rs[i].content|
  {
    if file != [] {
      HeadAt(file, rs, i);
    }
  }

  /** Reads height and length in front of record `i`, or nothing at the end. */
  method ReadHead(reader: FiltersIterator, ghost rs: seq<Record>, ghost i: nat) returns (head: Option<(u32, u32)>)
    requires (FileHolds(reader.data, rs) || (reader.data == [] && rs == [])) && i <= |rs| && reader.pos == Offset(rs, i)
    modifies reader`pos
    ensures i == |rs| ==> head.None?
    ensures i < |rs| ==>
              && head.Some? && head.value.0 == rs[i].height && head.value.1 as nat == |rs[i].content|
              && reader.pos + |rs[i].content| == Offset(rs, i + 1)
              && reader.pos == Offset(rs, i) + RECORD_HEADER_SIZE
  {
    NextHead(reader.data, rs, i);
    head := reader.ReadRecordHeader();
  }

  /** The records in front of the first one over the limit, which are all if there is none. */
  ghost predicate SmallUpTo(rs: seq<Record>, n: nat) {
    && n <= |rs| && (forall j :: 0 <= j < n ==> Small(rs[j]))
    && (n < |rs| ==> !Small(rs[n]))
  }

  /** Rebuilds the index by reading every record, up to one that is too large. */
  method BuildIndex(file: seq<u8>, start: seq<nat>, ghost rs: seq<Record>) returns (index: seq<nat>, ghost n: nat)
    requires (FileHolds(file, rs) || (file == [] && rs == [])) && start == [HEADER_SIZE]
    ensures SmallUpTo(rs, n) && index == IndexOf(rs[..n])
    ensures AllSmall(rs) ==> index == IndexOf(rs)
  {
    var reader := new FiltersIterator(file, HEADER_SIZE);
    var pos := HEADER_SIZE;
    index := start;
    ghost var i := 0;
    while true
      invariant reader.data == file && i <= |rs| && pos == reader.pos == Offset(rs, i)
      invariant index == IndexOf(rs[..i]) && forall j :: 0 <= j < i ==> Small(rs[j])
      decreases |rs| - i
    {
      NextEntry(file, rs, i);
      var head := ReadHead(reader, rs, i);
      if head.None? {
        break;
      }
      var height, length := head.value.0, head.value.1 as nat;
      if length > MAX_FILTER_SIZE {
        break;
      }
      index := Indexed(index, height, pos);
      reader.pos := reader.pos + length;
      pos := pos + RECORD_HEADER_SIZE + length;
      i := i + 1;
    }
    n := i;
    assert rs[..|rs|] == rs;
  }

  method AppendAll(store: FlatFiltersStore, rs: seq<Record>)
    requires AllSmall(rs) && Increasing(rs) && store.Holds([]) && store.HeightKept()
    modifies store`file, store`index
    ensures store.Holds(rs) && store.HeightKept()
  {
    for i := 0 to |rs|
      invariant store.Holds(rs[..i]) && store.HeightKept()
    {
      NextAppend(rs, i);
      AppendOne(store, rs[i], rs[..i]);
    }
    assert rs[..|rs|] == rs;
  }

  lemma NextAppend(rs: seq<Record>, i: nat)
    requires AllSmall(rs) && Increasing(rs) && i < |rs|
    ensures rs[..i + 1] == rs[..i] + [rs[i]] && Small(rs[i]) && Above(rs[..i], rs[i].height)
  {
  }

  method AppendOne(store: FlatFiltersStore, r: Record, ghost rs: seq<Record>)
    requires store.Holds(rs) && store.HeightKept() && Small(r) && Above(rs, r.height)
    modifies store`file, store`index
    ensures store.Holds(rs + [r]) && store.HeightKept()
  {
    ghost var short := |r.content|;
    assert short % HEIGHTS == short;
    assert r == Record(r.height, r.content);
    var result := store.PutFilter(r.content, r.height, rs);
    assert result.Ok?;
  }

  /** Filters appended to a new store at increasing heights, whatever the gaps, come back in order from any
      height on, also after the store was reopened with or without its index, and so does the height in front. */
  method AnyAppends(rs: seq<Record>, height: u32, start: nat, keepIndex: bool)
    returns (out: Result<seq<Record>, FilterError>, again: Result<seq<Record>, FilterError>,
             first: Result<u32, FilterError>)
    requires AllSmall(rs) && Increasing(rs) && start < HEIGHTS
    ensures out == again == Ok(AtLeast(rs, start)) && first == Ok(height)
  {
    var store := new FlatFiltersStore.Open([], [], []);
    store.SetHeight(height, []);
    AppendAll(store, rs);
    ghost var from;
    out, from := store.ReadFrom(Some(start), rs);
    var reopened := new FlatFiltersStore.Open(store.file, if keepIndex then store.index else [], rs);
    again, from := reopened.ReadFrom(Some(start), rs);
    first := reopened.GetHeight(rs);
  }
}
