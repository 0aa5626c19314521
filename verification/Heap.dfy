/**
 Heap files (storage/heap.rs): records in slotted pages, and large records as chains of pages.

 A location is a page number and a slot.  What was appended at a location reads back unchanged from
 the finished file, whatever was appended later.
 */
module Heaps {
  import opened Results
  import opened LittleEndian
  import opened PageLayouts
  import opened SlottedPages

  const MAX_RECORD: nat := 16 * 1024 * 1024
  const PAGE_LIMIT: nat := 0x100_0000_0000
  const SLOTS: nat := 0x1_0000
  const CHUNK: nat := MAX_RECORD_SIZE - 13

  // ----- what stands in the pages -----

  /** How many pages a chain takes. */
  function Chunks(total: nat): nat {
    (total + CHUNK - 1) / CHUNK
  }

  function ChunkEnd(total: nat, index: nat): nat {
    if (index + 1) * CHUNK < total then (index + 1) * CHUNK else total
  }

  lemma ChunkBounds(total: nat, index: nat)
    requires index < Chunks(total)
    ensures index * CHUNK < ChunkEnd(total, index) <= total
    ensures ChunkEnd(total, index) <= index * CHUNK + CHUNK
    ensures index + 1 < Chunks(total) ==> ChunkEnd(total, index) == (index + 1) * CHUNK
    ensures index + 1 == Chunks(total) ==> ChunkEnd(total, index) == total
  {
  }

  function Chunk(bytes: seq<byte>, index: nat): seq<byte>
    requires index < Chunks(|bytes|)
  {
    ChunkBounds(|bytes|, index);
    bytes[index * CHUNK..ChunkEnd(|bytes|, index)]
  }

  function FragmentHead(total: nat, index: nat): (r: seq<byte>)
    ensures |r| == 13
  {
    [1] + Le(total, 4) + Le(index, 4) + Le(Chunks(total), 4)
  }

  function Fragment(bytes: seq<byte>, index: nat): seq<byte>
    requires index < Chunks(|bytes|)
  {
    FragmentHead(|bytes|, index) + Chunk(bytes, index)
  }

  ghost predicate Has(pages: seq<seq<Record>>, page: nat, slot: nat, record: seq<byte>) {
    page < |pages| && slot < |pages[page]| && pages[page][slot] == Some(record)
  }

  /** The record of `bytes` is at `location`: inline, or as a chain from its first page on. */
  ghost predicate Stored(pages: seq<seq<Record>>, location: nat, bytes: seq<byte>) {
    if |bytes| < MAX_RECORD_SIZE then Has(pages, location / SLOTS, location % SLOTS, [0] + bytes)
    else
      && |bytes| <= MAX_RECORD && location % SLOTS == 0
      && forall index: nat :: index < Chunks(|bytes|) ==>
         Has(pages, location / SLOTS + index, 0, Fragment(bytes, index))
  }

  /** Later pages, and later records of the last page. */
  ghost predicate Grows(before: seq<seq<Record>>, after: seq<seq<Record>>) {
    |before| <= |after| && forall i :: 0 <= i < |before| ==> before[i] <= after[i]
  }

  ghost predicate KeepsEach(pages: seq<seq<Record>>, stored: map<nat, seq<byte>>) {
    forall location :: location in stored ==> Stored(pages, location, stored[location])
  }

  /** Every record is where it was put; the quantifier keeps the definition folded until it is asked for. */
  ghost predicate Keeps(pages: seq<seq<Record>>, stored: map<nat, seq<byte>>) {
    forall same: map<nat, seq<byte>> :: same == stored ==> KeepsEach(pages, same)
  }

  lemma KeepsGrowing(before: seq<seq<Record>>, after: seq<seq<Record>>, stored: map<nat, seq<byte>>)
    requires Keeps(before, stored) && Grows(before, after)
    ensures Keeps(after, stored)
  {
    assert KeepsEach(before, stored);
    forall location | location in stored ensures Stored(after, location, stored[location]) {
      StoredStays(before, after, location, stored[location]);
    }
  }

  lemma KeepsOneMore(pages: seq<seq<Record>>, stored: map<nat, seq<byte>>, location: nat, bytes: seq<byte>)
    requires Keeps(pages, stored) && Stored(pages, location, bytes)
    ensures Keeps(pages, stored[location := bytes])
  {
    assert KeepsEach(pages, stored);
  }

  /** Appending never touches a stored record. */
  lemma StoredStays(before: seq<seq<Record>>, after: seq<seq<Record>>, location: nat, bytes: seq<byte>)
    requires Stored(before, location, bytes) && Grows(before, after)
    ensures Stored(after, location, bytes)
  {
  }

  lemma StoredSomewhere(pages: seq<seq<Record>>, location: nat, bytes: seq<byte>)
    requires Stored(pages, location, bytes)
    ensures location / SLOTS < |pages| && location % SLOTS < |pages[location / SLOTS]|
  {
    if |bytes| >= MAX_RECORD_SIZE {
      assert Has(pages, location / SLOTS + 0, 0, Fragment(bytes, 0));
    }
  }

  // ----- the file -----

  ghost predicate FilePage(crc: Checksum, data: seq<byte>, id: nat, lsn: nat, records: seq<Record>) {
    |data| == PAGE_SIZE && PageHolds(crc, data, records) && PageId(data) == id && PageLsn(data) == lsn
  }

  ghost predicate FileHolds(crc: Checksum, file: seq<seq<byte>>, lsn: nat, pages: seq<seq<Record>>) {
    |file| == |pages| && forall i: nat :: i < |file| ==> FilePage(crc, file[i], i, lsn, pages[i])
  }

  /** read_page: a validated page with its own number and the file's sequence. */
  method ReadPage(file: seq<seq<byte>>, id: nat, lsn: nat, crc: Checksum, ghost records: seq<Record>)
    returns (r: Result<SlottedPage>)
    requires IsChecksum(crc)
    ensures id < |file| && FilePage(crc, file[id], id, lsn, records) ==> r.Ok? && r.value.records == records
    ensures r.Ok? ==>
              fresh(r.value) && fresh(r.value.bytes) && r.value.Valid() && id < |file|
              && FilePage(crc, file[id], id, lsn, r.value.records)
  {
    if id >= |file| {
      return Err(Corrupt);
    }
    var loaded := FromBytes(file[id], crc);
    if loaded.Failed? {
      return Err(Corrupt);
    }
    var page := loaded.value;
    if PageId(page.bytes[..]) != id || PageLsn(page.bytes[..]) != lsn {
      return Err(Corrupt);
    }
    if FilePage(crc, file[id], id, lsn, records) {
      PageDetermines(file[id], records, page.records);
    }
    return Ok(page);
  }

  /** The numbers of a fragment's header. */
  lemma FragmentNumbers(total: nat, index: nat, chunk: seq<byte>)
    requires total <= MAX_RECORD && index < Chunks(total)
    ensures var f := FragmentHead(total, index) + chunk;
            && f[0] == 1 && Number(f, 1, 4) == total && Number(f, 5, 4) == index && Number(f, 9, 4) == Chunks(total)
            && f[13..] == chunk
  {
    Widths();
    var f := FragmentHead(total, index) + chunk;
    assert f[1..5] == Le(total, 4) && f[5..9] == Le(index, 4) && f[9..13] == Le(Chunks(total), 4);
    NumberRoundTrip(f, 1, total, 4);
    NumberRoundTrip(f, 5, index, 4);
    NumberRoundTrip(f, 9, Chunks(total), 4);
  }

  /** The fragments up to `index` are the first bytes of the record. */
  lemma NextChunk(bytes: seq<byte>, index: nat)
    requires index < Chunks(|bytes|) && index * CHUNK <= |bytes|
    ensures bytes[..index * CHUNK] + Chunk(bytes, index) == bytes[..ChunkEnd(|bytes|, index)]
  {
    ChunkBounds(|bytes|, index);
  }

  /** read_buffer: what is stored at a location of the file is what it returns. */
  method ReadBuffer(
    file: seq<seq<byte>>, location: nat, lsn: nat, crc: Checksum, ghost pages: seq<seq<Record>>,
    ghost want: seq<byte>)
    returns (r: Result<seq<byte>>)
    requires IsChecksum(crc)
    ensures FileHolds(crc, file, lsn, pages) && Stored(pages, location, want) ==> r == Ok(want)
  {
    ghost var known := FileHolds(crc, file, lsn, pages) && Stored(pages, location, want);
    var id, slot := location / SLOTS, location % SLOTS;
    if known {
      StoredSomewhere(pages, location, want);
    }
    var page :- ReadPage(file, id, lsn, crc, if known then pages[id] else []);
    if known && |want| >= MAX_RECORD_SIZE {
      FirstFragment(pages, location, want);
    }
    var found := page.Get(slot);
    if found.None? || found.value == [] {
      return Err(Corrupt);
    }
    var record := found.value;
    if record[0] == 0 {
      return Ok(record[1..]);
    }
    if record[0] != 1 || |record| < 13 {
      return Err(Corrupt);
    }
    r := ReadChain(file, id, slot, lsn, crc, record[1..5], record[9..13], pages, want, known);
  }

  /** The first fragment of a chain and what its header says. */
  lemma FirstFragment(pages: seq<seq<Record>>, location: nat, bytes: seq<byte>)
    requires Stored(pages, location, bytes) && |bytes| >= MAX_RECORD_SIZE
    ensures Has(pages, location / SLOTS, 0, Fragment(bytes, 0)) && |Fragment(bytes, 0)| >= 13
    ensures Fragment(bytes, 0)[0] == 1
    ensures Fragment(bytes, 0)[1..5] == Le(|bytes|, 4) && Fragment(bytes, 0)[9..13] == Le(Chunks(|bytes|), 4)
    ensures Chain(pages, location / SLOTS, bytes, Chunks(|bytes|))
  {
    assert Has(pages, location / SLOTS + 0, 0, Fragment(bytes, 0));
  }

  /** All the fragments of a chain that starts at page `id`, and its header's words. */
  ghost predicate ChainAt(
    file: seq<seq<byte>>, id: nat, lsn: nat, crc: Checksum, totalBytes: seq<byte>, countBytes: seq<byte>,
    pages: seq<seq<Record>>, want: seq<byte>)
  {
    && FileHolds(crc, file, lsn, pages) && MAX_RECORD_SIZE <= |want| <= MAX_RECORD
    && totalBytes == Le(|want|, 4) && countBytes == Le(Chunks(|want|), 4)
    && Chain(pages, id, want, Chunks(|want|))
  }

  /** The chain of an overflow record, checked fragment by fragment. */
  method ReadChain(
    file: seq<seq<byte>>, id: nat, slot: nat, lsn: nat, crc: Checksum, totalBytes: seq<byte>, countBytes: seq<byte>,
    ghost pages: seq<seq<Record>>, ghost want: seq<byte>, ghost known: bool)
    returns (r: Result<seq<byte>>)
    requires IsChecksum(crc) && |totalBytes| == 4 && |countBytes| == 4
    requires known ==> ChainAt(file, id, lsn, crc, totalBytes, countBytes, pages, want) && slot == 0
    ensures known ==> r == Ok(want)
  {
    var total, count := FromLe(totalBytes), FromLe(countBytes);
    if known {
      Widths();
      LeRoundTrip(|want|, 4);
      LeRoundTrip(Chunks(|want|), 4);
    }
    if !(MAX_RECORD_SIZE <= total <= MAX_RECORD) || count != Chunks(total) || slot != 0 {
      return Err(Corrupt);
    }
    r := ReadFragments(file, id, lsn, crc, totalBytes, countBytes, total, count, pages, want, known);
  }

  /** The bytes of all the fragments, which must be as many as the header says. */
  method ReadFragments(
    file: seq<seq<byte>>, id: nat, lsn: nat, crc: Checksum, totalBytes: seq<byte>, countBytes: seq<byte>, total: nat,
    count: nat, ghost pages: seq<seq<Record>>, ghost want: seq<byte>, ghost known: bool)
    returns (r: Result<seq<byte>>)
    requires IsChecksum(crc) && |totalBytes| == 4 && |countBytes| == 4
    requires known ==> ChainAt(file, id, lsn, crc, totalBytes, countBytes, pages, want)
    requires known ==> total == |want| && count == Chunks(|want|)
    ensures known ==> r == Ok(want)
  {
    var bytes := [];
    for index := 0 to count
      invariant known ==> ReadTo(want, index, bytes)
    {
      var chunk :- ReadFragment(file, id + index, index, lsn, crc, totalBytes, countBytes, id, pages, want, known);
      if known {
        ReadMore(want, index, bytes);
      }
      if |bytes| + |chunk| > total {
        return Err(Corrupt);
      }
      bytes := bytes + chunk;
    }
    if |bytes| != total {
      return Err(Corrupt);
    }
    assert known ==> want[..|want|] == want;
    return Ok(bytes);
  }

  /** The first `index` chunks of a record. */
  ghost predicate ReadTo(want: seq<byte>, index: nat, bytes: seq<byte>) {
    && |bytes| <= |want| && bytes == want[..|bytes|] && index <= Chunks(|want|)
    && |bytes| == if index == Chunks(|want|) then |want| else index * CHUNK
  }

  lemma ReadMore(want: seq<byte>, index: nat, bytes: seq<byte>)
    requires ReadTo(want, index, bytes) && index < Chunks(|want|)
    ensures ReadTo(want, index + 1, bytes + Chunk(want, index))
  {
    ChunkBounds(|want|, index);
    NextChunk(want, index);
  }

  /** One fragment, with its header checked against the first one's. */
  method ReadFragment(
    file: seq<seq<byte>>, page: nat, index: nat, lsn: nat, crc: Checksum, totalBytes: seq<byte>, countBytes: seq<byte>,
    ghost id: nat, ghost pages: seq<seq<Record>>, ghost want: seq<byte>, ghost known: bool)
    returns (r: Result<seq<byte>>)
    requires IsChecksum(crc) && |totalBytes| == 4 && |countBytes| == 4
    requires known ==>
               && ChainAt(file, id, lsn, crc, totalBytes, countBytes, pages, want)
               && page == id + index && index < Chunks(|want|)
    ensures known ==> r == Ok(Chunk(want, index))
  {
    if known {
      assert Has(pages, id + index, 0, Fragment(want, index));
      FragmentNumbers(|want|, index, Chunk(want, index));
      FragmentBytes(|want|, index, Chunk(want, index));
    }
    var held :- ReadPage(file, page, lsn, crc, if known then pages[id + index] else []);
    var found := held.Get(0);
    if found.None? {
      return Err(Corrupt);
    }
    var fragment := found.value;
    if |fragment| < 13 || fragment[0] != 1 || fragment[1..5] != totalBytes || fragment[9..13] != countBytes
       || Number(fragment, 5, 4) != index {
      return Err(Corrupt);
    }
    return Ok(fragment[13..]);
  }

  lemma FragmentBytes(total: nat, index: nat, chunk: seq<byte>)
    ensures var f := FragmentHead(total, index) + chunk;
            f[1..5] == Le(total, 4) && f[9..13] == Le(Chunks(total), 4)
  {
  }

  // ----- writing -----

  class HeapWriter {
    const crc: Checksum
    const lsn: nat
    var file: seq<seq<byte>>
    var page: SlottedPage
    ghost var pages: seq<seq<Record>>
    ghost var stored: map<nat, seq<byte>>

    ghost function All(): seq<seq<Record>>
      reads this, page
    {
      pages + [page.records]
    }

    /** The pages written so far are well formed, and every appended record stands where it was put. */
    ghost predicate Valid()
      reads this, page, page.bytes
    {
      && IsChecksum(crc) && lsn <= U64_MAX && |file| <= PAGE_LIMIT + 4096
      && page.Valid() && page.crc == crc && PageId(page.bytes[..]) == |file| && PageLsn(page.bytes[..]) == lsn
      && FileHolds(crc, file, lsn, pages)
      && Keeps(All(), stored)
    }

    constructor (crc: Checksum, lsn: nat)
      requires IsChecksum(crc) && lsn <= U64_MAX
      ensures Valid() && fresh(page) && fresh(page.bytes) && this.crc == crc && this.lsn == lsn
      ensures stored == map[] && file == []
    {
      var first := new SlottedPage(crc, 0);
      first.SetLsn(lsn);
      this.crc, this.lsn, file, page, pages, stored := crc, lsn, [], first, [], map[];
    }

    /** Writes out a page that has records, and begins the next one. */
    method Flush()
      requires Valid() && |file| < PAGE_LIMIT + 4096
      modifies this`file, this`page, this`pages
      ensures Valid() && stored == old(stored) && page.records == [] && Grows(old(All()), All())
      ensures page == old(page) || (fresh(page) && fresh(page.bytes))
      ensures page == old(page) ==> page.bytes == old(page.bytes)
      ensures |file| == old(|file|) + if old(page.records) == [] then 0 else 1
      ensures old(file) <= file
    {
      if Count(page.bytes[..]) == 0 {
        return;
      }
      ghost var before := All();
      var next := new SlottedPage(crc, |file| + 1);
      next.SetLsn(lsn);
      file, pages := file + [page.bytes[..]], pages + [page.records];
      page := next;
      assert All() == before + [[]];
      KeepsGrowing(before, All(), stored);
    }

    lemma FreshLocation(slot: nat, location: nat)
      requires Valid() && |page.records| <= slot < SLOTS && location == |file| * SLOTS + slot
      ensures location !in stored && location / SLOTS == |file| && location % SLOTS == slot
    {
      assert KeepsEach(All(), stored);
      if location in stored {
        StoredSomewhere(All(), location, stored[location]);
      }
    }

    /** Adds a record to the current page, which has room for it. */
    method Put(record: seq<byte>) returns (slot: nat)
      requires Valid() && Fits(page.records + [Some(record)])
      modifies page, page.bytes
      ensures Valid() && slot == |old(page.records)| && page.records == old(page.records) + [Some(record)]
      ensures page.bytes == old(page.bytes) && Grows(old(All()), All())
    {
      ghost var before := All();
      var inserted := page.Insert(record);
      slot := inserted.value;
      KeepsGrowing(before, All(), stored);
    }

    /** A small record goes whole into a page. */
    method AppendInline(bytes: seq<byte>) returns (location: nat)
      requires Valid() && |file| < PAGE_LIMIT && |bytes| < MAX_RECORD_SIZE
      modifies this, page, page.bytes
      ensures Valid() && location !in old(stored) && stored == old(stored)[location := bytes]
      ensures old(file) <= file
    {
      FitsExactly(page.records, Some([0] + bytes));
      if page.Free() < |bytes| + 1 + 4 {
        Flush();
        FitsExactly(page.records, Some([0] + bytes));
      }
      location := PutInline(bytes);
    }

    /** The same, when the current page has room. */
    method PutInline(bytes: seq<byte>) returns (location: nat)
      requires Valid() && |bytes| < MAX_RECORD_SIZE && Fits(page.records + [Some([0] + bytes)])
      modifies this`stored, page, page.bytes
      ensures Valid() && location !in old(stored) && stored == old(stored)[location := bytes]
    {
      SlotsBounded(page.records + [Some([0] + bytes)]);
      ghost var free := |file| * SLOTS + |page.records|;
      FreshLocation(|page.records|, free);
      var slot := Put([0] + bytes);
      location := |file| * SLOTS + slot;
      assert Has(All(), |file|, slot, [0] + bytes);
      KeepsOneMore(All(), stored, location, bytes);
      stored := stored[location := bytes];
    }

    /** A large record takes pages of its own, one fragment each. */
    method AppendChain(bytes: seq<byte>) returns (location: nat)
      requires Valid() && |file| < PAGE_LIMIT && MAX_RECORD_SIZE <= |bytes| <= MAX_RECORD
      modifies this, page, page.bytes
      ensures Valid() && location !in old(stored) && stored == old(stored)[location := bytes]
      ensures old(file) <= file
    {
      Flush();
      ghost var start := |file|;
      location := |file| * SLOTS;
      FreshLocation(0, location);
      PutFragments(bytes);
      ChainStored(All(), start, bytes, location);
      KeepsOneMore(All(), stored, location, bytes);
      stored := stored[location := bytes];
    }

    /** All the fragments, from an empty page on. */
    method PutFragments(bytes: seq<byte>)
      requires Valid() && |file| <= PAGE_LIMIT && page.records == [] && |bytes| <= MAX_RECORD
      modifies this`file, this`page, this`pages, page, page.bytes
      ensures Valid() && stored == old(stored) && old(file) <= file
      ensures Chain(All(), |old(file)|, bytes, Chunks(|bytes|))
    {
      ghost var start := |file|;
      for index := 0 to Chunks(|bytes|)
        invariant Valid() && stored == old(stored) && old(file) <= file
        invariant page == old(page) || (fresh(page) && fresh(page.bytes))
        invariant page == old(page) ==> page.bytes == old(page.bytes)
        invariant |file| == start + index && page.records == []
        invariant Chain(All(), start, bytes, index)
      {
        PutFragment(bytes, index, start);
      }
    }

    /** One fragment fills one page, which is written out. */
    method PutFragment(bytes: seq<byte>, index: nat, ghost start: nat)
      requires Valid() && |file| < PAGE_LIMIT + 4000 && page.records == [] && index < Chunks(|bytes|)
      requires Chain(All(), start, bytes, index) && |file| == start + index
      modifies this`file, this`page, this`pages, page, page.bytes
      ensures Valid() && stored == old(stored) && page.records == []
      ensures |file| == |old(file)| + 1 && old(file) <= file
      ensures page == old(page) || (fresh(page) && fresh(page.bytes))
      ensures page == old(page) ==> page.bytes == old(page.bytes)
      ensures Chain(All(), start, bytes, index + 1)
    {
      ghost var before := All();
      FragmentFits(bytes, index);
      var slot := Put(Fragment(bytes, index));
      ghost var between := All();
      assert Has(between, |file|, 0, Fragment(bytes, index));
      ChainGrows(before, between, start, bytes, index, |file|);
      Flush();
      ChainStays(between, All(), start, bytes, index + 1);
    }

    /** HeapWriter::append: refused exactly for a record over 16 MiB or a full file. */
    method Append(bytes: seq<byte>) returns (r: Result<nat>)
      requires Valid()
      modifies this, page, page.bytes
      ensures Valid() && old(file) <= file
      ensures r.Ok? <==> |bytes| <= MAX_RECORD && old(|file|) < PAGE_LIMIT
      ensures r.Ok? ==> r.value !in old(stored) && stored == old(stored)[r.value := bytes]
      ensures r.Err? ==>
                file == old(file) && stored == old(stored) && page == old(page)
                && page.records == old(page.records)
    {
      if |bytes| > MAX_RECORD || |file| >= PAGE_LIMIT {
        return Err(Invalid);
      }
      var location;
      if |bytes| < MAX_RECORD_SIZE {
        location := AppendInline(bytes);
      } else {
        location := AppendChain(bytes);
      }
      return Ok(location);
    }

    /** The finished file holds every record that was appended. */
    method Finish() returns (data: seq<seq<byte>>)
      requires Valid() && |file| < PAGE_LIMIT + 4096
      modifies this`file, this`page, this`pages
      ensures Valid() && data == file && FileHolds(crc, data, lsn, pages) && stored == old(stored)
      ensures forall location :: location in stored ==> Stored(pages, location, stored[location])
    {
      Flush();
      assert KeepsEach(All(), stored);
      forall location | location in stored ensures Stored(pages, location, stored[location]) {
        WithoutEmptyPage(pages, location, stored[location]);
      }
      return file;
    }
  }

  lemma FragmentFits(bytes: seq<byte>, index: nat)
    requires index < Chunks(|bytes|)
    ensures Fits([] + [Some(Fragment(bytes, index))])
  {
    ChunkBounds(|bytes|, index);
    FitsExactly([], Some(Fragment(bytes, index)));
  }

  /** The first `n` fragments are in place. */
  ghost predicate Chain(pages: seq<seq<Record>>, start: nat, bytes: seq<byte>, n: nat) {
    forall k: nat :: k < n && k < Chunks(|bytes|) ==> Has(pages, start + k, 0, Fragment(bytes, k))
  }

  lemma ChainStays(before: seq<seq<Record>>, after: seq<seq<Record>>, start: nat, bytes: seq<byte>, n: nat)
    requires Chain(before, start, bytes, n) && Grows(before, after)
    ensures Chain(after, start, bytes, n)
  {
    forall k: nat | k < n && k < Chunks(|bytes|) ensures Has(after, start + k, 0, Fragment(bytes, k)) {
      assert Has(before, start + k, 0, Fragment(bytes, k));
    }
  }

  lemma ChainGrows(
    before: seq<seq<Record>>, after: seq<seq<Record>>, start: nat, bytes: seq<byte>, n: nat, page: nat)
    requires Chain(before, start, bytes, n) && Grows(before, after)
    requires n < Chunks(|bytes|) && page == start + n && Has(after, page, 0, Fragment(bytes, n))
    ensures Chain(after, start, bytes, n + 1)
  {
    ChainStays(before, after, start, bytes, n);
    forall k: nat | k < n + 1 && k < Chunks(|bytes|) ensures Has(after, start + k, 0, Fragment(bytes, k)) {
      assert k < n || k == n;
    }
  }

  lemma ChainStored(pages: seq<seq<Record>>, start: nat, bytes: seq<byte>, location: nat)
    requires Chain(pages, start, bytes, Chunks(|bytes|)) && MAX_RECORD_SIZE <= |bytes| <= MAX_RECORD
    requires location / SLOTS == start && location % SLOTS == 0
    ensures Stored(pages, location, bytes)
  {
  }

  lemma SlotsBounded(records: seq<Record>)
    requires Fits(records)
    ensures |records| < SLOTS
  {
  }

  /** Nothing is stored in the empty page at the end. */
  lemma WithoutEmptyPage(pages: seq<seq<Record>>, location: nat, bytes: seq<byte>)
    requires Stored(pages + [[]], location, bytes)
    ensures Stored(pages, location, bytes)
  {
    if |bytes| >= MAX_RECORD_SIZE {
      forall index: nat | index < Chunks(|bytes|)
          ensures Has(pages, location / SLOTS + index, 0, Fragment(bytes, index)) {
        assert Has(pages + [[]], location / SLOTS + index, 0, Fragment(bytes, index));
      }
    }
  }
}
