/**
 Slotted pages as bytes (storage/page.rs).

 A page holds records in numbered slots; a removed record leaves its slot empty.  The directory grows
 up from the header, the records grow down from the end, packed in reverse slot order.
 */
module PageLayouts {
  import opened Results
  import opened LittleEndian

  const PAGE_SIZE: nat := 8192
  const HEADER_SIZE: nat := 40
  const MAX_RECORD_SIZE: nat := PAGE_SIZE - HEADER_SIZE - 4
  const PAGE_MAGIC: seq<byte> := [69, 86, 80, 71]

  type Record = Option<seq<byte>>
  type Image = data: seq<byte> | |data| == PAGE_SIZE witness seq(PAGE_SIZE, _ => 0)

  function U16(data: Image, at: nat): nat
    requires at + 2 <= PAGE_SIZE
  {
    Number(data, at, 2)
  }

  function Count(data: Image): nat { U16(data, 16) }

  function Lower(data: Image): nat { U16(data, 18) }

  function Upper(data: Image): nat { U16(data, 20) }

  function Offset(data: Image, slot: nat): nat
    requires HEADER_SIZE + 4 * slot + 4 <= PAGE_SIZE
  {
    U16(data, HEADER_SIZE + 4 * slot)
  }

  function Length(data: Image, slot: nat): nat
    requires HEADER_SIZE + 4 * slot + 4 <= PAGE_SIZE
  {
    U16(data, HEADER_SIZE + 4 * slot + 2)
  }

  // ----- what a page says -----

  function Size(record: Record): nat {
    if record.None? then 0 else |record.value|
  }

  /** Record bytes of the first `n` slots. */
  function Used(records: seq<Record>, n: nat): nat
    requires n <= |records|
  {
    if n == 0 then 0 else Used(records, n - 1) + Size(records[n - 1])
  }

  lemma {:induction false} UsedPrefix(a: seq<Record>, b: seq<Record>, n: nat)
    requires n <= |a| && n <= |b| && forall i :: 0 <= i < n ==> a[i] == b[i]
    ensures Used(a, n) == Used(b, n)
  {
    if n > 0 {
      UsedPrefix(a, b, n - 1);
    }
  }

  lemma {:induction false} UsedGrows(records: seq<Record>, m: nat, n: nat)
    requires m <= n <= |records|
    ensures Used(records, m) <= Used(records, n)
  {
    if m < n {
      UsedGrows(records, m, n - 1);
    }
  }

  /** The records and their directory fit a page. */
  predicate Fits(records: seq<Record>) {
    HEADER_SIZE + 4 * |records| + Used(records, |records|) <= PAGE_SIZE
  }

  ghost predicate SlotHolds(data: Image, records: seq<Record>, slot: nat) {
    slot < |records| && HEADER_SIZE + 4 * slot + 4 <= PAGE_SIZE ==>
      match records[slot]
      case None => Offset(data, slot) == 0 && Length(data, slot) == 0
      case Some(bytes) =>
        && Offset(data, slot) == PAGE_SIZE - Used(records, slot + 1)
        && Length(data, slot) == |bytes|
        && Offset(data, slot) + |bytes| <= PAGE_SIZE
        && data[Offset(data, slot)..Offset(data, slot) + |bytes|] == bytes
  }

  /** The page holds exactly these records, packed. */
  ghost predicate Packed(data: Image, records: seq<Record>) {
    && Fits(records)
    && Count(data) == |records| && Lower(data) == HEADER_SIZE + 4 * |records|
    && Upper(data) == PAGE_SIZE - Used(records, |records|)
    && forall slot: nat :: SlotHolds(data, records, slot)
  }

  ghost predicate HeaderOk(data: Image) {
    && data[..4] == PAGE_MAGIC && U16(data, 4) == 2 && U16(data, 6) == PAGE_SIZE
    && U16(data, 22) == 0 && data[36..40] == [0, 0, 0, 0]
  }

  type Checksum = seq<byte> -> nat

  function Computed(crc: Checksum, data: Image): nat {
    crc(data[..32] + [0, 0, 0, 0] + data[36..])
  }

  ghost predicate Sealed(crc: Checksum, data: Image) {
    Number(data, 32, 4) == Computed(crc, data)
  }

  function PageId(data: Image): nat { Number(data, 8, 8) }

  function PageLsn(data: Image): nat { Number(data, 24, 8) }

  /** A well-formed page with these records. */
  ghost predicate PageHolds(crc: Checksum, data: Image, records: seq<Record>) {
    HeaderOk(data) && Packed(data, records) && Sealed(crc, data)
  }

  // ----- writing bytes -----

  /** `bytes` written at `at`. */
  function Patch(data: Image, at: nat, bytes: seq<byte>): (r: Image)
    requires at + |bytes| <= PAGE_SIZE
    ensures forall k :: 0 <= k < PAGE_SIZE ==> r[k] == if at <= k < at + |bytes| then bytes[k - at] else data[k]
  {
    data[..at] + bytes + data[at + |bytes|..]
  }

  lemma PatchTwice(data: Image, at: nat, a: seq<byte>, b: seq<byte>)
    requires at + |a| + |b| <= PAGE_SIZE
    ensures Patch(Patch(data, at, a), at + |a|, b) == Patch(data, at, a + b)
  {
  }

  lemma SameNumber(a: Image, b: Image, at: nat, width: nat)
    requires at + width <= PAGE_SIZE && forall k :: at <= k < at + width ==> a[k] == b[k]
    ensures Number(a, at, width) == Number(b, at, width)
  {
    assert a[at..at + width] == b[at..at + width];
    NumberMoved(a, at, b, at, width);
  }

  lemma NumberElsewhere(data: Image, at: nat, bytes: seq<byte>, x: nat, width: nat)
    requires at + |bytes| <= PAGE_SIZE && x + width <= PAGE_SIZE && (x + width <= at || at + |bytes| <= x)
    ensures Number(Patch(data, at, bytes), x, width) == Number(data, x, width)
  {
    SameNumber(data, Patch(data, at, bytes), x, width);
  }

  lemma NumberWritten(data: Image, at: nat, n: nat, width: nat)
    requires at + width <= PAGE_SIZE && n < Power(width)
    ensures Number(Patch(data, at, Le(n, width)), at, width) == n
  {
    assert Patch(data, at, Le(n, width))[at..at + width] == Le(n, width);
    NumberRoundTrip(Patch(data, at, Le(n, width)), at, n, width);
  }

  /** Writing the checksum seals the page and changes nothing else. */
  function Seal(crc: Checksum, data: Image): Image {
    Patch(data, 32, Le(Computed(crc, data), 4))
  }

  ghost predicate IsChecksum(crc: Checksum) {
    forall bytes :: crc(bytes) < 0x1_0000_0000
  }

  lemma SealSeals(crc: Checksum, data: Image)
    requires IsChecksum(crc)
    ensures Sealed(crc, Seal(crc, data))
  {
    Widths();
    NumberWritten(data, 32, Computed(crc, data), 4);
    assert Seal(crc, data)[..32] == data[..32] && Seal(crc, data)[36..] == data[36..];
  }

  /** Two pages that agree outside the checksum and the sequence number hold the same records. */
  ghost predicate AgreeOutside(a: Image, b: Image, from: nat, to: nat) {
    forall k :: 0 <= k < PAGE_SIZE && !(from <= k < to) ==> a[k] == b[k]
  }

  lemma SlotUnchanged(a: Image, b: Image, records: seq<Record>, slot: nat, from: nat, to: nat)
    requires Fits(records) && SlotHolds(a, records, slot) && AgreeOutside(a, b, from, to) && 24 <= from <= to <= 36
    ensures SlotHolds(b, records, slot)
  {
    if slot < |records| {
      SameNumber(a, b, HEADER_SIZE + 4 * slot, 2);
      SameNumber(a, b, HEADER_SIZE + 4 * slot + 2, 2);
      UsedGrows(records, slot + 1, |records|);
    }
  }

  lemma HeaderUnchanged(a: Image, b: Image, records: seq<Record>, from: nat, to: nat)
    requires HeaderOk(a) && Packed(a, records) && AgreeOutside(a, b, from, to) && 24 <= from <= to <= 36
    ensures HeaderOk(b) && Packed(b, records) && PageId(b) == PageId(a)
  {
    SameNumber(a, b, 4, 2);
    SameNumber(a, b, 6, 2);
    SameNumber(a, b, 8, 8);
    SameNumber(a, b, 16, 2);
    SameNumber(a, b, 18, 2);
    SameNumber(a, b, 20, 2);
    SameNumber(a, b, 22, 2);
    assert a[..4] == b[..4] && a[36..40] == b[36..40];
    forall slot: nat ensures SlotHolds(b, records, slot) {
      SlotUnchanged(a, b, records, slot, from, to);
    }
  }

  lemma SealKeeps(crc: Checksum, data: Image, records: seq<Record>)
    requires IsChecksum(crc) && HeaderOk(data) && Packed(data, records)
    ensures PageHolds(crc, Seal(crc, data), records)
    ensures PageId(Seal(crc, data)) == PageId(data) && PageLsn(Seal(crc, data)) == PageLsn(data)
  {
    SealSeals(crc, data);
    HeaderUnchanged(data, Seal(crc, data), records, 32, 36);
    SameNumber(data, Seal(crc, data), 24, 8);
  }

  // ----- appending a slot -----

  /** A directory entry written at the end of the directory, which grows by it. */
  function SlotAdded(data: Image, slot: seq<byte>): Image
    requires |slot| == 4 && Lower(data) + 4 <= PAGE_SIZE
  {
    Patch(Patch(data, Lower(data), slot), 16, Le(Count(data) + 1, 2) + Le(Lower(data) + 4, 2))
  }

  /** The record's bytes below the others, its entry, and the new lower end of the records. */
  function RecordAdded(data: Image, bytes: seq<byte>): Image
    requires |bytes| <= Upper(data) <= PAGE_SIZE && Lower(data) + 4 <= PAGE_SIZE
  {
    var offset := Upper(data) - |bytes|;
    EntryAdded(Patch(data, offset, bytes), Lower(data), Count(data), offset, |bytes|)
  }

  /** An entry and the three header fields. */
  function EntryAdded(data: Image, lower: nat, count: nat, offset: nat, length: nat): Image
    requires lower + 4 <= PAGE_SIZE
  {
    Patch(Patch(Patch(data, lower, Le(offset, 2) + Le(length, 2)), 16, Le(count + 1, 2) + Le(lower + 4, 2)), 20,
        Le(offset, 2))
  }

  /** What an append changes: the record's bytes, its entry, and the three header fields. */
  ghost predicate Extends(a: Image, b: Image, records: seq<Record>, record: Record) {
    && Fits(records + [record])
    && (forall k ::
          && 0 <= k < PAGE_SIZE && !(16 <= k < 22) && !(Lower(a) <= k < Lower(a) + 4)
          && !(Upper(a) - Size(record) <= k < Upper(a)) ==>
            b[k] == a[k])
    && Count(b) == |records| + 1 && Lower(b) == HEADER_SIZE + 4 * |records| + 4 && Upper(b) == Upper(a) - Size(record)
    && SlotHolds(b, records + [record], |records|)
  }

  /** An earlier entry, and the bytes above the new record, are not among the bytes an append changes. */
  lemma OtherEntry(a: Image, b: Image, records: seq<Record>, record: Record, slot: nat)
    requires Packed(a, records) && Extends(a, b, records, record) && slot < |records|
    ensures HEADER_SIZE + 4 * slot + 4 <= Lower(a) <= PAGE_SIZE
    ensures Offset(b, slot) == Offset(a, slot) && Length(b, slot) == Length(a, slot)
    ensures forall k :: Upper(a) <= k < PAGE_SIZE ==> b[k] == a[k]
  {
    Grown(records, record);
    SameNumber(a, b, HEADER_SIZE + 4 * slot, 2);
    SameNumber(a, b, HEADER_SIZE + 4 * slot + 2, 2);
  }

  /** An entry that says the same, for bytes that are the same, holds the same record. */
  lemma SameSlot(a: Image, b: Image, records: seq<Record>, record: Record, slot: nat)
    requires slot < |records| && SlotHolds(a, records, slot) && HEADER_SIZE + 4 * slot + 4 <= PAGE_SIZE
    requires Used(records, slot + 1) <= PAGE_SIZE
    requires Offset(b, slot) == Offset(a, slot) && Length(b, slot) == Length(a, slot)
    requires forall k :: PAGE_SIZE - Used(records, slot + 1) <= k < PAGE_SIZE ==> b[k] == a[k]
    ensures SlotHolds(b, records + [record], slot)
  {
    UsedPrefix(records, records + [record], slot + 1);
  }

  lemma OtherSlot(a: Image, b: Image, records: seq<Record>, record: Record, slot: nat)
    requires Packed(a, records) && Extends(a, b, records, record) && slot < |records|
    ensures SlotHolds(b, records + [record], slot)
  {
    assert SlotHolds(a, records, slot);
    OtherEntry(a, b, records, record, slot);
    UsedGrows(records, slot + 1, |records|);
    SameSlot(a, b, records, record, slot);
  }

  lemma ExtendsPacks(a: Image, b: Image, records: seq<Record>, record: Record)
    requires HeaderOk(a) && Packed(a, records) && Extends(a, b, records, record)
    ensures HeaderOk(b) && Packed(b, records + [record]) && PageId(b) == PageId(a) && PageLsn(b) == PageLsn(a)
  {
    var more := records + [record];
    UsedPrefix(records, more, |records|);
    assert Used(more, |more|) == Used(more, |records|) + Size(record);
    SameNumber(a, b, 4, 2);
    SameNumber(a, b, 6, 2);
    SameNumber(a, b, 8, 8);
    SameNumber(a, b, 22, 2);
    SameNumber(a, b, 24, 8);
    assert a[..4] == b[..4] && a[36..40] == b[36..40];
    forall slot: nat ensures SlotHolds(b, more, slot) {
      if slot < |records| {
        OtherSlot(a, b, records, record, slot);
      }
    }
  }

  /** The directory entry and the three header fields after a record was added. */
  lemma EntryWritten(d1: Image, lower: nat, count: nat, offset: nat, length: nat)
    requires HEADER_SIZE <= lower && lower + 4 <= PAGE_SIZE && count < 0xFFFF && offset <= PAGE_SIZE
             && length <= PAGE_SIZE
    ensures var d3 := Patch(Patch(d1, lower, Le(offset, 2) + Le(length, 2)), 16, Le(count + 1, 2) + Le(lower + 4, 2));
            && U16(d3, lower) == offset && U16(d3, lower + 2) == length
            && U16(d3, 16) == count + 1 && U16(d3, 18) == lower + 4
  {
    var d2 := Patch(d1, lower, Le(offset, 2) + Le(length, 2));
    TwoWritten(d1, lower, offset, length);
    TwoWritten(d2, 16, count + 1, lower + 4);
    NumberElsewhere(d2, 16, Le(count + 1, 2) + Le(lower + 4, 2), lower, 2);
    NumberElsewhere(d2, 16, Le(count + 1, 2) + Le(lower + 4, 2), lower + 2, 2);
  }

  lemma UpperWritten(d3: Image, lower: nat, offset: nat)
    requires HEADER_SIZE <= lower && lower + 4 <= PAGE_SIZE && offset <= PAGE_SIZE
    ensures var d4 := Patch(d3, 20, Le(offset, 2));
            && U16(d4, lower) == U16(d3, lower) && U16(d4, lower + 2) == U16(d3, lower + 2)
            && U16(d4, 16) == U16(d3, 16) && U16(d4, 18) == U16(d3, 18) && U16(d4, 20) == offset
  {
    Widths();
    NumberWritten(d3, 20, offset, 2);
    NumberElsewhere(d3, 20, Le(offset, 2), lower, 2);
    NumberElsewhere(d3, 20, Le(offset, 2), lower + 2, 2);
    NumberElsewhere(d3, 20, Le(offset, 2), 16, 2);
    NumberElsewhere(d3, 20, Le(offset, 2), 18, 2);
  }

  lemma Grown(records: seq<Record>, record: Record)
    requires Fits(records + [record])
    ensures Used(records + [record], |records| + 1) == Used(records, |records|) + Size(record)
    ensures HEADER_SIZE + 4 * |records| + 4 + Used(records, |records|) + Size(record) <= PAGE_SIZE
  {
    UsedPrefix(records, records + [record], |records|);
    assert Used(records + [record], |records + [record]|) == Used(records + [record], |records|) + Size(record);
  }

  /** Only the record's bytes, its entry and the header fields changed; the record stands where its entry says. */
  lemma RecordBytes(data: Image, bytes: seq<byte>)
    requires HEADER_SIZE <= Lower(data) && Lower(data) + 4 + |bytes| <= Upper(data) <= PAGE_SIZE
    ensures var b := RecordAdded(data, bytes); var offset := Upper(data) - |bytes|;
            && (forall k ::
                  && 0 <= k < PAGE_SIZE && !(16 <= k < 22) && !(Lower(data) <= k < Lower(data) + 4)
                  && !(offset <= k < Upper(data)) ==>
                    b[k] == data[k])
            && b[offset..offset + |bytes|] == bytes
  {
  }

  /** The numbers of the new entry and of the header. */
  lemma RecordFields(data: Image, bytes: seq<byte>)
    requires HEADER_SIZE <= Lower(data) && Lower(data) + 4 + |bytes| <= Upper(data) <= PAGE_SIZE && Count(data) < 0xFFFF
    ensures var b := RecordAdded(data, bytes);
            && U16(b, Lower(data)) == Upper(data) - |bytes| && U16(b, Lower(data) + 2) == |bytes|
            && Count(b) == Count(data) + 1 && Lower(b) == Lower(data) + 4 && Upper(b) == Upper(data) - |bytes|
  {
    var lower, offset := Lower(data), Upper(data) - |bytes|;
    var d1 := Patch(data, offset, bytes);
    EntryWritten(d1, lower, Count(data), offset, |bytes|);
    var d3 := Patch(Patch(d1, lower, Le(offset, 2) + Le(|bytes|, 2)), 16, Le(Count(data) + 1, 2) + Le(lower + 4, 2));
    UpperWritten(d3, lower, offset);
  }

  lemma RecordAddedExtends(data: Image, records: seq<Record>, bytes: seq<byte>)
    requires Packed(data, records) && Fits(records + [Some(bytes)])
    ensures Lower(data) + 4 + |bytes| <= Upper(data) <= PAGE_SIZE
    ensures Extends(data, RecordAdded(data, bytes), records, Some(bytes))
  {
    Grown(records, Some(bytes));
    RecordFields(data, bytes);
    RecordBytes(data, bytes);
  }

  lemma TwoWritten(data: Image, at: nat, a: nat, b: nat)
    requires at + 4 <= PAGE_SIZE && a < 0x1_0000 && b < 0x1_0000
    ensures U16(Patch(data, at, Le(a, 2) + Le(b, 2)), at) == a && U16(Patch(data, at, Le(a, 2) + Le(b, 2)), at + 2) == b
  {
    Widths();
    PatchTwice(data, at, Le(a, 2), Le(b, 2));
    NumberWritten(data, at, a, 2);
    NumberElsewhere(Patch(data, at, Le(a, 2)), at + 2, Le(b, 2), at, 2);
    NumberWritten(Patch(data, at, Le(a, 2)), at + 2, b, 2);
  }

  lemma EmptySlotExtends(data: Image, records: seq<Record>)
    requires Packed(data, records) && Fits(records + [None])
    ensures Lower(data) + 4 <= Upper(data) <= PAGE_SIZE
    ensures Extends(data, SlotAdded(data, EMPTY_SLOT), records, None)
  {
    Grown(records, None);
    EmptySlotBytes(data, Lower(data), Count(data));
    EmptySlotFields(data, Lower(data), Count(data));
    EmptySlotHolds(SlotAdded(data, EMPTY_SLOT), records);
  }

  const EMPTY_SLOT: seq<byte> := [0, 0, 0, 0]

  /** Only the entry and the header fields changed. */
  lemma EmptySlotBytes(data: Image, lower: nat, count: nat)
    requires HEADER_SIZE <= lower && lower + 4 <= PAGE_SIZE
    ensures var b := Patch(Patch(data, lower, EMPTY_SLOT), 16, Le(count + 1, 2) + Le(lower + 4, 2));
            forall k :: 0 <= k < PAGE_SIZE && !(16 <= k < 22) && !(lower <= k < lower + 4) ==> b[k] == data[k]
  {
  }

  lemma EmptySlotFields(data: Image, lower: nat, count: nat)
    requires HEADER_SIZE <= lower && lower + 4 <= PAGE_SIZE && count < 0xFFFF
    ensures var b := Patch(Patch(data, lower, EMPTY_SLOT), 16, Le(count + 1, 2) + Le(lower + 4, 2));
            && U16(b, lower) == 0 && U16(b, lower + 2) == 0
            && U16(b, 16) == count + 1 && U16(b, 18) == lower + 4 && U16(b, 20) == U16(data, 20)
  {
    Zeros();
    EntryWritten(data, lower, count, 0, 0);
    UpperKept(data, lower, count);
  }

  lemma EmptySlotHolds(data: Image, records: seq<Record>)
    requires HEADER_SIZE + 4 * |records| + 4 <= PAGE_SIZE
    requires Offset(data, |records|) == 0 && Length(data, |records|) == 0
    ensures SlotHolds(data, records + [None], |records|)
  {
  }

  lemma UpperKept(data: Image, lower: nat, count: nat)
    requires HEADER_SIZE <= lower && lower + 4 <= PAGE_SIZE
    ensures Upper(Patch(Patch(data, lower, EMPTY_SLOT), 16, Le(count + 1, 2) + Le(lower + 4, 2))) == Upper(data)
  {
    NumberElsewhere(data, lower, EMPTY_SLOT, 20, 2);
    NumberElsewhere(Patch(data, lower, EMPTY_SLOT), 16, Le(count + 1, 2) + Le(lower + 4, 2), 20, 2);
  }

  lemma Zeros()
    ensures Le(0, 2) + Le(0, 2) == EMPTY_SLOT
  {
    assert Le(0, 1) == [0] + Le(0, 0);
    assert Le(0, 2) == [0] + Le(0, 1);
  }
}

/**
 The page edited in place, and the validation every page passes before it is used.
 */
module SlottedPages {
  import opened Results
  import opened LittleEndian
  import opened PageLayouts

  datatype PageError =
    | InvalidSize
    | InvalidHeader
    | UnsupportedVersion
    | InvalidLayout
    | RecordTooLarge
    | Full
    | ChecksumMismatch

  datatype PageResult<+T> = Done(value: T) | Failed(error: PageError)

  // ----- a page determines its records -----

  lemma {:induction false} SameRecords(data: Image, a: seq<Record>, b: seq<Record>, n: nat)
    requires n <= |a| && n <= |b| && HEADER_SIZE + 4 * n <= PAGE_SIZE
    requires forall slot: nat :: slot < n ==> SlotHolds(data, a, slot) && SlotHolds(data, b, slot)
    requires Used(a, n) <= PAGE_SIZE - HEADER_SIZE && Used(b, n) <= PAGE_SIZE - HEADER_SIZE
    ensures a[..n] == b[..n]
  {
    if n > 0 {
      assert SlotHolds(data, a, n - 1) && SlotHolds(data, b, n - 1);
      SameRecords(data, a, b, n - 1);
      assert a[..n] == a[..n - 1] + [a[n - 1]] && b[..n] == b[..n - 1] + [b[n - 1]];
    }
  }

  /** The records a page holds are unique. */
  lemma PageDetermines(data: Image, a: seq<Record>, b: seq<Record>)
    requires Packed(data, a) && Packed(data, b)
    ensures a == b
  {
    SameRecords(data, a, b, |a|);
    assert a[..|a|] == a && b[..|b|] == b;
  }

  // ----- validating a page -----

  /** The checks of the first `slot` entries have passed and found these records. */
  ghost predicate Scanned(data: Image, found: seq<Record>, end: nat) {
    && HEADER_SIZE + 4 * |found| <= PAGE_SIZE
    && end + Used(found, |found|) == PAGE_SIZE && HEADER_SIZE <= end
    && forall slot: nat :: SlotHolds(data, found, slot)
  }

  /** What an entry says when it is in its place. */
  function Entry(data: Image, slot: nat): Record
    requires HEADER_SIZE + 4 * slot + 4 <= PAGE_SIZE
  {
    if Offset(data, slot) == 0 && Length(data, slot) == 0 then None
    else if Offset(data, slot) + Length(data, slot) <= PAGE_SIZE
    then Some(data[Offset(data, slot)..Offset(data, slot) + Length(data, slot)])
    else None
  }

  predicate EntryFits(data: Image, slot: nat, upper: nat, end: nat)
    requires HEADER_SIZE + 4 * slot + 4 <= PAGE_SIZE
  {
    || (Offset(data, slot) == 0 && Length(data, slot) == 0)
    || (upper <= Offset(data, slot) && Offset(data, slot) + Length(data, slot) == end)
  }

  lemma ScanOneMore(data: Image, found: seq<Record>, end: nat, upper: nat)
    requires Scanned(data, found, end) && HEADER_SIZE + 4 * |found| + 4 <= PAGE_SIZE && HEADER_SIZE <= upper
    requires EntryFits(data, |found|, upper, end)
    ensures Scanned(data, found + [Entry(data, |found|)], end - Size(Entry(data, |found|)))
  {
    var entry := Entry(data, |found|);
    var more := found + [entry];
    UsedPrefix(found, more, |found|);
    assert Used(more, |more|) == Used(more, |found|) + Size(entry);
    forall slot: nat ensures SlotHolds(data, more, slot) {
      if slot < |found| {
        assert SlotHolds(data, found, slot);
        UsedPrefix(found, more, slot + 1);
      }
    }
  }

  /** A packed page passes the check of every entry. */
  lemma PackedEntryFits(data: Image, records: seq<Record>, found: seq<Record>, end: nat)
    requires Packed(data, records) && Scanned(data, found, end) && |found| < |records|
    ensures EntryFits(data, |found|, Upper(data), end)
  {
    var n := |found|;
    UsedGrows(records, n, |records|);
    UsedGrows(records, n + 1, |records|);
    SameRecords(data, records, found, n);
    assert found[..n] == found;
    UsedPrefix(found, records, n);
    assert SlotHolds(data, records, n);
  }

  lemma ScannedAll(data: Image, found: seq<Record>, end: nat)
    requires Scanned(data, found, end) && |found| == Count(data) && end == Upper(data)
    requires Lower(data) == HEADER_SIZE + 4 * Count(data) <= Upper(data)
    ensures Packed(data, found)
  {
  }

  lemma PackedEnds(data: Image, records: seq<Record>, found: seq<Record>, end: nat)
    requires Packed(data, records) && Scanned(data, found, end) && |found| == |records|
    ensures end == Upper(data)
  {
    SameRecords(data, records, found, |found|);
    UsedPrefix(found, records, |found|);
  }

  /** The loop of from_bytes: every entry is in its place, below the one before it. */
  method CheckEntries(data: Image) returns (ok: bool, ghost found: seq<Record>)
    requires Lower(data) == HEADER_SIZE + 4 * Count(data) <= Upper(data) <= PAGE_SIZE
    ensures ok <==> exists records :: Packed(data, records)
    ensures ok ==> Packed(data, found)
  {
    found := [];
    var end := PAGE_SIZE;
    for slot := 0 to Count(data)
      invariant |found| == slot && Scanned(data, found, end)
    {
      if !EntryFits(data, slot, Upper(data), end) {
        forall records ensures !Packed(data, records) {
          if Packed(data, records) {
            PackedEntryFits(data, records, found, end);
          }
        }
        return false, [];
      }
      ScanOneMore(data, found, end, Upper(data));
      var entry := Entry(data, slot);
      found := found + [entry];
      if Offset(data, slot) != 0 {
        end := Offset(data, slot);
      }
    }
    ok := end == Upper(data);
    if ok {
      ScannedAll(data, found, end);
    } else {
      forall records ensures !Packed(data, records) {
        if Packed(data, records) {
          PackedEnds(data, records, found, end);
        }
      }
    }
  }

  // ----- a fresh page -----

  function Zeroed(): (r: Image)
    ensures forall k :: 0 <= k < PAGE_SIZE ==> r[k] == 0
  {
    seq(PAGE_SIZE, _ => 0)
  }

  /** The page's format and number. */
  function Titled(pageId: nat): Image {
    Patch(Patch(Patch(Patch(Zeroed(), 0, PAGE_MAGIC), 4, Le(2, 2)), 6, Le(PAGE_SIZE, 2)), 8, Le(pageId, 8))
  }

  /** Zero bytes with a fresh header. */
  function Blank(pageId: nat): Image {
    Patch(Patch(Titled(pageId), 18, Le(HEADER_SIZE, 2)), 20, Le(PAGE_SIZE, 2))
  }

  lemma {:induction false} ZeroNumber(at: nat, width: nat)
    requires at + width <= PAGE_SIZE
    ensures Number(Zeroed(), at, width) == 0
    decreases width
  {
    if width > 0 {
      ZeroNumber(at + 1, width - 1);
    }
  }

  lemma BlankNumbers(pageId: nat)
    requires pageId <= U64_MAX
    ensures var b := Blank(pageId);
            && U16(b, 4) == 2 && U16(b, 6) == PAGE_SIZE && PageId(b) == pageId && Count(b) == 0
            && Lower(b) == HEADER_SIZE && Upper(b) == PAGE_SIZE
  {
    Widths();
    var d1 := Patch(Zeroed(), 0, PAGE_MAGIC);
    var d2 := Patch(d1, 4, Le(2, 2));
    var d3 := Patch(d2, 6, Le(PAGE_SIZE, 2));
    var d4 := Patch(d3, 8, Le(pageId, 8));
    var d5 := Patch(d4, 18, Le(HEADER_SIZE, 2));
    NumberWritten(d1, 4, 2, 2);
    NumberWritten(d2, 6, PAGE_SIZE, 2);
    NumberWritten(d3, 8, pageId, 8);
    NumberWritten(d4, 18, HEADER_SIZE, 2);
    NumberWritten(d5, 20, PAGE_SIZE, 2);
    SameNumber(d2, Blank(pageId), 4, 2);
    SameNumber(d3, Blank(pageId), 6, 2);
    SameNumber(d4, Blank(pageId), 8, 8);
    SameNumber(d5, Blank(pageId), 18, 2);
    SameNumber(Zeroed(), Blank(pageId), 16, 2);
    ZeroNumber(16, 2);
  }

  lemma BlankHolds(pageId: nat)
    requires pageId <= U64_MAX
    ensures HeaderOk(Blank(pageId)) && Packed(Blank(pageId), [])
    ensures PageId(Blank(pageId)) == pageId && PageLsn(Blank(pageId)) == 0
  {
    BlankNumbers(pageId);
    SameNumber(Zeroed(), Blank(pageId), 22, 2);
    SameNumber(Zeroed(), Blank(pageId), 24, 8);
    ZeroNumber(22, 2);
    ZeroNumber(24, 8);
    assert Blank(pageId)[..4] == PAGE_MAGIC;
    assert Blank(pageId)[36..40] == [0, 0, 0, 0];
  }

  // ----- what fits -----

  lemma FitsExactly(records: seq<Record>, record: Record)
    requires Fits(records)
    ensures Fits(records + [record]) <==>
              Size(record) + 4 <= PAGE_SIZE - HEADER_SIZE - 4 * |records| - Used(records, |records|)
  {
    UsedPrefix(records, records + [record], |records|);
    assert Used(records + [record], |records + [record]|) == Used(records + [record], |records|) + Size(record);
  }

  /** Each record of a page is small enough to be inserted again. */
  lemma SizesFit(records: seq<Record>, slot: nat)
    requires Fits(records) && slot < |records|
    ensures Size(records[slot]) <= MAX_RECORD_SIZE
  {
    UsedGrows(records, slot + 1, |records|);
  }

  lemma SizesFitOnly(records: seq<Record>, slot: nat)
    requires slot < |records| && Size(records[slot]) > MAX_RECORD_SIZE
    ensures !Fits(records)
  {
    UsedGrows(records, slot + 1, |records|);
  }

  lemma FitsPrefix(records: seq<Record>, n: nat)
    requires Fits(records) && n <= |records|
    ensures Fits(records[..n])
  {
    UsedPrefix(records, records[..n], n);
    UsedGrows(records, n, |records|);
  }

  lemma NextTarget(target: seq<Record>, n: nat)
    requires n < |target|
    ensures target[..n] + [target[n]] == target[..n + 1]
    ensures Fits(target) ==> Fits(target[..n] + [target[n]])
  {
    assert target[..n] + [target[n]] == target[..n + 1];
    if Fits(target) {
      FitsPrefix(target, n + 1);
    }
  }

  lemma {:induction false} UsedUpdated(records: seq<Record>, slot: nat, record: Record, n: nat)
    requires slot < |records| && n <= |records|
    ensures Used(records[slot := record], n) == Used(records, n) + if slot < n then Size(record) - Size(records[slot])
            else 0
  {
    if n > 0 {
      UsedUpdated(records, slot, record, n - 1);
    }
  }

  lemma RemovedFits(records: seq<Record>, slot: nat)
    requires Fits(records) && slot < |records|
    ensures Fits(records[slot := None])
  {
    UsedUpdated(records, slot, None, |records|);
  }

  lemma LsnWritten(data: Image, lsn: nat, records: seq<Record>)
    requires HeaderOk(data) && Packed(data, records) && lsn <= U64_MAX
    ensures var b := Patch(data, 24, Le(lsn, 8));
            HeaderOk(b) && Packed(b, records) && PageId(b) == PageId(data) && PageLsn(b) == lsn
  {
    Widths();
    NumberWritten(data, 24, lsn, 8);
    HeaderUnchanged(data, Patch(data, 24, Le(lsn, 8)), records, 24, 32);
  }

  lemma RecordAddedKeeps(crc: Checksum, data: Image, records: seq<Record>, record: seq<byte>)
    requires IsChecksum(crc) && PageHolds(crc, data, records) && Fits(records + [Some(record)])
    ensures Lower(data) + 4 + |record| <= Upper(data) <= PAGE_SIZE
    ensures var b := Seal(crc, RecordAdded(data, record));
            PageHolds(crc, b, records + [Some(record)]) && PageId(b) == PageId(data) && PageLsn(b) == PageLsn(data)
  {
    RecordAddedExtends(data, records, record);
    ExtendsPacks(data, RecordAdded(data, record), records, Some(record));
    SealKeeps(crc, RecordAdded(data, record), records + [Some(record)]);
  }

  lemma EmptySlotKeeps(crc: Checksum, data: Image, records: seq<Record>)
    requires IsChecksum(crc) && PageHolds(crc, data, records) && Fits(records + [None])
    ensures Lower(data) + 4 <= Upper(data) <= PAGE_SIZE
    ensures var b := Seal(crc, SlotAdded(data, EMPTY_SLOT));
            PageHolds(crc, b, records + [None]) && PageId(b) == PageId(data) && PageLsn(b) == PageLsn(data)
  {
    EmptySlotExtends(data, records);
    ExtendsPacks(data, SlotAdded(data, EMPTY_SLOT), records, None);
    SealKeeps(crc, SlotAdded(data, EMPTY_SLOT), records + [None]);
  }

  lemma PatchApart(data: Image, at: nat, a: seq<byte>, b: seq<byte>)
    requires at + |a| + |b| <= PAGE_SIZE
    ensures Patch(Patch(data, at + |a|, b), at, a) == Patch(data, at, a + b)
  {
  }

  lemma {:induction false} NumberBounded(data: Image, at: nat, width: nat)
    requires at + width <= PAGE_SIZE
    ensures Number(data, at, width) < Power(width)
    decreases width
  {
    if width > 0 {
      NumberBounded(data, at + 1, width - 1);
    }
  }

  lemma NumbersBounded(data: Image)
    ensures PageId(data) <= U64_MAX && PageLsn(data) <= U64_MAX
  {
    Widths();
    NumberBounded(data, 8, 8);
    NumberBounded(data, 24, 8);
  }

  class SlottedPage {
    var bytes: array<byte>
    const crc: Checksum
    ghost var records: seq<Record>

    ghost predicate Valid()
      reads this, bytes
    {
      bytes.Length == PAGE_SIZE && IsChecksum(crc) && PageHolds(crc, bytes[..], records)
    }

    method WriteBytes(at: nat, data: seq<byte>)
      requires bytes.Length == PAGE_SIZE && at + |data| <= PAGE_SIZE
      modifies bytes
      ensures bytes[..] == Patch(old(bytes[..]), at, data)
    {
      for k := 0 to |data|
        invariant forall j :: 0 <= j < PAGE_SIZE ==> bytes[j] == if at <= j < at + k then data[j - at]
                  else old(bytes[j])
      {
        bytes[at + k] := data[k];
      }
    }

    method RefreshChecksum()
      requires bytes.Length == PAGE_SIZE
      modifies bytes
      ensures bytes[..] == Seal(crc, old(bytes[..]))
    {
      WriteBytes(32, Le(Computed(crc, bytes[..]), 4));
    }

    /** An empty page. */
    constructor (crc: Checksum, pageId: nat)
      requires IsChecksum(crc) && pageId <= U64_MAX
      ensures Valid() && fresh(bytes) && this.crc == crc && records == []
      ensures PageId(bytes[..]) == pageId && PageLsn(bytes[..]) == 0
    {
      this.crc, records := crc, [];
      bytes := new byte[PAGE_SIZE](_ => 0);
      new;
      assert bytes[..] == Zeroed();
      WriteBlank(pageId);
      BlankHolds(pageId);
      SealKeeps(crc, Blank(pageId), []);
      RefreshChecksum();
    }

    method WriteBlank(pageId: nat)
      requires bytes.Length == PAGE_SIZE && bytes[..] == Zeroed()
      modifies bytes
      ensures bytes[..] == Blank(pageId)
    {
      WriteTitle(pageId);
      WriteBytes(18, Le(HEADER_SIZE, 2));
      WriteBytes(20, Le(PAGE_SIZE, 2));
    }

    method WriteTitle(pageId: nat)
      requires bytes.Length == PAGE_SIZE && bytes[..] == Zeroed()
      modifies bytes
      ensures bytes[..] == Titled(pageId)
    {
      WriteBytes(0, PAGE_MAGIC);
      WriteBytes(4, Le(2, 2));
      WriteBytes(6, Le(PAGE_SIZE, 2));
      WriteBytes(8, Le(pageId, 8));
    }

    /** A page read from a file. */
    constructor Loaded(data: Image, crc: Checksum, ghost records: seq<Record>)
      requires IsChecksum(crc) && PageHolds(crc, data, records)
      ensures Valid() && fresh(bytes) && this.crc == crc && this.records == records && bytes[..] == data
    {
      this.crc, this.records := crc, records;
      bytes := new byte[PAGE_SIZE](i requires 0 <= i < PAGE_SIZE => data[i]);
      new;
      assert bytes[..] == data;
    }

    method SetLsn(lsn: nat)
      requires Valid() && lsn <= U64_MAX
      modifies bytes
      ensures Valid() && records == old(records)
      ensures PageId(bytes[..]) == old(PageId(bytes[..])) && PageLsn(bytes[..]) == lsn
    {
      ghost var before: Image := bytes[..];
      WriteBytes(24, Le(lsn, 8));
      LsnWritten(before, lsn, records);
      SealKeeps(crc, bytes[..], records);
      RefreshChecksum();
    }

    function Free(): nat
      requires Valid()
      reads this, bytes
      ensures Free() == PAGE_SIZE - HEADER_SIZE - 4 * |records| - Used(records, |records|)
    {
      Upper(bytes[..]) - Lower(bytes[..])
    }

    /** Appends a record, exactly when it and its entry fit; a refused record changes no byte. */
    method Insert(record: seq<byte>) returns (r: PageResult<nat>)
      requires Valid()
      modifies this`records, bytes
      ensures Valid() && PageId(bytes[..]) == old(PageId(bytes[..])) && PageLsn(bytes[..]) == old(PageLsn(bytes[..]))
      ensures r.Done? <==> Fits(old(records) + [Some(record)])
      ensures r.Done? ==> r.value == |old(records)| && records == old(records) + [Some(record)]
      ensures r.Failed? ==> bytes[..] == old(bytes[..]) && records == old(records)
      ensures r.Failed? ==> r.error == if |record| > MAX_RECORD_SIZE then RecordTooLarge else Full
    {
      FitsExactly(records, Some(record));
      if |record| > MAX_RECORD_SIZE {
        return Failed(RecordTooLarge);
      }
      if |record| + 4 > Free() {
        return Failed(Full);
      }
      RecordAddedKeeps(crc, bytes[..], records, record);
      var slot := Count(bytes[..]);
      WriteRecord(record);
      RefreshChecksum();
      records := records + [Some(record)];
      return Done(slot);
    }

    /** The record's bytes, its entry, and the three header fields. */
    method WriteRecord(record: seq<byte>)
      requires bytes.Length == PAGE_SIZE
      requires |record| <= Upper(bytes[..]) <= PAGE_SIZE && Lower(bytes[..]) + 4 <= PAGE_SIZE
      modifies bytes
      ensures bytes[..] == RecordAdded(old(bytes[..]), record)
    {
      var slot, lower, upper := Count(bytes[..]), Lower(bytes[..]), Upper(bytes[..]);
      var offset := upper - |record|;
      WriteBytes(offset, record);
      WriteEntry(lower, slot, offset, |record|);
    }

    method WriteEntry(lower: nat, slot: nat, offset: nat, length: nat)
      requires bytes.Length == PAGE_SIZE && lower + 4 <= PAGE_SIZE
      modifies bytes
      ensures bytes[..] == EntryAdded(old(bytes[..]), lower, slot, offset, length)
    {
      WriteTwo(lower, offset, length);
      WriteTwo(16, slot + 1, lower + 4);
      WriteBytes(20, Le(offset, 2));
    }

    /** Two adjacent 16-bit fields. */
    method WriteTwo(at: nat, a: nat, b: nat)
      requires bytes.Length == PAGE_SIZE && at + 4 <= PAGE_SIZE
      modifies bytes
      ensures bytes[..] == Patch(old(bytes[..]), at, Le(a, 2) + Le(b, 2))
    {
      PatchTwice(bytes[..], at, Le(a, 2), Le(b, 2));
      WriteBytes(at, Le(a, 2));
      WriteBytes(at + 2, Le(b, 2));
    }

    /** A record or nothing in the slot; a removed slot has nothing. */
    method Get(slot: nat) returns (record: Record)
      requires Valid()
      ensures record == if slot < |records| then records[slot] else None
    {
      ghost var data: Image := bytes[..];
      if slot >= Count(bytes[..]) {
        return None;
      }
      assert SlotHolds(data, records, slot);
      UsedGrows(records, slot + 1, |records|);
      var offset, length := Offset(bytes[..], slot), Length(bytes[..], slot);
      if offset == 0 {
        return None;
      }
      return Some(bytes[offset..offset + length]);
    }

    /** A record, or an empty slot in its place. */
    method AppendOptional(record: Record) returns (r: PageResult<()>)
      requires Valid()
      modifies this`records, bytes
      ensures Valid() && PageId(bytes[..]) == old(PageId(bytes[..])) && PageLsn(bytes[..]) == old(PageLsn(bytes[..]))
      ensures r.Done? <==> Fits(old(records) + [record])
      ensures r.Done? ==> records == old(records) + [record]
      ensures r.Failed? ==> bytes[..] == old(bytes[..]) && records == old(records)
      ensures r.Failed? && Size(record) <= MAX_RECORD_SIZE ==> r.error == Full
    {
      if record.Some? {
        var inserted := Insert(record.value);
        match inserted
        case Done(_) => return Done(());
        case Failed(e) => return Failed(e);
      }
      FitsExactly(records, None);
      if Free() < 4 {
        return Failed(Full);
      }
      EmptySlotKeeps(crc, bytes[..], records);
      WriteEmptySlot();
      RefreshChecksum();
      records := records + [None];
      return Done(());
    }

    method WriteEmptySlot()
      requires bytes.Length == PAGE_SIZE && Lower(bytes[..]) + 4 <= PAGE_SIZE
      modifies bytes
      ensures bytes[..] == SlotAdded(old(bytes[..]), EMPTY_SLOT)
    {
      var lower, count := Lower(bytes[..]), Count(bytes[..]);
      Zeros();
      WriteTwo(lower, 0, 0);
      PatchApart(bytes[..], 16, Le(count + 1, 2), Le(lower + 4, 2));
      WriteBytes(18, Le(lower + 4, 2));
      WriteBytes(16, Le(count + 1, 2));
    }

    /** A page of its own with these records, built by appending them, as far as they fit. */
    method Rebuilt(ghost target: seq<Record>, slot: nat, record: Record) returns (r: PageResult<SlottedPage>)
      requires Valid() && slot < |records| && target == records[slot := record]
      ensures r.Done? <==> Fits(target)
      ensures r.Done? ==>
                && fresh(r.value) && fresh(r.value.bytes) && r.value.Valid() && r.value.crc == crc
                   && r.value.records == target
                && PageId(r.value.bytes[..]) == PageId(bytes[..]) && PageLsn(r.value.bytes[..]) == PageLsn(bytes[..])
      ensures r.Failed? && Size(record) <= MAX_RECORD_SIZE ==> r.error == Full
    {
      NumbersBounded(bytes[..]);
      var rebuilt := new SlottedPage(crc, PageId(bytes[..]));
      rebuilt.SetLsn(PageLsn(bytes[..]));
      ghost var id, lsn := PageId(bytes[..]), PageLsn(bytes[..]);
      for index := 0 to Count(bytes[..])
        invariant fresh(rebuilt) && fresh(rebuilt.bytes) && rebuilt.Valid() && rebuilt.crc == crc
        invariant rebuilt.records == target[..index]
        invariant PageId(rebuilt.bytes[..]) == id && PageLsn(rebuilt.bytes[..]) == lsn
      {
        var own := Get(index);
        SizesFit(records, index);
        NextTarget(target, index);
        var appended := rebuilt.AppendOptional(if index == slot then record else own);
        if appended.Failed? {
          return Failed(appended.error);
        }
      }
      assert target[..|target|] == target;
      return Done(rebuilt);
    }

    /** Replaces a live record exactly when the page still holds it all; a refusal changes no byte. */
    method Replace(slot: nat, record: seq<byte>) returns (r: PageResult<()>)
      requires Valid()
      modifies this
      ensures Valid() && PageId(bytes[..]) == old(PageId(bytes[..])) && PageLsn(bytes[..]) == old(PageLsn(bytes[..]))
      ensures r.Done? <==> slot < |old(records)| && old(records)[slot].Some? && Fits(old(records)[slot := Some(record)])
      ensures r.Done? ==> fresh(bytes) && records == old(records)[slot := Some(record)]
      ensures r.Failed? ==> bytes == old(bytes) && bytes[..] == old(bytes[..]) && records == old(records)
      ensures r.Failed? ==> r.error == if slot >= |old(records)| || old(records)[slot].None? then InvalidLayout
                                       else if |record| > MAX_RECORD_SIZE then RecordTooLarge else Full
    {
      var own := Get(slot);
      if own.None? {
        return Failed(InvalidLayout);
      }
      if |record| > MAX_RECORD_SIZE {
        SizesFitOnly(records[slot := Some(record)], slot);
        return Failed(RecordTooLarge);
      }
      var rebuilt := Rebuilt(records[slot := Some(record)], slot, Some(record));
      if rebuilt.Failed? {
        return Failed(rebuilt.error);
      }
      bytes, records := rebuilt.value.bytes, rebuilt.value.records;
      return Done(());
    }

    /** Empties a live slot; the others keep their numbers and their records.  It never fails. */
    method Remove(slot: nat) returns (removed: bool)
      requires Valid()
      modifies this
      ensures Valid() && PageId(bytes[..]) == old(PageId(bytes[..])) && PageLsn(bytes[..]) == old(PageLsn(bytes[..]))
      ensures removed <==> slot < |old(records)| && old(records)[slot].Some?
      ensures removed ==> fresh(bytes) && records == old(records)[slot := None]
      ensures !removed ==> bytes == old(bytes) && bytes[..] == old(bytes[..]) && records == old(records)
    {
      var own := Get(slot);
      if own.None? {
        return false;
      }
      RemovedFits(records, slot);
      var rebuilt := Rebuilt(records[slot := None], slot, None);
      bytes, records := rebuilt.value.bytes, rebuilt.value.records;
      return true;
    }
  }

  /** Validation accepts exactly the well-formed pages, and says what is wrong with the others. */
  method FromBytes(data: seq<byte>, crc: Checksum) returns (r: PageResult<SlottedPage>)
    requires IsChecksum(crc)
    ensures r.Done? <==> |data| == PAGE_SIZE && exists records :: PageHolds(crc, data, records)
    ensures r.Done? ==>
              fresh(r.value) && fresh(r.value.bytes) && r.value.Valid() && r.value.crc == crc
              && r.value.bytes[..] == data
    ensures r.Failed? ==>
              match r.error
              case InvalidSize => |data| != PAGE_SIZE
              case ChecksumMismatch => |data| == PAGE_SIZE && !Sealed(crc, data) && HeaderOk(data)
                  && exists records :: Packed(data, records)
              case InvalidLayout => |data| == PAGE_SIZE && HeaderOk(data) && forall records :: !Packed(data, records)
              case UnsupportedVersion => |data| == PAGE_SIZE && U16(data, 4) != 2
              case InvalidHeader => |data| == PAGE_SIZE && !HeaderOk(data)
              case _ => false
  {
    if |data| != PAGE_SIZE {
      return Failed(InvalidSize);
    }
    if data[..4] != PAGE_MAGIC {
      return Failed(InvalidHeader);
    }
    if U16(data, 4) != 2 {
      return Failed(UnsupportedVersion);
    }
    if U16(data, 6) != PAGE_SIZE || U16(data, 22) != 0 || data[36..40] != [0, 0, 0, 0] {
      return Failed(InvalidHeader);
    }
    if Lower(data) != HEADER_SIZE + 4 * Count(data) || Lower(data) > Upper(data) || Upper(data) > PAGE_SIZE {
      return Failed(InvalidLayout);
    }
    var ok, found := CheckEntries(data);
    if !ok {
      return Failed(InvalidLayout);
    }
    if Number(data, 32, 4) != Computed(crc, data) {
      return Failed(ChecksumMismatch);
    }
    var page := new SlottedPage.Loaded(data, crc, found);
    return Done(page);
  }
}
