/**
 Frames on disk (storage/frame.rs): a 32-byte header with its own checksum, the payload, and a trailer.

 Reading any prefix of a file of frames returns exactly the frames that are complete in it and never
 an error.  The checksum is a parameter; nothing about it is used but that it is a function of the bytes.
 */
module Frames {
  import opened Results
  import opened LittleEndian
  import Wal

  type Checksum = seq<byte> -> nat

  const MAX_FRAME: nat := 64 * 1024 * 1024
  const MAGIC: seq<byte> := [69, 86, 70, 82]
  const TRAILER: seq<byte> := [69, 86, 67, 79, 77, 77, 73, 84]

  datatype Record = Record(kind: nat, lsn: nat, payload: seq<byte>)

  /** What encode() accepts. */
  predicate Encodable(record: Record) {
    record.kind < 0x1_0000 && record.lsn <= U64_MAX && |record.payload| <= MAX_FRAME
  }

  ghost predicate IsChecksum(crc: Checksum) {
    forall bytes :: crc(bytes) < 0x1_0000_0000
  }

  /** The first 28 bytes of the header. */
  function Fields(crc: Checksum, record: Record): (r: seq<byte>)
    ensures |r| == 28
  {
    MAGIC + Le(1, 2) + Le(record.kind, 2) + Le(record.lsn, 8) + Le(|record.payload|, 8) + Le(crc(record.payload), 4)
  }

  function Header(crc: Checksum, record: Record): (r: seq<byte>)
    ensures |r| == 32
  {
    Fields(crc, record) + Le(crc(Fields(crc, record)), 4)
  }

  function Encode(crc: Checksum, record: Record): (r: seq<byte>)
    ensures |r| == 40 + |record.payload|
  {
    Header(crc, record) + record.payload + TRAILER
  }

  /** header_length */
  function HeaderLength(crc: Checksum, header: seq<byte>): Result<nat>
    requires |header| == 32
  {
    if header[..4] != MAGIC || header[4..6] != Le(1, 2) || crc(header[..28]) != FromLe(header[28..32]) then Err(Corrupt)
    else if FromLe(header[16..24]) > MAX_FRAME then Err(Corrupt)
    else Ok(FromLe(header[16..24]))
  }

  /** assemble */
  function Assemble(crc: Checksum, header: seq<byte>, payload: seq<byte>, trailer: seq<byte>): Result<Record>
    requires |header| == 32
  {
    if trailer != TRAILER || crc(payload) != FromLe(header[24..28]) then Err(Corrupt)
    else Ok(Record(FromLe(header[6..8]), FromLe(header[8..16]), payload))
  }

  /** read: the frame at a position; None for an empty or incomplete tail. */
  function Read(crc: Checksum, file: seq<byte>, position: nat): Result<Option<Record>>
    requires position <= |file|
  {
    if |file| - position < 32 then Ok(None)
    else
      var header := file[position..position + 32];
      match HeaderLength(crc, header)
      case Err(e) => Err(e)
      case Ok(length) =>
        if |file| - position < 40 + length then Ok(None)
        else
          match Assemble(crc, header, file[position + 32..position + 32 + length],
              file[position + 32 + length..position + 40 + length])
          case Err(e) => Err(e)
          case Ok(record) => Ok(Some(record))
  }

  // ----- a header says what was written -----

  lemma HeaderParts(crc: Checksum, record: Record)
    ensures var h := Header(crc, record);
            && h[..4] == MAGIC && h[4..6] == Le(1, 2) && h[6..8] == Le(record.kind, 2) && h[8..16] == Le(record.lsn, 8)
            && h[16..24] == Le(|record.payload|, 8) && h[24..28] == Le(crc(record.payload), 4)
            && h[..28] == Fields(crc, record) && h[28..32] == Le(crc(Fields(crc, record)), 4)
  {
  }

  lemma HeaderReads(crc: Checksum, record: Record)
    requires Encodable(record) && IsChecksum(crc)
    ensures HeaderLength(crc, Header(crc, record)) == Ok(|record.payload|)
    ensures Assemble(crc, Header(crc, record), record.payload, TRAILER) == Ok(record)
  {
    HeaderParts(crc, record);
    Widths();
    LeRoundTrip(record.kind, 2);
    LeRoundTrip(record.lsn, 8);
    LeRoundTrip(|record.payload|, 8);
    LeRoundTrip(crc(record.payload), 4);
    LeRoundTrip(crc(Fields(crc, record)), 4);
  }

  /** Slices of the middle part, as far as the cut reaches. */
  lemma Middle(before: seq<byte>, middle: seq<byte>, after: seq<byte>, cut: nat, first: nat, last: nat)
    requires cut <= |before + middle + after| && first <= last <= |middle| && |before| + last <= cut
    ensures (before + middle + after)[..cut][|before| + first..|before| + last] == middle[first..last]
  {
  }

  lemma EncodeParts(crc: Checksum, record: Record)
    ensures var bytes, n := Encode(crc, record), |record.payload|;
            bytes[0..32] == Header(crc, record) && bytes[32..32 + n] == record.payload
                && bytes[32 + n..40 + n] == TRAILER
  {
  }

  /** A frame reads back as written; any proper part of it reads as an incomplete tail. */
  lemma FrameReads(crc: Checksum, before: seq<byte>, record: Record, after: seq<byte>, cut: nat)
    requires Encodable(record) && IsChecksum(crc) && |before| <= cut <= |before + Encode(crc, record) + after|
    ensures Read(crc, (before + Encode(crc, record) + after)[..cut], |before|) ==
              if cut - |before| >= 40 + |record.payload| then Ok(Some(record)) else Ok(None)
  {
    var bytes, n := Encode(crc, record), |record.payload|;
    EncodeParts(crc, record);
    HeaderReads(crc, record);
    if cut - |before| >= 32 {
      Middle(before, bytes, after, cut, 0, 32);
      if cut - |before| >= 40 + n {
        Middle(before, bytes, after, cut, 32, 32 + n);
        Middle(before, bytes, after, cut, 32 + n, 40 + n);
      }
    }
  }

  // ----- a file of frames -----

  function EncodeAll(crc: Checksum, records: seq<Record>): seq<byte> {
    if records == [] then [] else Encode(crc, records[0]) + EncodeAll(crc, records[1..])
  }

  /** The records complete within the first `limit` bytes. */
  function Complete(records: seq<Record>, limit: nat): seq<Record> {
    if records == [] || 40 + |records[0].payload| > limit then []
    else [records[0]] + Complete(records[1..], limit - (40 + |records[0].payload|))
  }

  ghost predicate AllEncodable(records: seq<Record>) {
    forall i :: 0 <= i < |records| ==> Encodable(records[i])
  }

  /** The outcome of the read after `done`. */
  function Outcome(rest: seq<Record>, left: nat): Result<Option<Record>> {
    if rest != [] && left >= 40 + |rest[0].payload| then Ok(Some(rest[0])) else Ok(None)
  }

  lemma NextRecord(crc: Checksum, done: seq<byte>, rest: seq<Record>, file: seq<byte>)
    requires IsChecksum(crc) && AllEncodable(rest) && file <= done + EncodeAll(crc, rest) && |done| <= |file|
    ensures Read(crc, file, |done|) == Outcome(rest, |file| - |done|)
  {
    if rest != [] {
      var after := EncodeAll(crc, rest[1..]);
      assert done + EncodeAll(crc, rest) == done + Encode(crc, rest[0]) + after;
      assert (done + Encode(crc, rest[0]) + after)[..|file|] == file;
      FrameReads(crc, done, rest[0], after, |file|);
    }
  }

  lemma OneMoreRead(crc: Checksum, read: seq<Record>, rest: seq<Record>)
    requires rest != []
    ensures EncodeAll(crc, read) + EncodeAll(crc, rest) == EncodeAll(crc, read + [rest[0]]) + EncodeAll(crc, rest[1..])
    ensures |EncodeAll(crc, read + [rest[0]])| == |EncodeAll(crc, read)| + 40 + |rest[0].payload|
  {
    Appended(crc, read, rest[0]);
    Regrouped(EncodeAll(crc, read), Encode(crc, rest[0]), EncodeAll(crc, rest[1..]));
  }

  lemma Regrouped<X>(a: seq<X>, b: seq<X>, c: seq<X>)
    ensures a + (b + c) == (a + b) + c
  {
  }

  /** The scan of a log segment: complete frames in order, and where the last one ends. */
  method ReadAll(crc: Checksum, file: seq<byte>, ghost records: seq<Record>) returns (r: Result<seq<Record>>, end: nat)
    requires IsChecksum(crc) && AllEncodable(records) && file <= EncodeAll(crc, records)
    ensures r == Ok(Complete(records, |file|))
    ensures end == |EncodeAll(crc, Complete(records, |file|))| <= |file|
  {
    var read: seq<Record> := [];
    end := 0;
    ghost var rest := records;
    assert EncodeAll(crc, read) + EncodeAll(crc, rest) == EncodeAll(crc, records);
    NextRecord(crc, EncodeAll(crc, read), rest, file);
    var next := Read(crc, file, end);
    while next.Ok? && next.value.Some?
      invariant EncodeAll(crc, read) + EncodeAll(crc, rest) == EncodeAll(crc, records)
      invariant end == |EncodeAll(crc, read)| <= |file| && AllEncodable(rest)
      invariant Complete(records, |file|) == read + Complete(rest, |file| - end)
      invariant next == Outcome(rest, |file| - end)
      decreases |rest|
    {
      OneMoreRead(crc, read, rest);
      Regrouped(read, [rest[0]], Complete(rest[1..], |file| - end - (40 + |rest[0].payload|)));
      read := read + [next.value.value];
      end := end + 40 + |next.value.value.payload|;
      rest := rest[1..];
      NextRecord(crc, EncodeAll(crc, read), rest, file);
      next := Read(crc, file, end);
    }
    assert Complete(rest, |file| - end) == [] && read + [] == read;
    match next {
      case Err(e) => return Err(e), end;
      case Ok(_) => return Ok(read), end;
    }
  }

  lemma {:induction false} Appended(crc: Checksum, records: seq<Record>, record: Record)
    ensures EncodeAll(crc, records + [record]) == EncodeAll(crc, records) + Encode(crc, record)
  {
    if records == [] {
      assert [record][1..] == [];
    } else {
      assert (records + [record])[1..] == records[1..] + [record];
      Appended(crc, records[1..], record);
    }
  }

  // ----- the log model of module Wal -----

  /** How the log's frames are written, with the payload lengths the log model accounts for. */
  ghost predicate Writes(e: Wal.Engine, write: Wal.Frame -> Record) {
    forall frame :: Encodable(write(frame)) && 40 + |write(frame).payload| == Wal.Size(e, frame)
  }

  function WriteAll(write: Wal.Frame -> Record, frames: seq<Wal.Frame>): seq<Record> {
    seq(|frames|, i requires 0 <= i < |frames| => write(frames[i]))
  }

  /** Cutting the bytes of a segment anywhere leaves exactly the frames Wal.Cut keeps. */
  lemma {:induction false} CuttingBytesCutsFrames(
    e: Wal.Engine, write: Wal.Frame -> Record, frames: seq<Wal.Frame>, limit: nat)
    requires Writes(e, write)
    ensures Complete(WriteAll(write, frames), limit) == WriteAll(write, Wal.Cut(e, frames, limit))
  {
    if frames != [] && Wal.Size(e, frames[0]) <= limit {
      assert WriteAll(write, frames)[1..] == WriteAll(write, frames[1..]);
      CuttingBytesCutsFrames(e, write, frames[1..], limit - Wal.Size(e, frames[0]));
      assert 40 + |write(frames[0]).payload| == Wal.Size(e, frames[0]);
    } else if frames != [] {
      assert 40 + |write(frames[0]).payload| == Wal.Size(e, frames[0]);
    }
  }
}
