/**
 Writing one table of a checkpoint (snapshot.rs, TableWriter): records go to new files, index
 entries are appended in key order, and what did not change is taken over from the older manifest.
 */
module TableWriters {
  import opened Results
  import opened Model
  import opened Histories
  import H = Histories
  import opened Files
  import opened Partitions
  import opened Archives
  import opened SortedKeys
  import opened Copying
  import opened Holding

  /** Next free places: no record of this generation lies at or after them. */
  ghost predicate Unused(archive: Archive, generation: nat, segment: nat, offset: nat, ends: map<nat, nat>) {
    forall at :: at in archive && at.place.Place? && at.place.generation == generation ==>
      if at.kind == EVENTS then Less((at.place.segment, at.place.offset), (segment, offset))
      else at.place.offset < EndOf(ends, at.kind)
  }

  function EndOf(ends: map<nat, nat>, kind: nat): nat {
    if kind in ends then ends[kind] else 0
  }

  class TableWriter {
    const table: nat
    const generation: nat
    const slot: nat
    const segmentLimit: nat
    const size: Record -> nat
    const rewriteHistory: bool
    const rewriteIndexes: bool
    const indexes: Indexes
    var archive: Archive
    var segment: nat
    var offset: nat
    var ends: map<nat, nat>
    var entities: nat
    var reused: set<FileId>

    constructor (
      table: nat, generation: nat, slot: nat, segmentLimit: nat, size: Record -> nat, rewriteHistory: bool,
      rewriteIndexes: bool, archive: Archive)
      requires forall record :: size(record) > 0
      requires forall at :: at in archive && at.place.Place? ==> at.place.generation != generation
      ensures Valid() && Lean() && fresh(indexes)
      ensures this.table == table && this.generation == generation && this.slot == slot
      ensures this.rewriteHistory == rewriteHistory && this.rewriteIndexes == rewriteIndexes
      ensures this.archive == archive && State() == Built(map[], map[]) && reused == {} && entities == 0
              && indexes.files == {}
    {
      this.table, this.generation, this.slot := table, generation, slot;
      this.segmentLimit, this.size, this.rewriteHistory, this.rewriteIndexes :=
          segmentLimit, size, rewriteHistory, rewriteIndexes;
      this.indexes := new Indexes(table, generation);
      this.archive := archive;
      segment, offset, ends, entities, reused := 0, 0, map[], 0, {};
      new;
      assert AllNeeded(State(), {}, {});
    }

    function State(): Built
      reads this, indexes
    {
      indexes.State()
    }

    ghost predicate Valid()
      reads this, indexes
    {
      && indexes.table == table && indexes.generation == generation
      && BuiltOk(State()) && Stored(State(), archive) && OfTable(State(), table)
      && Unused(archive, generation, segment, offset, ends)
      && Listed(State(), reused, indexes.files, indexes.created, table, generation, segment) && indexes.Handled()
      && (forall record :: size(record) > 0)
    }

    /** Every older file that is kept is one that some partition needs. */
    ghost predicate Lean()
      reads this, indexes
    {
      Needed(State(), reused, indexes.files)
    }

    /** Appends a record to the file of its kind; event files roll over at the segment limit. */
    method AppendRecord(kind: nat, record: Record) returns (place: Pointer)
      requires Valid() && kind != PRIMARY
      modifies this`archive, this`segment, this`offset, this`ends
      ensures Valid() && Preserves(old(archive), archive)
      ensures place.Place? && place.generation == generation && At(kind, place) !in old(archive)
      ensures kind != EVENTS ==> place.segment == 0
      ensures kind == EVENTS ==>
                && (place.offset == 0 || place.offset + size(record) <= segmentLimit)
                && place == if old(offset) == 0 || old(offset) + size(record) <= segmentLimit
                            then Place(generation, old(segment), old(offset))
                            else Place(generation, old(segment) + 1, 0)
      ensures archive == old(archive)[At(kind, place) := record]
      ensures old(segment) <= segment && IsOwn(FileOf(kind, table, place), table, generation, segment)
    {
      if kind == EVENTS {
        if offset != 0 && offset + size(record) > segmentLimit {
          segment, offset := segment + 1, 0;
        }
        place := Place(generation, segment, offset);
        offset := offset + size(record);
      } else {
        place := Place(generation, 0, EndOf(ends, kind));
        ends := ends[kind := EndOf(ends, kind) + 1];
      }
      ghost var before := archive;
      archive := archive[At(kind, place) := record];
      StillStored(State(), before, archive);
    }

    /** Indexes a record that is already in the archive. */
    method Index(kind: nat, key: Pair, pointer: Pointer, dependency: set<FileId>) returns (ok: bool)
      requires Valid() && Ready(State(), kind, key)
      requires Fits(kind, table, key, pointer, dependency)
      requires kind != PRIMARY ==> At(kind, pointer) in archive && Identified(kind, archive[At(kind, pointer)], key)
      requires forall file :: file in dependency ==> file in reused || IsOwn(file, table, generation, segment)
      modifies indexes`sealed, indexes`pending, indexes`created
      ensures ok && Valid()
      ensures Indexed(old(State()), State(), kind, key, pointer)
      ensures With(old(State()), State(), Route(kind, Bucket(kind, key)),
              Appended(old(State()), FileId(table, generation, kind, 0), kind, key, pointer, dependency))
      ensures old(Lean()) ==> Lean()
    {
      ghost var b, created := State(), indexes.created;
      ReadyAppends(b, kind, key);
      ok := indexes.Append(kind, key, pointer, dependency);
      AppendedOk(b, State(), indexes.File(kind), kind, key, pointer, dependency);
      AppendIndexes(b, State(), indexes.File(kind), kind, key, pointer, dependency);
      IndexedStored(b, State(), archive, kind, key, pointer);
      AppendedListed(b, State(), kind, key, pointer, dependency, reused, indexes.files, created, table, generation,
          segment);
      if Needed(b, reused, indexes.files) {
        GrownNeeds(b, State(), Route(kind, Bucket(kind, key)),
                   Appended(b, indexes.File(kind), kind, key, pointer, dependency), reused, indexes.files);
      }
    }

    /** Keeps a history file of an older manifest; fails when that manifest does not list it. */
    method Remember(file: FileId, src: Source) returns (ok: bool)
      requires Valid()
      modifies this`reused
      ensures Valid()
      ensures ok <==> file in old(reused) || file in src.files
      ensures ok ==> reused == old(reused) + {file}
      ensures !ok ==> reused == old(reused)
    {
      if file !in reused {
        if file !in src.files {
          return false;
        }
        reused := reused + {file};
      }
      return true;
    }

    /** Takes over a whole partition of an older manifest. */
    method TakeOver(route: Route, part: Part, src: Source) returns (ok: bool)
      requires Valid() && Lean() && SourceOk(src, table, archive)
      requires route.kind != PRIMARY && route in src.parts && part == src.parts[route]
      requires Clear(State(), route.kind, route.at)
      modifies this`reused, indexes
      ensures ok && Valid() && Lean()
      ensures With(old(State()), State(), route, part)
      ensures OthersReady(old(State()), State(), route.kind)
      ensures old(reused) <= reused
    {
      ghost var b := State();
      ok := RememberAll(part.dependencies, src);
      ok := indexes.Reuse(route, part, src.files);
      TakenOver(b, State(), src, archive, route);
      GrownNeeds(b, State(), route, part, old(reused), old(indexes.files));
      forall k, other | k != route.kind && Ready(b, k, other) ensures Ready(State(), k, other) {
        OtherReady(b, State(), route, part, k, other);
      }
    }

    method RememberAll(files: set<FileId>, src: Source) returns (ok: bool)
      requires Valid() && files <= src.files
      modifies this`reused
      ensures ok && Valid() && reused == old(reused) + files
    {
      var rest := files;
      while rest != {}
        invariant rest <= files && Valid()
        invariant reused == old(reused) + (files - rest)
        decreases rest
      {
        var file :| file in rest;
        ok := Remember(file, src);
        rest := rest - {file};
      }
      return true;
    }

    /** Indexes one entry of an older manifest: its record where it is, or a copy when history is rewritten. */
    method CopyEntry(kind: nat, key: Pair, place: Pointer, src: Source) returns (ok: bool)
      requires Valid() && Lean() && SourceOk(src, table, archive) && (kind == EVENTS || kind == SNAPSHOTS)
      requires Entry(Sealed(src.parts), kind, key) == Some(place) && Ready(State(), kind, key)
      modifies this, indexes`sealed, indexes`pending, indexes`created
      ensures ok && Valid() && Lean() && Preserves(old(archive), archive) && entities == old(entities)
              && old(reused) <= reused
      ensures CopiedEntry(old(State()), old(archive), State(), archive, Sealed(src.parts), kind, key)
      ensures rewriteHistory ==> reused == old(reused) && indexes.files == old(indexes.files)
    {
      if rewriteHistory {
        ok := RewriteEntry(kind, key, place, src);
      } else {
        ok := KeepEntry(kind, key, place, src);
      }
    }

    /** The record is read, checked and written again. */
    method RewriteEntry(kind: nat, key: Pair, place: Pointer, src: Source) returns (ok: bool)
      requires Valid() && Lean() && SourceOk(src, table, archive) && (kind == EVENTS || kind == SNAPSHOTS)
      requires Entry(Sealed(src.parts), kind, key) == Some(place) && Ready(State(), kind, key)
      modifies this, indexes`sealed, indexes`pending, indexes`created
      ensures ok && Valid() && Lean() && Preserves(old(archive), archive) && entities == old(entities)
              && old(reused) <= reused
      ensures CopiedEntry(old(State()), old(archive), State(), archive, Sealed(src.parts), kind, key)
      ensures reused == old(reused)
    {
      var record := archive[At(kind, place)];
      if !Identified(kind, record, key) {
        return false;
      }
      var copy := AppendRecord(kind, record);
      ok := Index(kind, key, copy, {FileOf(kind, table, copy)});
    }

    /** The entry keeps pointing at the record where it is. */
    method KeepEntry(kind: nat, key: Pair, place: Pointer, src: Source) returns (ok: bool)
      requires Valid() && Lean() && SourceOk(src, table, archive) && (kind == EVENTS || kind == SNAPSHOTS)
      requires Entry(Sealed(src.parts), kind, key) == Some(place) && Ready(State(), kind, key)
      modifies this, indexes`sealed, indexes`pending, indexes`created
      ensures ok && Valid() && Lean() && Preserves(old(archive), archive) && entities == old(entities)
              && old(reused) <= reused
      ensures CopiedEntry(old(State()), old(archive), State(), archive, Sealed(src.parts), kind, key)
    {
      var file := FileOf(kind, table, place);
      EntryListed(src, table, archive, kind, key);
      ok := Remember(file, src);
      if !ok {
        return false;
      }
      ghost var b := State();
      ok := Index(kind, key, place, {file});
      KeptNeeded(b, State(), FileId(table, generation, kind, 0), kind, key, place, file, old(reused), indexes.files);
    }

    /** Copies the chosen entries of one partition, in key order, except those memory overrides. */
    method CopyEntries(kind: nat, at: Pair, keys: seq<Pair>, src: Source, d: Option<EntityData>) returns (ok: bool)
      requires Valid() && Lean() && SourceOk(src, table, archive) && (kind == EVENTS || kind == SNAPSHOTS)
      requires Ascending(keys) && Clear(State(), kind, at)
      requires AllIndexed(Sealed(src.parts), kind, at, keys)
      modifies this, indexes`sealed, indexes`pending, indexes`created
      ensures ok && Valid() && Lean() && entities == old(entities) && old(reused) <= reused
      ensures CopiedKeys(old(State()), old(archive), State(), archive, Sealed(src.parts), kind, at, keys, d)
      ensures rewriteHistory ==> reused == old(reused) && indexes.files == old(indexes.files)
    {
      NothingCopied(State(), archive, Sealed(src.parts), kind, at, d);
      assert keys[..0] == [];
      for i := 0 to |keys|
        invariant Valid() && Lean() && SourceOk(src, table, archive) && entities == old(entities)
                  && old(reused) <= reused
        invariant rewriteHistory ==> reused == old(reused) && indexes.files == old(indexes.files)
        invariant CopiedKeys(old(State()), old(archive), State(), archive, Sealed(src.parts), kind, at, keys[..i], d)
      {
        ghost var b, a := State(), archive;
        if !Skipped(d, kind, keys[i].1) {
          NextIsReady(old(State()), old(archive), b, a, Sealed(src.parts), kind, at, keys, i, d);
          match Entry(Sealed(src.parts), kind, keys[i])
          case None => return false;
          case Some(place) =>
            ok := CopyEntry(kind, keys[i], place, src);
            if !ok {
              return false;
            }
            OneMoreCopied(old(State()), old(archive), b, a, State(), archive, Sealed(src.parts), kind, at, keys, i, d);
            StillSource(src, table, a, archive);
        } else {
          OneMoreSkipped(old(State()), old(archive), b, a, Sealed(src.parts), kind, at, keys, i, d);
        }
      }
      assert keys[..|keys|] == keys;
      return true;
    }

    /** Copies or takes over one bucket of an entity's history. */
    method CopyBucket(kind: nat, id: nat, first: nat, last: nat, at: Pair, src: Source, d: Option<EntityData>)
      returns (ok: bool, taken: bool, ghost keys: seq<Pair>)
      requires Valid() && Lean() && SourceOk(src, table, archive) && (kind == EVENTS || kind == SNAPSHOTS)
      requires Clear(State(), kind, at) && at.0 == id && Route(kind, at) in src.parts
      modifies this, indexes
      ensures ok && Valid() && Lean() && entities == old(entities) && old(reused) <= reused
      ensures taken ==> archive == old(archive) && OthersReady(old(State()), State(), kind)
                        && With(old(State()), State(), Route(kind, at), src.parts[Route(kind, at)])
                           && !Modified(d, kind, at)
                        && first <= src.parts[Route(kind, at)].first.1 && src.parts[Route(kind, at)].last.1 <= last
      ensures !taken ==> CopiedKeys(old(State()), old(archive), State(), archive, Sealed(src.parts), kind, at, keys, d)
      ensures !taken ==> Chosen(Sealed(src.parts), kind, id, first, last, at, keys)
      ensures rewriteHistory ==> reused == old(reused) && indexes.files == old(indexes.files)
    {
      var part := src.parts[Route(kind, at)];
      assert PartAt(Sealed(src.parts), Route(kind, at)) == Some(part);
      assert PartOk(Route(kind, at), part);
      keys := [];
      if !rewriteHistory && !rewriteIndexes && !Modified(d, kind, at) && first <= part.first.1 && part.last.1 <= last {
        taken := true;
        ok := TakeOver(Route(kind, at), part, src);
      } else {
        taken := false;
        var chosen := Sorted(set key | key in part.entries && first <= key.1 <= last);
        keys := chosen;
        ok := CopyEntries(kind, at, chosen, src, d);
      }
    }

    /** One kind of an entity's history, from the version `first` to `last`. */
    method CopyKind(kind: nat, id: nat, first: nat, last: nat, src: Source, d: Option<EntityData>) returns (ok: bool)
      requires Valid() && Lean() && SourceOk(src, table, archive) && (kind == EVENTS || kind == SNAPSHOTS)
      requires Clear(State(), kind, (id, 0))
      modifies this, indexes
      ensures ok && Valid() && Lean() && entities == old(entities) && old(reused) <= reused
      ensures CopiedRange(old(State()), old(archive), State(), archive, Sealed(src.parts), kind, id, first, last, d)
      ensures rewriteHistory ==> reused == old(reused) && indexes.files == old(indexes.files)
    {
      var low, high := Bucket(kind, (id, first)), Bucket(kind, (id, last));
      var ats := Sorted(set route | route in src.parts && route.kind == kind && AtMost(low, route.at)
          && AtMost(route.at, high) :: route.at);
      NoBuckets(State(), archive, Sealed(src.parts), kind, id, first, last, d);
      assert ats[..0] == [];
      for i := 0 to |ats|
        invariant Valid() && Lean() && SourceOk(src, table, archive) && entities == old(entities)
                  && old(reused) <= reused
        invariant rewriteHistory ==> reused == old(reused) && indexes.files == old(indexes.files)
        invariant CopiedBuckets(old(State()), old(archive), State(), archive, Sealed(src.parts), kind, id, first,
                  last, ats[..i], d)
      {
        assert ats[i] in ats;
        ok := CopyNextBucket(kind, id, first, last, ats, i, src, d, old(State()), old(archive));
      }
      assert ats[..|ats|] == ats;
      AllBuckets(old(State()), old(archive), State(), archive, Sealed(src.parts), kind, id, first, last, ats, d);
      return true;
    }

    /** The next partition that holds part of the range. */
    method CopyNextBucket(
      kind: nat, id: nat, first: nat, last: nat, ats: seq<Pair>, i: nat, src: Source, d: Option<EntityData>,
      ghost before: Built, ghost earlier: Archive)
      returns (ok: bool)
      requires Valid() && Lean() && SourceOk(src, table, archive) && (kind == EVENTS || kind == SNAPSHOTS)
      requires SourceOk(src, table, earlier)
      requires Clear(before, kind, (id, 0)) && i < |ats| && Ascending(ats) && Route(kind, ats[i]) in src.parts
      requires AtMost(Bucket(kind, (id, first)), ats[i]) && AtMost(ats[i], Bucket(kind, (id, last)))
      requires CopiedBuckets(before, earlier, State(), archive, Sealed(src.parts), kind, id, first, last, ats[..i], d)
      modifies this, indexes
      ensures ok && Valid() && Lean() && SourceOk(src, table, archive) && entities == old(entities)
              && old(reused) <= reused
      ensures CopiedBuckets(before, earlier, State(), archive, Sealed(src.parts), kind, id, first, last, ats[..i + 1],
              d)
      ensures rewriteHistory ==> reused == old(reused) && indexes.files == old(indexes.files)
    {
      ghost var b, a := State(), archive;
      NextBucketClear(before, earlier, b, a, Sealed(src.parts), kind, id, first, last, ats, i, d);
      var taken; ghost var keys;
      ok, taken, keys := CopyBucket(kind, id, first, last, ats[i], src, d);
      if taken {
        BucketTakenOver(before, earlier, b, a, State(), Sealed(src.parts), kind, id, first, last, ats, i, d);
      } else {
        BucketCopied(before, earlier, b, a, State(), archive, Sealed(src.parts), kind, id, first, last, ats, i, keys,
            d);
      }
      StillSource(src, table, a, archive);
    }

    /** copy_history: snapshots from the base on, then the events after it. */
    method CopyHistory(src: Source, id: nat, base: nat, last: nat, d: Option<EntityData>) returns (ok: bool)
      requires Valid() && Lean() && SourceOk(src, table, archive)
      requires Clear(State(), EVENTS, (id, 0)) && Clear(State(), SNAPSHOTS, (id, 0))
      modifies this, indexes
      ensures ok && Valid() && Lean() && entities == old(entities) && old(reused) <= reused
      ensures HistoryCopied(old(State()), old(archive), State(), archive, Sealed(src.parts), id, base, last, d)
      ensures rewriteHistory ==> reused == old(reused) && indexes.files == old(indexes.files)
    {
      ok := CopyKind(SNAPSHOTS, id, base, last, src, d);
      if !ok {
        return false;
      }
      StillSource(src, table, old(archive), archive);
      if base < last {
        ghost var b, a := State(), archive;
        ok := CopyKind(EVENTS, id, base + 1, last, src, d);
        BothCopied(old(State()), old(archive), b, a, State(), archive, Sealed(src.parts), id, base, last, d);
      } else {
        OnlySnapshots(old(State()), old(archive), State(), archive, Sealed(src.parts), id, base, last, d);
      }
    }

    /** Writes a record of this entity and indexes it. */
    method AppendVersion(kind: nat, key: Pair, record: Record) returns (ok: bool)
      requires Valid() && Lean() && (kind == EVENTS || kind == SNAPSHOTS) && Ready(State(), kind, key)
               && Identified(kind, record, key)
      modifies this, indexes`sealed, indexes`pending, indexes`created
      ensures ok && Valid() && Lean() && entities == old(entities) && reused == old(reused)
      ensures AppendedEntry(old(State()), old(archive), State(), archive, kind, key, record)
    {
      var place := AppendRecord(kind, record);
      ok := Index(kind, key, place, {FileOf(kind, table, place)});
    }

    /** Writes records from memory in version order. */
    method AppendVersions(kind: nat, id: nat, records: map<Pair, Record>) returns (ok: bool)
      requires Valid() && Lean() && (kind == EVENTS || kind == SNAPSHOTS)
      requires Appendable(State(), kind, id, records)
      modifies this, indexes`sealed, indexes`pending, indexes`created
      ensures ok && Valid() && Lean() && entities == old(entities) && reused == old(reused)
      ensures exists keys ::
                && Appending(old(State()), old(archive), State(), archive, kind, id, keys, records)
                && forall key :: key in keys <==> key in records
    {
      var keys := Sorted(records.Keys);
      NothingAppended(State(), archive, kind, id, records);
      assert keys[..0] == [];
      for i := 0 to |keys|
        invariant Valid() && Lean() && entities == old(entities) && reused == old(reused)
        invariant Appending(old(State()), old(archive), State(), archive, kind, id, keys[..i], records)
      {
        ghost var b, a := State(), archive;
        assert keys[i] in keys;
        NextAppendReady(old(State()), old(archive), b, a, kind, id, keys, i, records);
        ok := AppendVersion(kind, keys[i], records[keys[i]]);
        if !ok {
          return false;
        }
        OneMoreAppended(old(State()), old(archive), b, a, State(), archive, kind, id, keys, i, records);
      }
      assert keys[..|keys|] == keys;
      return true;
    }

    /** The snapshots and events an entity has in memory, after what was copied from the older manifest. */
    method AppendMemory(id: nat, d: EntityData, ghost definition: Table, ghost src: Built, ghost prior: Archive)
      returns (ok: bool)
      requires Valid() && Lean() && H.Valid(d, definition) && d.base.id == id
      requires Started(State(), archive, src, prior, id, d)
      requires Copied(d) ==> HistoryHeld(src, prior, id, DiskHistory(d.disk.value), d.disk.value.table)
      modifies this, indexes`sealed, indexes`pending, indexes`created
      ensures ok && Valid() && Lean() && entities == old(entities) && reused == old(reused)
              && Preserves(old(archive), archive)
      ensures HistoryHeld(State(), archive, id, Meaning(d), definition) && OnlyHistory(old(State()), State(), id)
    {
      ghost var b1, a1 := State(), archive;
      SnapshotsAppendable(b1, id, d, definition);
      ok := AppendVersions(SNAPSHOTS, id, SnapshotRecords(d, id));
      ghost var snapshots :| Appending(b1, a1, State(), archive, SNAPSHOTS, id, snapshots, SnapshotRecords(d, id))
          && forall key :: key in snapshots <==> key in SnapshotRecords(d, id);
      ghost var b2, a2 := State(), archive;
      OthersStart(b1, b2, id, d);
      CommittedAppendable(b2, id, d, definition);
      ok := AppendVersions(EVENTS, id, CommittedRecords(d, id));
      ghost var committed :| Appending(b2, a2, State(), archive, EVENTS, id, committed, CommittedRecords(d, id))
          && forall key :: key in committed <==> key in CommittedRecords(d, id);
      ghost var b3, a3 := State(), archive;
      StagedAppendable(b2, b3, id, d, definition, committed);
      ok := AppendVersions(EVENTS, id, StagedRecords(d, id));
      ghost var staged :| Appending(b3, a3, State(), archive, EVENTS, id, staged, StagedRecords(d, id))
          && forall key :: key in staged <==> key in StagedRecords(d, id);
      HistoryWritten(d, definition, id, src, prior, b1, a1, b2, a2, b3, a3, State(), archive, snapshots, committed,
          staged);
      HistoryOnly(b1, b2, SNAPSHOTS, id);
      HistoryOnly(b2, b3, EVENTS, id);
      HistoryOnly(b3, State(), EVENTS, id);
      HistoryOnlyTransitive(b1, b2, b3, id);
      HistoryOnlyTransitive(b1, b3, State(), id);
    }

    /** Writes an entity's current and base state and points the primary index at them. */
    method AppendStates(id: nat, d: EntityData) returns (ok: bool, ghost pointer: Pointer)
      requires Valid() && Lean() && Ready(State(), PRIMARY, (id, 0))
      modifies this, indexes`sealed, indexes`pending, indexes`created
      ensures ok && Valid() && Lean() && entities == old(entities) + 1 && reused == old(reused)
              && Preserves(old(archive), archive)
      ensures pointer.Locator? && pointer.slot == slot
      ensures At0(archive, 0, generation, pointer.current, d.current)
              && At0(archive, 1, generation, pointer.base, d.base)
      ensures CanAppend(old(State()), PRIMARY, (id, 0)) && Indexed(old(State()), State(), PRIMARY, (id, 0), pointer)
      ensures With(old(State()), State(), Route(PRIMARY, Bucket(PRIMARY, (id, 0))),
              Appended(old(State()), FileId(table, generation, PRIMARY, 0), PRIMARY, (id, 0), pointer, {}))
    {
      ReadyAppends(State(), PRIMARY, (id, 0));
      var current := AppendRecord(0, StateRecord(d.current));
      var base := AppendRecord(1, StateRecord(d.base));
      pointer := Locator(slot, current.offset, base.offset);
      ok := Index(PRIMARY, (id, 0), Locator(slot, current.offset, base.offset), {});
      entities := entities + 1;
    }

    /** append: the whole of one entity, from the older manifest and from memory. */
    method AppendEntity(id: nat, d: EntityData, src: Source, ghost definition: Table, ghost generations: seq<nat>)
      returns (ok: bool)
      requires Valid() && Lean() && H.Valid(d, definition) && d.base.id == id
      requires d.disk.Some? ==>
                SourceOk(src, table, archive)
                && HistoryHeld(Sealed(src.parts), archive, id, DiskHistory(d.disk.value), d.disk.value.table)
      requires Ready(State(), PRIMARY, (id, 0)) && Clear(State(), EVENTS, (id, 0)) && Clear(State(), SNAPSHOTS, (id, 0))
      requires slot < |generations| && generations[slot] == generation
      modifies this, indexes
      ensures ok && Valid() && Lean() && entities == old(entities) + 1 && old(reused) <= reused
              && Preserves(old(archive), archive)
      ensures EntityHeld(State(), archive, generations, id, Meaning(d), definition)
      ensures OnlyThis(old(State()), State(), id) && Located(State(), id).Some? && Located(State(), id).value.Locator?
              && Located(State(), id).value.slot == slot
      ensures Clear(State(), EVENTS, (id + 1, 0)) && Clear(State(), SNAPSHOTS, (id + 1, 0))
      ensures rewriteHistory ==> reused == old(reused) && indexes.files == old(indexes.files)
    {
      ghost var b0, a0 := State(), archive;
      ghost var pointer;
      ok, pointer := AppendStates(id, d);
      ghost var b1, a1 := State(), archive;
      IndexedClear(b0, b1, id, pointer, EVENTS, (id, 0));
      IndexedClear(b0, b1, id, pointer, SNAPSHOTS, (id, 0));
      if d.disk.Some? && d.base.version <= d.disk.value.current.version {
        StillSource(src, table, a0, a1);
        HeldStays(Sealed(src.parts), a0, a1, id, DiskHistory(d.disk.value), d.disk.value.table);
        ok := CopyHistory(src, id, d.base.version, d.disk.value.current.version, Some(d));
        CopiedStarts(b1, a1, State(), archive, Sealed(src.parts), id, d);
      } else {
        NothingStarts(State(), archive, Sealed(src.parts), id, d);
      }
      ghost var b2, a2 := State(), archive;
      ok := AppendMemory(id, d, definition, Sealed(src.parts), a1);
      HistoryOnlyTransitive(b1, b2, State(), id);
      HistoryOnlyOthers(b0, b1, State(), FileId(table, generation, PRIMARY, 0), id, pointer);
      ClearNext(b1, State(), id, EVENTS);
      ClearNext(b1, State(), id, SNAPSHOTS);
    }

    /** carry: the records stay where they are; the primary entry is rewritten in the new slots. */
    method Carry(
      id: nat, pointer: Pointer, src: Source, ghost h: History, ghost definition: Table, ghost generations: seq<nat>)
      returns (ok: bool)
      requires Valid() && Lean() && SourceOk(src, table, archive) && pointer.Locator? && pointer.slot < |generations|
      requires At0(archive, 0, generations[pointer.slot], pointer.current, h.current)
               && At0(archive, 1, generations[pointer.slot], pointer.base, h.base)
      requires HistoryHeld(Sealed(src.parts), archive, id, h, definition) && h.current.version <= U64_MAX
      requires Ready(State(), PRIMARY, (id, 0)) && Clear(State(), EVENTS, (id, 0)) && Clear(State(), SNAPSHOTS, (id, 0))
      modifies this, indexes
      ensures ok && Valid() && Lean() && entities == old(entities) && old(reused) <= reused
              && Preserves(old(archive), archive)
      ensures EntityHeld(State(), archive, generations, id, h, definition)
      ensures OnlyThis(old(State()), State(), id) && Located(State(), id) == Some(pointer)
      ensures Clear(State(), EVENTS, (id + 1, 0)) && Clear(State(), SNAPSHOTS, (id + 1, 0))
      ensures rewriteHistory ==> reused == old(reused) && indexes.files == old(indexes.files)
    {
      ghost var b0 := State();
      ReadyAppends(b0, PRIMARY, (id, 0));
      ok := Index(PRIMARY, (id, 0), pointer, {});
      ghost var b1, a1 := State(), archive;
      IndexedClear(b0, b1, id, pointer, EVENTS, (id, 0));
      IndexedClear(b0, b1, id, pointer, SNAPSHOTS, (id, 0));
      ok := CopyHistory(src, id, 0, U64_MAX, None);
      CarriedHistory(b1, a1, State(), archive, Sealed(src.parts), id, h, definition);
      HistoryOnlyOthers(b0, b1, State(), FileId(table, generation, PRIMARY, 0), id, pointer);
      ClearNext(b1, State(), id, EVENTS);
      ClearNext(b1, State(), id, SNAPSHOTS);
    }

    /** carry_partition for a primary partition: taken over whole, its slots translated once more. */
    method CarryPrimary(lower: nat, src: Source, slots: seq<Option<nat>>) returns (ok: bool)
      requires Valid() && Lean() && SourceOk(src, table, archive)
      requires Route(PRIMARY, (lower, 0)) in src.parts && Clear(State(), PRIMARY, (lower, 0))
      requires SlotsKept(src.parts[Route(PRIMARY, (lower, 0))], slots)
      modifies this`reused, indexes
      ensures ok && Valid() && Lean() && old(reused) <= reused
      ensures With(old(State()), State(), Route(PRIMARY, (lower, 0)),
              Retold(src.parts[Route(PRIMARY, (lower, 0))], slots))
      ensures OthersReady(old(State()), State(), PRIMARY)
    {
      var route := Route(PRIMARY, (lower, 0));
      var part := src.parts[route];
      ghost var b := State();
      assert PartAt(Sealed(src.parts), route) == Some(part);
      ok := RememberAll(part.dependencies, src);
      ok := indexes.Reuse(route, Retold(part, slots), src.files);
      RetoldTaken(b, State(), src, archive, route, slots);
      GrownNeeds(b, State(), route, Retold(part, slots), old(reused), old(indexes.files));
      forall k, other | k != PRIMARY && Ready(b, k, other) ensures Ready(State(), k, other) {
        OtherReady(b, State(), route, Retold(part, slots), k, other);
      }
    }

    /** carry_partition_history for one kind. */
    method CarryRange(kind: nat, lower: nat, upper: nat, src: Source) returns (ok: bool)
      requires Valid() && Lean() && SourceOk(src, table, archive) && (kind == EVENTS || kind == SNAPSHOTS)
      requires Clear(State(), kind, (lower, 0)) && lower <= upper
      modifies this`reused, indexes
      ensures ok && Valid() && Lean() && old(reused) <= reused
      ensures TookRange(old(State()), State(), Sealed(src.parts), kind, lower, upper)
    {
      var ats := Sorted(set route | route in src.parts && route.kind == kind
          && lower <= route.at.0 <= upper :: route.at);
      for i := 0 to |ats|
        invariant Valid() && Lean() && old(reused) <= reused
        invariant TakingRange(old(State()), State(), Sealed(src.parts), kind, ats[..i])
      {
        ghost var b := State();
        assert ats[i] in ats;
        assert Route(kind, ats[i]) in src.parts;
        TakingClear(old(State()), b, Sealed(src.parts), kind, ats, i, lower);
        ok := TakeOver(Route(kind, ats[i]), src.parts[Route(kind, ats[i])], src);
        if !ok {
          return false;
        }
        OneMoreTaken(old(State()), b, State(), Sealed(src.parts), kind, ats, i);
      }
      assert ats[..|ats|] == ats;
      AllTaken(old(State()), State(), Sealed(src.parts), kind, ats, lower, upper);
      return true;
    }

    /** finish: the sealed partitions, and every file they or their entries are in. */
    method Finish() returns (ok: bool, output: Source)
      requires Valid() && Lean()
      modifies indexes`sealed, indexes`pending
      ensures ok && SourceOk(output, table, archive) && archive == old(archive)
      ensures FileId(table, generation, 0, 0) in output.files && FileId(table, generation, 1, 0) in output.files
      ensures forall route :: PartAt(Sealed(output.parts), route) == PartAt(old(State()), route)
      ensures forall file :: file in output.files ==>
                || (file.table == table && file.generation == generation)
                || (file in old(reused + indexes.files) && Used(output.parts, file))
    {
      ghost var b := State();
      ok := indexes.Finish();
      var own := {FileId(table, generation, 0, 0), FileId(table, generation, 1, 0), FileId(table, generation, 2, 0)}
                 + (set n | 0 <= n <= segment :: FileId(table, generation, 6, n));
      output := Source(indexes.sealed, reused + indexes.files + own
          + (set kind | kind in indexes.created :: FileId(table, generation, kind, 0)));
      FinishedOk(b, archive, output, reused, indexes.files, indexes.created, table, generation, segment);
      forall file | file in reused + indexes.files ensures Used(output.parts, file) {
        NeededIsUsed(b, output.parts, reused, indexes.files, file);
      }
    }
  }
}
