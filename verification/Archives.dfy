/**
 What the history and record files of one table hold, and how index entries resolve into them
 (snapshot.rs).  A published file never changes, so the archive only grows.
 */
module Archives {
  import opened Results
  import opened Model
  import opened Histories
  import opened Files
  import opened Partitions

  datatype Record = EventRecord(id: nat, event: Event) | StateRecord(state: Entity)

  /** A record's place: the kind of file (0 current, 1 base, or the history index's kind) and where in it. */
  datatype At = At(kind: nat, place: Pointer)

  type Archive = map<At, Record>

  /** The index entry of a key. */
  function Entry(b: Built, kind: nat, key: Pair): Option<Pointer> {
    var part := PartAt(b, Route(kind, Bucket(kind, key)));
    if part.Some? && key in part.value.entries then Some(part.value.entries[key]) else None
  }

  /** The record an index entry resolves to. */
  function Content(b: Built, archive: Archive, kind: nat, key: Pair): Option<Record> {
    match Entry(b, kind, key)
    case None => None
    case Some(place) => if At(kind, place) in archive then Some(archive[At(kind, place)]) else None
  }

  /** The record belongs to the key it is indexed under. */
  predicate Identified(kind: nat, record: Record, key: Pair) {
    match record
    case EventRecord(id, event) => kind == EVENTS && id == key.0 && event.version == key.1
    case StateRecord(state) => kind != EVENTS && state.id == key.0 && state.version == key.1
  }

  ghost predicate Stored(b: Built, archive: Archive) {
    forall kind, key :: kind != PRIMARY && Entry(b, kind, key).Some? ==>
      Content(b, archive, kind, key).Some? && Identified(kind, Content(b, archive, kind, key).value, key)
  }

  ghost predicate Preserves(before: Archive, after: Archive) {
    forall at :: at in before ==> at in after && after[at] == before[at]
  }

  /** Growing the archive changes no record. */
  lemma SameContent(b: Built, before: Archive, after: Archive, kind: nat, key: Pair)
    requires Stored(b, before) && Preserves(before, after) && kind != PRIMARY
    ensures Content(b, after, kind, key) == Content(b, before, kind, key)
  {
    assert Entry(b, kind, key).Some? ==> Content(b, before, kind, key).Some?;
  }

  lemma StillStored(b: Built, before: Archive, after: Archive)
    requires Stored(b, before) && Preserves(before, after)
    ensures Stored(b, after)
  {
    forall kind, key | kind != PRIMARY && Entry(b, kind, key).Some?
      ensures Content(b, after, kind, key).Some? && Identified(kind, Content(b, after, kind, key).value, key)
    {
      SameContent(b, before, after, kind, key);
    }
  }

  // ----- what one append does to the entries -----

  ghost predicate Fits(kind: nat, table: nat, key: Pair, value: Pointer, dependency: set<FileId>) {
    if kind == PRIMARY then value.Locator? && key.1 == 0
    else value.Place? && FileOf(kind, table, value) in dependency
  }

  lemma AppendedEntries(
    b: Built, after: Built, file: FileId, kind: nat, key: Pair, value: Pointer, dependency: set<FileId>)
    requires BuiltOk(b) && CanAppend(b, kind, key)
    requires With(b, after, Route(kind, Bucket(kind, key)), Appended(b, file, kind, key, value, dependency))
    ensures forall k, other :: Entry(after, k, other) == if k == kind && other == key then Some(value)
            else Entry(b, k, other)
  {
    forall k, other ensures Entry(after, k, other) == if k == kind && other == key then Some(value)
        else Entry(b, k, other) {
      if Route(k, Bucket(k, other)) == Route(kind, Bucket(kind, key))
          && PartAt(b, Route(kind, Bucket(kind, key))).Some? {
        assert PartOk(Route(kind, Bucket(kind, key)), PartAt(b, Route(kind, Bucket(kind, key))).value);
      }
    }
  }

  lemma AppendedOk(b: Built, after: Built, file: FileId, kind: nat, key: Pair, value: Pointer, dependency: set<FileId>)
    requires BuiltOk(b) && CanAppend(b, kind, key) && SameOpen(b, after, kind)
             && IsOpen(after, Route(kind, Bucket(kind, key)))
    requires With(b, after, Route(kind, Bucket(kind, key)), Appended(b, file, kind, key, value, dependency))
    requires PartAt(b, Route(kind, Bucket(kind, key))).Some? ==>
             PartAt(b, Route(kind, Bucket(kind, key))).value.file.table == file.table
    requires Fits(kind, file.table, key, value, dependency)
    ensures BuiltOk(after)
  {
    var route := Route(kind, Bucket(kind, key));
    var before := PartAt(b, route);
    if before.Some? {
      assert PartOk(route, before.value);
    }
    forall other | PartAt(after, other).Some? ensures PartOk(other, PartAt(after, other).value) {
      if other != route {
        assert PartAt(b, other).Some?;
      }
    }
  }

  lemma AppendedReady(
    b: Built, after: Built, file: FileId, kind: nat, key: Pair, value: Pointer, dependency: set<FileId>, later: Pair)
    requires Ready(b, kind, key) && Less(key, later)
    requires With(b, after, Route(kind, Bucket(kind, key)), Appended(b, file, kind, key, value, dependency))
    requires IsOpen(after, Route(kind, Bucket(kind, key)))
    ensures Ready(after, kind, later)
  {
    BucketMonotone(kind, key, later);
  }

  lemma OtherReady(b: Built, after: Built, route: Route, part: Part, kind: nat, key: Pair)
    requires With(b, after, route, part) && SameOpen(b, after, route.kind) && kind != route.kind
    requires Ready(b, kind, key)
    ensures Ready(after, kind, key)
  {
    forall at | PartAt(after, Route(kind, at)).Some?
      ensures Less(at, Bucket(kind, key)) || (at == Bucket(kind, key) && IsOpen(after, Route(kind, at))
              && Less(PartAt(after, Route(kind, at)).value.last, key))
    {
      assert PartAt(b, Route(kind, at)).Some?;
    }
  }

  lemma ReadyAppends(b: Built, kind: nat, key: Pair)
    requires Ready(b, kind, key) && BuiltOk(b)
    ensures CanAppend(b, kind, key) && Entry(b, kind, key).None?
  {
  }

  // ----- the files of one table -----

  ghost predicate OfTable(b: Built, table: nat) {
    forall route :: PartAt(b, route).Some? ==> PartAt(b, route).value.file.table == table
  }

  /** A manifest's partitions of one table, with the files it lists. */
  datatype Source = Source(parts: map<Route, Part>, files: set<FileId>)

  function Sealed(parts: map<Route, Part>): Built {
    Built(parts, map[])
  }

  /** Every partition, every history file it depends on, and every record it indexes is there. */
  ghost predicate SourceOk(src: Source, table: nat, archive: Archive) {
    && BuiltOk(Sealed(src.parts)) && Stored(Sealed(src.parts), archive) && OfTable(Sealed(src.parts), table)
    && forall route :: route in src.parts ==>
        src.parts[route].file in src.files
        && src.parts[route].dependencies <= src.files
  }

  /** The record and history files a checkpoint writes for one table. */
  predicate IsOwn(file: FileId, table: nat, generation: nat, segment: nat) {
    file.table == table && file.generation == generation
        && (if file.kind == 6 then file.segment <= segment else file.kind <= 2 && file.segment == 0)
  }

  ghost predicate Listed(
    b: Built, reused: set<FileId>, indexes: set<FileId>, created: set<nat>, table: nat, generation: nat, segment: nat)
  {
    forall route :: PartAt(b, route).Some? ==>
      && (forall file :: file in PartAt(b, route).value.dependencies ==>
         file in reused || IsOwn(file, table, generation, segment))
      && (|| PartAt(b, route).value.file in indexes
          || exists kind :: kind in created && PartAt(b, route).value.file == FileId(table, generation, kind, 0))
  }

  // ----- nothing is kept for nothing -----

  /** Some partition has an entry in this history file. */
  ghost predicate DependedOn(b: Built, file: FileId) {
    exists route :: PartAt(b, route).Some? && file in PartAt(b, route).value.dependencies
  }

  /** Some partition's tree is in this index file. */
  ghost predicate IndexedBy(b: Built, file: FileId) {
    exists route :: PartAt(b, route).Some? && PartAt(b, route).value.file == file
  }

  /** Every older file that is kept is needed. */
  ghost predicate AllNeeded(b: Built, reused: set<FileId>, indexes: set<FileId>) {
    (forall file :: file in reused ==> DependedOn(b, file)) && forall file :: file in indexes ==> IndexedBy(b, file)
  }

  /** The same, folded until it is asked for. */
  ghost predicate Needed(b: Built, reused: set<FileId>, indexes: set<FileId>) {
    forall same: Built :: same == b ==> AllNeeded(same, reused, indexes)
  }

  /** A partition that begins or grows needs what it needed and what is new. */
  lemma GrownNeeds(b: Built, after: Built, route: Route, part: Part, reused: set<FileId>, indexes: set<FileId>)
    requires Needed(b, reused, indexes) && With(b, after, route, part)
    requires PartAt(b, route).Some? ==>
               PartAt(b, route).value.file == part.file && PartAt(b, route).value.dependencies <= part.dependencies
    ensures Needed(after, reused, indexes) && Needed(after, reused + part.dependencies, indexes + {part.file})
  {
    assert AllNeeded(b, reused, indexes) && PartAt(after, route) == Some(part);
    forall file | DependedOn(b, file) || file in part.dependencies ensures DependedOn(after, file) {
      if file !in part.dependencies {
        var other :| PartAt(b, other).Some? && file in PartAt(b, other).value.dependencies;
        assert PartAt(after, other) == PartAt(b, other);
      }
    }
    forall file | IndexedBy(b, file) ensures IndexedBy(after, file) {
      var other :| PartAt(b, other).Some? && PartAt(b, other).value.file == file;
      assert other != route ==> PartAt(after, other) == PartAt(b, other);
      assert other == route ==> part.file == file;
    }
  }

  /** A partition of the table is in this file or has entries in it. */
  ghost predicate Used(parts: map<Route, Part>, file: FileId) {
    exists route :: route in parts && (parts[route].file == file || file in parts[route].dependencies)
  }

  lemma NeededIsUsed(b: Built, parts: map<Route, Part>, reused: set<FileId>, indexes: set<FileId>, file: FileId)
    requires Needed(b, reused, indexes) && file in reused + indexes
    requires forall route :: PartAt(Sealed(parts), route) == PartAt(b, route)
    ensures Used(parts, file)
  {
    assert AllNeeded(b, reused, indexes);
    var route :| PartAt(b, route).Some?
                 && (PartAt(b, route).value.file == file || file in PartAt(b, route).value.dependencies);
    assert PartAt(Sealed(parts), route) == PartAt(b, route);
  }

  /** A history file is kept for the entry that was indexed. */
  lemma KeptNeeded(
    b: Built, after: Built, own: FileId, kind: nat, key: Pair, place: Pointer, file: FileId, reused: set<FileId>,
    indexes: set<FileId>)
    requires Needed(b, reused, indexes)
    requires With(b, after, Route(kind, Bucket(kind, key)), Appended(b, own, kind, key, place, {file}))
    ensures Needed(after, reused + {file}, indexes)
  {
    var part := Appended(b, own, kind, key, place, {file});
    GrownNeeds(b, after, Route(kind, Bucket(kind, key)), part, reused, indexes);
    assert AllNeeded(after, reused + part.dependencies, indexes + {part.file}) && file in part.dependencies;
  }

  // ----- what memory adds to a checkpointed history -----

  predicate Staged(d: EntityData, version: nat) {
    exists i :: 0 <= i < |d.events| && d.events[i].version == version
  }

  /** The entity in memory has its own record for this version. */
  predicate Overrides(d: Option<EntityData>, kind: nat, version: nat) {
    d.Some? && if kind == SNAPSHOTS then version in d.value.snapshots
        else version in d.value.committed || Staged(d.value, version)
  }

  predicate Skipped(d: Option<EntityData>, kind: nat, version: nat) {
    kind == SNAPSHOTS && Overrides(d, kind, version)
  }

  /** A manifest that takes over a partition stays well formed. */
  lemma TakenOver(b: Built, after: Built, src: Source, archive: Archive, route: Route)
    requires BuiltOk(b) && Stored(b, archive) && PartAt(b, route).None?
    requires BuiltOk(Sealed(src.parts)) && Stored(Sealed(src.parts), archive) && route in src.parts
    requires With(b, after, route, src.parts[route]) && SameOpen(b, after, route.kind) && route.kind !in after.pending
    ensures BuiltOk(after) && Stored(after, archive)
    ensures forall kind, key :: Entry(after, kind, key) ==
              if Route(kind, Bucket(kind, key)) == route then Entry(Sealed(src.parts), kind, key)
                  else Entry(b, kind, key)
  {
    assert PartAt(Sealed(src.parts), route) == Some(src.parts[route]);
    forall kind, key ensures Entry(after, kind, key) ==
              if Route(kind, Bucket(kind, key)) == route then Entry(Sealed(src.parts), kind, key)
                  else Entry(b, kind, key)
    {
    }
    forall other | PartAt(after, other).Some? ensures PartOk(other, PartAt(after, other).value) {
      if other != route {
        assert PartAt(b, other).Some?;
      }
    }
    forall kind, key | kind != PRIMARY && Entry(after, kind, key).Some?
      ensures Content(after, archive, kind, key).Some?
              && Identified(kind, Content(after, archive, kind, key).value, key)
    {
      if Route(kind, Bucket(kind, key)) == route {
        assert Content(after, archive, kind, key) == Content(Sealed(src.parts), archive, kind, key);
      } else {
        assert Content(after, archive, kind, key) == Content(b, archive, kind, key);
      }
    }
  }

  lemma EntryListed(src: Source, table: nat, archive: Archive, kind: nat, key: Pair)
    requires SourceOk(src, table, archive) && kind != PRIMARY && Entry(Sealed(src.parts), kind, key).Some?
    ensures var place := Entry(Sealed(src.parts), kind, key).value;
            && place.Place? && FileOf(kind, table, place) in src.files
            && At(kind, place) in archive && Identified(kind, archive[At(kind, place)], key)
  {
    var route := Route(kind, Bucket(kind, key));
    assert PartAt(Sealed(src.parts), route).Some?;
    assert PartOk(route, src.parts[route]);
    assert Content(Sealed(src.parts), archive, kind, key).Some?;
  }

  lemma StillSource(src: Source, table: nat, before: Archive, after: Archive)
    requires SourceOk(src, table, before) && Preserves(before, after)
    ensures SourceOk(src, table, after)
  {
    StillStored(Sealed(src.parts), before, after);
  }

  // ----- a primary partition in the slots of the next manifest -----

  /** Every generation the partition points into is kept. */
  predicate SlotsKept(part: Part, slots: seq<Option<nat>>) {
    forall slot :: slot in part.slots ==> part.slots[slot] < |slots| && slots[part.slots[slot]].Some?
  }

  function Retold(part: Part, slots: seq<Option<nat>>): Part
    requires SlotsKept(part, slots)
  {
    Part(part.file, part.first, part.last, part.entries,
        map slot | slot in part.slots :: slots[part.slots[slot]].value, part.dependencies)
  }

  lemma RetoldTaken(b: Built, after: Built, src: Source, archive: Archive, route: Route, slots: seq<Option<nat>>)
    requires BuiltOk(b) && Stored(b, archive) && PartAt(b, route).None? && route.kind == PRIMARY
    requires BuiltOk(Sealed(src.parts)) && route in src.parts && SlotsKept(src.parts[route], slots)
    requires With(b, after, route, Retold(src.parts[route], slots)) && SameOpen(b, after, route.kind)
             && route.kind !in after.pending
    ensures BuiltOk(after) && Stored(after, archive)
  {
    assert PartAt(Sealed(src.parts), route) == Some(src.parts[route]);
    assert PartOk(route, src.parts[route]);
    forall other | PartAt(after, other).Some? ensures PartOk(other, PartAt(after, other).value) {
      if other != route {
        assert PartAt(b, other).Some?;
      }
    }
    forall kind, key | kind != PRIMARY && Entry(after, kind, key).Some?
      ensures Content(after, archive, kind, key).Some?
              && Identified(kind, Content(after, archive, kind, key).value, key)
    {
      assert Content(after, archive, kind, key) == Content(b, archive, kind, key);
    }
  }

  lemma FinishedOk(
    b: Built, archive: Archive, output: Source, reused: set<FileId>, indexes: set<FileId>, created: set<nat>,
    table: nat, generation: nat, segment: nat)
    requires BuiltOk(b) && Stored(b, archive) && OfTable(b, table)
             && Listed(b, reused, indexes, created, table, generation, segment)
    requires forall route :: PartAt(Sealed(output.parts), route) == PartAt(b, route)
    requires reused <= output.files && indexes <= output.files
    requires forall kind :: kind in created ==> FileId(table, generation, kind, 0) in output.files
    requires forall file :: IsOwn(file, table, generation, segment) ==> file in output.files
    ensures SourceOk(output, table, archive)
  {
    var after := Sealed(output.parts);
    forall route | PartAt(after, route).Some? ensures PartOk(route, PartAt(after, route).value)
        && PartAt(after, route).value.file.table == table {
      assert PartAt(b, route).Some?;
    }
    forall kind, key | kind != PRIMARY && Entry(after, kind, key).Some?
      ensures Content(after, archive, kind, key).Some?
              && Identified(kind, Content(after, archive, kind, key).value, key)
    {
      assert Entry(after, kind, key) == Entry(b, kind, key);
      assert Content(b, archive, kind, key).Some?;
    }
    forall route | route in output.parts
      ensures output.parts[route].file in output.files && output.parts[route].dependencies <= output.files
    {
      assert PartAt(b, route) == Some(output.parts[route]);
    }
  }
}
