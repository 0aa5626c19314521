/**
 When a manifest holds an entity: its index entries resolve to the entity's base, current state,
 every retained event, and only correct acceleration snapshots.
 */
module Holding {
  import opened Results
  import opened Model
  import opened Histories
  import opened Files
  import opened Partitions
  import opened Archives
  import opened Copying

  ghost predicate EventHeld(b: Built, archive: Archive, id: nat, h: History, version: nat) {
    h.base.version < version <= h.current.version ==>
      version in h.events && Content(b, archive, EVENTS, (id, version)) == Some(EventRecord(id, h.events[version]))
  }

  ghost predicate SnapshotHeld(b: Built, archive: Archive, id: nat, h: History, table: Table, version: nat) {
    h.base.version <= version && Content(b, archive, SNAPSHOTS, (id, version)).Some? ==>
      && version <= h.current.version
      && StateAt(h.base, h.events, table, version).Ok?
      && Content(b, archive, SNAPSHOTS, (id, version))
         == Some(StateRecord(StateAt(h.base, h.events, table, version).value))
  }

  ghost predicate HistoryHeld(b: Built, archive: Archive, id: nat, h: History, table: Table) {
    && (forall version :: EventHeld(b, archive, id, h, version))
    && (forall version :: SnapshotHeld(b, archive, id, h, table, version))
  }

  // ----- what memory appends -----

  function SnapshotRecords(d: EntityData, id: nat): map<Pair, Record> {
    map key | key in (set v | v in d.snapshots && d.base.version <= v :: (id, v)) :: StateRecord(d.snapshots[key.1])
  }

  function CommittedRecords(d: EntityData, id: nat): map<Pair, Record> {
    map key | key in (set v | v in d.committed && d.base.version < v :: (id, v)) :: EventRecord(id, d.committed[key.1])
  }

  function StagedRecords(d: EntityData, id: nat): map<Pair, Record>
    requires Tiered(d)
  {
    map key | key in (set v: nat | Settled(d) < v <= d.current.version :: (id, v)) ::
        EventRecord(id, d.events[key.1 - Settled(d) - 1])
  }

  /** What the older manifest contributes: nothing when the base has moved past it. */
  function Copied(d: EntityData): bool {
    d.disk.Some? && d.base.version <= d.disk.value.current.version
  }

  ghost predicate StartsSnapshot(
    b: Built, archive: Archive, src: Built, prior: Archive, id: nat, d: EntityData, version: nat)
  {
    Content(b, archive, SNAPSHOTS, (id, version)) ==
      if Copied(d) then Kept(src, prior, SNAPSHOTS, id, d.base.version, d.disk.value.current.version, Some(d),
          version) else None
  }

  ghost predicate StartsEvent(
    b: Built, archive: Archive, src: Built, prior: Archive, id: nat, d: EntityData, version: nat)
  {
    Content(b, archive, EVENTS, (id, version)) ==
      if Copied(d) then Kept(src, prior, EVENTS, id, d.base.version + 1, d.disk.value.current.version, Some(d),
          version) else None
  }

  ghost predicate StartsReady(b: Built, id: nat, d: EntityData, kind: nat, version: nat) {
    d.base.version <= version && Overrides(Some(d), kind, version) ==> Ready(b, kind, (id, version))
  }

  /** The state after copying, before anything in memory was appended. */
  ghost predicate Started(b: Built, archive: Archive, src: Built, prior: Archive, id: nat, d: EntityData) {
    && (forall version :: StartsSnapshot(b, archive, src, prior, id, d, version))
    && (forall version :: StartsEvent(b, archive, src, prior, id, d, version))
    && (forall version :: StartsReady(b, id, d, SNAPSHOTS, version))
    && (forall version :: StartsReady(b, id, d, EVENTS, version))
  }

  lemma CopiedStarts(before: Built, archive: Archive, b: Built, a: Archive, src: Built, id: nat, d: EntityData)
    requires Tiered(d) && Copied(d)
    requires HistoryCopied(before, archive, b, a, src, id, d.base.version, d.disk.value.current.version, Some(d))
    ensures Started(b, a, src, archive, id, d)
  {
    var last := d.disk.value.current.version;
    forall version: nat ensures StartsSnapshot(b, a, src, archive, id, d, version) {
      assert VersionKept(b, a, src, archive, SNAPSHOTS, id, d.base.version, last, Some(d), version);
    }
    forall version: nat ensures StartsEvent(b, a, src, archive, id, d, version) {
      assert EventKept(b, a, src, archive, id, d.base.version, last, Some(d), version);
    }
    forall version: nat ensures StartsReady(b, id, d, SNAPSHOTS, version) {
      assert VersionReady(b, SNAPSHOTS, id, last, Some(d), version);
    }
    forall version: nat ensures StartsReady(b, id, d, EVENTS, version) {
      assert VersionReady(b, EVENTS, id, last, Some(d), version);
      assert version in d.committed ==> !OnDisk(d, version);
    }
  }

  lemma NothingStarts(b: Built, a: Archive, src: Built, id: nat, d: EntityData)
    requires Clear(b, EVENTS, (id, 0)) && Clear(b, SNAPSHOTS, (id, 0)) && !Copied(d)
    ensures Started(b, a, src, a, id, d)
  {
    forall kind: nat, version: nat | kind == EVENTS || kind == SNAPSHOTS
      ensures Content(b, a, kind, (id, version)) == None && Ready(b, kind, (id, version))
    {
      ClearIsEmpty(b, kind, id, version);
      ClearIsReady(b, kind, (id, 0), (id, version));
    }
    forall version: nat ensures StartsSnapshot(b, a, src, a, id, d, version) {}
    forall version: nat ensures StartsEvent(b, a, src, a, id, d, version) {}
    forall version: nat ensures StartsReady(b, id, d, SNAPSHOTS, version) {}
    forall version: nat ensures StartsReady(b, id, d, EVENTS, version) {}
  }

  // ----- the records in memory belong where they are appended -----

  lemma SnapshotIdentified(d: EntityData, table: Table, id: nat, version: nat)
    requires Valid(d, table) && d.base.id == id && version in d.snapshots && d.base.version <= version
    ensures Identified(SNAPSHOTS, StateRecord(d.snapshots[version]), (id, version))
  {
    StateAtVersion(d.base, Events(d), table, version);
  }

  lemma EventIdentified(d: EntityData, table: Table, id: nat, version: nat)
    requires Valid(d, table) && d.base.version < version <= d.current.version
    ensures version in Events(d) && EventOf(d, version) == Some(Events(d)[version])
    ensures Identified(EVENTS, EventRecord(id, Events(d)[version]), (id, version))
  {
    EarlierStates(d.base, Events(d), table, version, d.current.version);
    StateAtVersion(d.base, Events(d), table, version - 1);
  }

  // ----- the outcome -----

  lemma EventWritten(
    d: EntityData, table: Table, id: nat, src: Built, prior: Archive, b1: Built, a1: Archive, b2: Built, a2: Archive,
    b3: Built, a3: Archive, b4: Built, a4: Archive, committed: seq<Pair>, staged: seq<Pair>, version: nat)
    requires Valid(d, table)
    requires Copied(d) ==> EventHeld(src, prior, id, DiskHistory(d.disk.value), version)
    requires StartsEvent(b1, a1, src, prior, id, d, version)
    requires Content(b2, a2, EVENTS, (id, version)) == Content(b1, a1, EVENTS, (id, version))
    requires KeyAppended(b2, a2, b3, a3, EVENTS, committed, CommittedRecords(d, id), (id, version))
    requires KeyAppended(b3, a3, b4, a4, EVENTS, staged, StagedRecords(d, id), (id, version))
    requires forall key :: key in committed <==> key in CommittedRecords(d, id)
    requires forall key :: key in staged <==> key in StagedRecords(d, id)
    ensures EventHeld(b4, a4, id, Meaning(d), version)
  {
    if d.base.version < version <= d.current.version {
      EventIdentified(d, table, id, version);
      if OnDisk(d, version) {
        assert (id, version) !in CommittedRecords(d, id);
        assert (id, version) !in StagedRecords(d, id);
      } else if version in d.committed {
        assert (id, version) in CommittedRecords(d, id);
        assert (id, version) !in StagedRecords(d, id);
      } else {
        assert (id, version) !in CommittedRecords(d, id);
        assert (id, version) in StagedRecords(d, id);
      }
    }
  }

  lemma SnapshotWritten(
    d: EntityData, table: Table, id: nat, src: Built, prior: Archive, b1: Built, a1: Archive, b2: Built, a2: Archive,
    b4: Built, a4: Archive, keys: seq<Pair>, version: nat)
    requires Valid(d, table)
    requires Copied(d) ==> SnapshotHeld(src, prior, id, DiskHistory(d.disk.value), d.disk.value.table, version)
    requires StartsSnapshot(b1, a1, src, prior, id, d, version)
    requires KeyAppended(b1, a1, b2, a2, SNAPSHOTS, keys, SnapshotRecords(d, id), (id, version))
    requires Content(b4, a4, SNAPSHOTS, (id, version)) == Content(b2, a2, SNAPSHOTS, (id, version))
    requires forall key :: key in keys <==> key in SnapshotRecords(d, id)
    ensures SnapshotHeld(b4, a4, id, Meaning(d), table, version)
  {
    if d.base.version <= version && Content(b4, a4, SNAPSHOTS, (id, version)).Some? {
      if version in d.snapshots {
        assert (id, version) in SnapshotRecords(d, id);
      } else {
        assert (id, version) !in SnapshotRecords(d, id);
        assert Copied(d) && version <= d.disk.value.current.version;
        DiskStates(d, table, version);
      }
    }
  }

  ghost predicate Appendable(b: Built, kind: nat, id: nat, records: map<Pair, Record>) {
    forall key :: key in records ==> key.0 == id && Identified(kind, records[key], key) && Ready(b, kind, key)
  }

  lemma SnapshotsAppendable(b: Built, id: nat, d: EntityData, table: Table)
    requires Valid(d, table) && d.base.id == id
    requires forall version :: StartsReady(b, id, d, SNAPSHOTS, version)
    ensures Appendable(b, SNAPSHOTS, id, SnapshotRecords(d, id))
  {
    forall key | key in SnapshotRecords(d, id)
      ensures key.0 == id && Identified(SNAPSHOTS, SnapshotRecords(d, id)[key], key) && Ready(b, SNAPSHOTS, key)
    {
      SnapshotIdentified(d, table, id, key.1);
      assert StartsReady(b, id, d, SNAPSHOTS, key.1);
    }
  }

  lemma CommittedAppendable(b: Built, id: nat, d: EntityData, table: Table)
    requires Valid(d, table) && d.base.id == id
    requires forall version :: StartsReady(b, id, d, EVENTS, version)
    ensures Appendable(b, EVENTS, id, CommittedRecords(d, id))
  {
    forall key | key in CommittedRecords(d, id)
      ensures key.0 == id && Identified(EVENTS, CommittedRecords(d, id)[key], key) && Ready(b, EVENTS, key)
    {
      EventIdentified(d, table, id, key.1);
      assert StartsReady(b, id, d, EVENTS, key.1);
    }
  }

  lemma StagedAppendable(b: Built, after: Built, id: nat, d: EntityData, table: Table, committed: seq<Pair>)
    requires Valid(d, table) && d.base.id == id
    requires forall version :: StartsReady(b, id, d, EVENTS, version)
    requires forall key: Pair :: StillReady(b, after, EVENTS, committed, key)
    requires forall key :: key in committed ==> key in CommittedRecords(d, id)
    ensures Appendable(after, EVENTS, id, StagedRecords(d, id))
  {
    forall key | key in StagedRecords(d, id)
      ensures key.0 == id && Identified(EVENTS, StagedRecords(d, id)[key], key) && Ready(after, EVENTS, key)
    {
      EventIdentified(d, table, id, key.1);
      assert d.events[key.1 - Settled(d) - 1].version == key.1;
      assert Staged(d, key.1);
      assert StartsReady(b, id, d, EVENTS, key.1);
      assert StillReady(b, after, EVENTS, committed, key);
    }
  }

  lemma OthersStart(b: Built, after: Built, id: nat, d: EntityData)
    requires (forall version :: StartsReady(b, id, d, EVENTS, version)) && OthersReady(b, after, SNAPSHOTS)
    ensures forall version :: StartsReady(after, id, d, EVENTS, version)
  {
    forall version: nat ensures StartsReady(after, id, d, EVENTS, version) {
      assert StartsReady(b, id, d, EVENTS, version);
    }
  }

  /** Copying, then appending snapshots, committed events and staged events, holds the whole history. */
  lemma HistoryWritten(
    d: EntityData, table: Table, id: nat, src: Built, prior: Archive, b1: Built, a1: Archive, b2: Built, a2: Archive,
    b3: Built, a3: Archive, b4: Built, a4: Archive, snapshots: seq<Pair>, committed: seq<Pair>, staged: seq<Pair>)
    requires Valid(d, table)
    requires Copied(d) ==> HistoryHeld(src, prior, id, DiskHistory(d.disk.value), d.disk.value.table)
    requires Started(b1, a1, src, prior, id, d) && Stored(b1, a1) && Stored(b2, a2) && Stored(b3, a3)
    requires Appending(b1, a1, b2, a2, SNAPSHOTS, id, snapshots, SnapshotRecords(d, id))
    requires Appending(b2, a2, b3, a3, EVENTS, id, committed, CommittedRecords(d, id))
    requires Appending(b3, a3, b4, a4, EVENTS, id, staged, StagedRecords(d, id))
    requires forall key :: key in snapshots <==> key in SnapshotRecords(d, id)
    requires forall key :: key in committed <==> key in CommittedRecords(d, id)
    requires forall key :: key in staged <==> key in StagedRecords(d, id)
    ensures HistoryHeld(b4, a4, id, Meaning(d), table)
  {
    forall version: nat ensures EventHeld(b4, a4, id, Meaning(d), version) {
      assert StartsEvent(b1, a1, src, prior, id, d, version);
      assert Entry(b2, EVENTS, (id, version)) == Entry(b1, EVENTS, (id, version));
      SameContent(b1, a1, a2, EVENTS, (id, version));
      assert KeyAppended(b2, a2, b3, a3, EVENTS, committed, CommittedRecords(d, id), (id, version));
      assert KeyAppended(b3, a3, b4, a4, EVENTS, staged, StagedRecords(d, id), (id, version));
      if Copied(d) {
        assert EventHeld(src, prior, id, DiskHistory(d.disk.value), version);
      }
      EventWritten(d, table, id, src, prior, b1, a1, b2, a2, b3, a3, b4, a4, committed, staged, version);
    }
    forall version: nat ensures SnapshotHeld(b4, a4, id, Meaning(d), table, version) {
      assert StartsSnapshot(b1, a1, src, prior, id, d, version);
      assert KeyAppended(b1, a1, b2, a2, SNAPSHOTS, snapshots, SnapshotRecords(d, id), (id, version));
      assert Entry(b4, SNAPSHOTS, (id, version)) == Entry(b2, SNAPSHOTS, (id, version));
      SameContent(b2, a2, a4, SNAPSHOTS, (id, version));
      if Copied(d) {
        assert SnapshotHeld(src, prior, id, DiskHistory(d.disk.value), d.disk.value.table, version);
      }
      SnapshotWritten(d, table, id, src, prior, b1, a1, b2, a2, b4, a4, snapshots, version);
    }
  }

  lemma HistoryOnly(b: Built, after: Built, kind: nat, id: nat)
    requires OnlyEntity(b, after, kind, id) && (kind == EVENTS || kind == SNAPSHOTS)
    ensures OnlyHistory(b, after, id)
  {
  }

  lemma HistoryOnlyTransitive(a: Built, b: Built, c: Built, id: nat)
    requires OnlyHistory(a, b, id) && OnlyHistory(b, c, id)
    ensures OnlyHistory(a, c, id)
  {
  }

  // ----- the primary entry -----

  /** The primary entry of an entity, in the slots of this manifest. */
  function Located(b: Built, id: nat): Option<Pointer> {
    var part := PartAt(b, Route(PRIMARY, Bucket(PRIMARY, (id, 0))));
    if part.None? || (id, 0) !in part.value.entries then None
    else
      match Translated(part.value, part.value.entries[(id, 0)])
      case Err(_) => None
      case Ok(pointer) => Some(pointer)
  }

  /** The record is at this place of this generation. */
  predicate At0(archive: Archive, kind: nat, generation: nat, location: nat, state: Entity) {
    var at := At(kind, Place(generation, 0, location));
    at in archive && archive[at] == StateRecord(state)
  }

  ghost predicate StateHeld(b: Built, archive: Archive, generations: seq<nat>, id: nat, h: History) {
    match Located(b, id)
    case Some(Locator(slot, current, base)) =>
      slot < |generations| && At0(archive, 0, generations[slot], current, h.current)
          && At0(archive, 1, generations[slot], base, h.base)
    case _ => false
  }

  ghost predicate EntityHeld(b: Built, archive: Archive, generations: seq<nat>, id: nat, h: History, table: Table) {
    StateHeld(b, archive, generations, id, h) && HistoryHeld(b, archive, id, h, table)
  }

  /** Only this entity's entries were touched, and later entities may follow. */
  ghost predicate OnlyThis(before: Built, after: Built, id: nat) {
    && (forall other :: other != id ==> Located(after, other) == Located(before, other))
    && (forall route: Route ::
          && route != Route(PRIMARY, Bucket(PRIMARY, (id, 0)))
          && !((route.kind == EVENTS || route.kind == SNAPSHOTS) && route.at.0 == id) ==>
            PartAt(after, route) == PartAt(before, route))
    && (forall later :: id < later ==> Ready(after, PRIMARY, (later, 0)))
  }

  lemma LocatedAppended(b: Built, after: Built, file: FileId, id: nat, pointer: Pointer, other: nat)
    requires BuiltOk(b) && CanAppend(b, PRIMARY, (id, 0)) && pointer.Locator?
    requires With(b, after, Route(PRIMARY, Bucket(PRIMARY, (id, 0))), Appended(b, file, PRIMARY, (id, 0), pointer, {}))
    ensures Located(after, other) == if other == id then Some(pointer) else Located(b, other)
  {
    var route := Route(PRIMARY, Bucket(PRIMARY, (id, 0)));
    if Bucket(PRIMARY, (other, 0)) == route.at && PartAt(b, route).Some? {
      assert PartOk(route, PartAt(b, route).value);
      assert OwnSlots(PartAt(b, route).value);
    }
  }

  lemma HistoryStays(
    before: Built, archive: Archive, after: Built, grown: Archive, other: nat, h: History, table: Table)
    requires HistoryHeld(before, archive, other, h, table) && Stored(before, archive) && Preserves(archive, grown)
    requires forall route: Route :: (route.kind == EVENTS || route.kind == SNAPSHOTS) && route.at.0 == other ==>
             PartAt(after, route) == PartAt(before, route)
    ensures HistoryHeld(after, grown, other, h, table)
  {
    forall version: nat ensures EventHeld(after, grown, other, h, version) {
      assert EventHeld(before, archive, other, h, version);
      assert Entry(after, EVENTS, (other, version)) == Entry(before, EVENTS, (other, version));
      SameContent(before, archive, grown, EVENTS, (other, version));
    }
    forall version: nat ensures SnapshotHeld(after, grown, other, h, table, version) {
      assert SnapshotHeld(before, archive, other, h, table, version);
      assert Entry(after, SNAPSHOTS, (other, version)) == Entry(before, SNAPSHOTS, (other, version));
      SameContent(before, archive, grown, SNAPSHOTS, (other, version));
    }
  }

  /** Entities already written stay as they are. */
  lemma EntityStays(
    before: Built, archive: Archive, after: Built, grown: Archive, generations: seq<nat>, id: nat, other: nat,
    h: History, table: Table)
    requires EntityHeld(before, archive, generations, other, h, table) && Stored(before, archive)
             && Preserves(archive, grown)
    requires OnlyThis(before, after, id) && other != id
    ensures EntityHeld(after, grown, generations, other, h, table)
  {
    HistoryStays(before, archive, after, grown, other, h, table);
  }

  lemma HistoryOnlyOthers(a: Built, b: Built, c: Built, file: FileId, id: nat, pointer: Pointer)
    requires BuiltOk(a) && CanAppend(a, PRIMARY, (id, 0)) && pointer.Locator?
    requires With(a, b, Route(PRIMARY, Bucket(PRIMARY, (id, 0))), Appended(a, file, PRIMARY, (id, 0), pointer, {}))
    requires Indexed(a, b, PRIMARY, (id, 0), pointer) && OnlyHistory(b, c, id)
    ensures OnlyThis(a, c, id) && Located(c, id) == Some(pointer)
  {
    forall other: nat ensures Located(c, other) == if other == id then Some(pointer) else Located(a, other) {
      LocatedAppended(a, b, file, id, pointer, other);
    }
  }

  lemma IndexedClear(a: Built, b: Built, id: nat, pointer: Pointer, kind: nat, at: Pair)
    requires Indexed(a, b, PRIMARY, (id, 0), pointer) && Clear(a, kind, at) && kind != PRIMARY
    ensures Clear(b, kind, at)
  {
    forall other: Pair | PartAt(b, Route(kind, other)).Some? ensures Less(other, at) {
      assert PartAt(a, Route(kind, other)).Some?;
    }
  }

  /** Carrying copies every version there can be. */
  lemma CarriedHistory(
    before: Built, archive: Archive, after: Built, grown: Archive, src: Built, id: nat, h: History, table: Table)
    requires HistoryCopied(before, archive, after, grown, src, id, 0, U64_MAX, None)
    requires HistoryHeld(src, archive, id, h, table) && h.current.version <= U64_MAX
    ensures HistoryHeld(after, grown, id, h, table)
  {
    forall version: nat ensures EventHeld(after, grown, id, h, version) {
      assert EventKept(after, grown, src, archive, id, 0, U64_MAX, None, version);
      assert EventHeld(src, archive, id, h, version);
    }
    forall version: nat ensures SnapshotHeld(after, grown, id, h, table, version) {
      assert VersionKept(after, grown, src, archive, SNAPSHOTS, id, 0, U64_MAX, None, version);
      assert SnapshotHeld(src, archive, id, h, table, version);
    }
  }

  lemma HeldStays(b: Built, before: Archive, after: Archive, id: nat, h: History, table: Table)
    requires HistoryHeld(b, before, id, h, table) && Stored(b, before) && Preserves(before, after)
    ensures HistoryHeld(b, after, id, h, table)
  {
    HistoryStays(b, before, b, after, id, h, table);
  }

  function DiskHistory(p: Persisted): History {
    History(p.base, p.current, p.events)
  }
}
