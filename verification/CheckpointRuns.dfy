/**
 Installing a built checkpoint (database.rs, install_checkpoint).

 Commits go on while a checkpoint is built.  What they write goes into the overlay and also into the
 tail; installing makes the built manifest the newest one and the tail its overlay.  The tail's entities
 are still read from the manifest that was the newest one when they were committed.
 */
module Installs {
  import opened Results
  import Model
  import opened Histories
  import opened Files
  import opened Partitions
  import opened Archives
  import opened Holding
  import opened TableBuilds
  import opened Occupancies
  import opened Manifests
  import C = Checkpoints
  import T = Transactions

  /** The entities committed since the checkpoint froze its state. */
  type Tail = map<T.Key, C.Recent>

  /** Those of one table. */
  function TailOf(tail: Tail, table: nat): (r: map<nat, C.Recent>)
    ensures forall id: nat :: id in r <==> (table, id) in tail
    ensures forall id: nat :: id in r ==> r[id] == tail[(table, id)]
  {
    var ids := set key | key in tail && key.0 == table :: key.1;
    assert forall id: nat | (table, id) in tail :: (table, id).1 in ids;
    map id | id in ids :: tail[(table, id)]
  }

  // ----- what commits do to a state -----

  /** A table the manifest has nothing of. */
  function NewTable(m: Manifest): C.Frozen {
    C.Frozen(Source(map[], m.files), m.generations, map[], map[])
  }

  function TableOf(s: State, table: nat): C.Frozen {
    if table in s.tables then s.tables[table] else NewTable(s.manifest)
  }

  function ArchiveOf(s: State, table: nat): Archive {
    if table in s.archives then s.archives[table] else map[]
  }

  function Over(f: C.Frozen, tail: map<nat, C.Recent>): C.Frozen {
    f.(overlay := f.overlay + tail)
  }

  /** The later state differs from the earlier one by tables defined and entities put over it. */
  ghost predicate Continued(s: State, later: State, tail: Tail) {
    && later.manifest == s.manifest && s.catalog.Keys <= later.catalog.Keys
    && forall table :: TableContinued(s, later, tail, table)
  }

  ghost predicate TableContinued(s: State, later: State, tail: Tail, table: nat) {
    if table in later.catalog then
      && table in later.tables && later.tables[table] == Over(TableOf(s, table), TailOf(tail, table))
      && table in later.archives && later.archives[table] == ArchiveOf(s, table)
      && (table in s.catalog ==> Model.Extends(s.catalog[table], later.catalog[table]))
    else TailOf(tail, table) == map[]
  }

  // ----- the installed state -----

  function InstalledTable(s: State, next: Manifest, tail: Tail, table: nat): C.Frozen {
    if table in s.catalog && table in s.tables
    then PublishedTable(s, next, table).(overlay := TailOf(tail, table))
    else NewTable(next).(overlay := TailOf(tail, table))
  }

  function InstalledArchive(s: State, grown: map<nat, Archive>, table: nat): Archive {
    if table in s.catalog && table in grown then grown[table] else map[]
  }

  /** The built manifest is the newest one, and the tail is its overlay. */
  function Installed(s: State, later: State, next: Manifest, grown: map<nat, Archive>, tail: Tail): State {
    State(next, later.catalog,
          map table | table in later.catalog :: InstalledTable(s, next, tail, table),
          map table | table in later.catalog :: InstalledArchive(s, grown, table))
  }

  /** The empty table is in order under any manifest that has nothing of it. */
  lemma NewTableOk(m: Manifest, table: nat, definition: Model.Table)
    requires Absent(m, table)
    ensures C.FrozenGood(NewTable(m), table, map[], definition)
    ensures forall slot :: SlotOk(m, table, {}, slot)
  {
    var f := NewTable(m);
    forall id: nat ensures C.RecordOk(f, map[], definition, id) && C.RecentOk(f, table, map[], definition, id) {
    }
    forall slot: nat ensures SlotOk(m, table, {}, slot) {
      assert NoneCounted(m, table, slot);
      assert IdsAt(PartsOf(m, table), {}, slot) == {};
    }
  }

  /** A tail entity can be read before the install. */
  lemma TailRecorded(s: State, later: State, tail: Tail, table: nat, id: nat)
    requires TableOk(later, table) && TableContinued(s, later, tail, table) && table in later.catalog
    requires id in TailOf(tail, table)
    ensures C.Recorded(TailOf(tail, table)[id], table, ArchiveOf(s, table), later.catalog[table], id)
  {
    C.RecentOf(later.tables[table], table, later.archives[table], later.catalog[table], id);
    assert later.tables[table].overlay[id] == TailOf(tail, table)[id];
  }

  /** The table's new state: the built part under the newer definition, with the tail's entities over it. */
  lemma OldTableGood(s: State, later: State, next: Manifest, grown: map<nat, Archive>, tail: Tail, table: nat)
    requires TableOk(s, table) && TableOk(later, table) && TableContinued(s, later, tail, table)
    requires table in s.catalog && table in later.catalog && TableBuilt(s, next, grown, table)
    ensures C.FrozenGood(InstalledTable(s, next, tail, table), table, grown[table], later.catalog[table])
  {
    var g, definition := PublishedTable(s, next, table), later.catalog[table];
    PublishedOk(s, next, grown, table);
    C.FrozenExtended(g, table, grown[table], s.catalog[table], definition);
    forall id | id in TailOf(tail, table)
      ensures C.Recorded(TailOf(tail, table)[id], table, grown[table], definition, id)
    {
      TailRecorded(s, later, tail, table, id);
      C.RecordedStays(TailOf(tail, table)[id], table, s.archives[table], grown[table], definition, definition, id);
    }
    C.OverlayIsRecent(g, table, grown[table], definition, TailOf(tail, table));
  }

  lemma NewTableGood(s: State, later: State, next: Manifest, tail: Tail, table: nat)
    requires TableOk(s, table) && TableOk(later, table) && TableContinued(s, later, tail, table)
    requires table !in s.catalog && table in later.catalog && Absent(next, table)
    ensures C.FrozenGood(InstalledTable(s, next, tail, table), table, map[], later.catalog[table])
  {
    NewTableOk(next, table, later.catalog[table]);
    forall id | id in TailOf(tail, table)
      ensures C.Recorded(TailOf(tail, table)[id], table, map[], later.catalog[table], id)
    {
      TailRecorded(s, later, tail, table, id);
    }
    C.OverlayIsRecent(NewTable(next), table, map[], later.catalog[table], TailOf(tail, table));
  }

  lemma InstalledTableOk(s: State, later: State, next: Manifest, grown: map<nat, Archive>, tail: Tail, table: nat)
    requires TableOk(s, table) && TableOk(later, table) && TableContinued(s, later, tail, table)
    requires s.catalog.Keys <= later.catalog.Keys && BuiltOrAbsent(s, next, grown, table)
    ensures TableOk(Installed(s, later, next, grown, tail), table)
  {
    if table in later.catalog {
      if table in s.catalog {
        OldTableGood(s, later, next, grown, tail, table);
        assert InstalledTable(s, next, tail, table).disk.Keys == Ids(s.tables[table]);
        assert PartsOf(next, table) == next.tables[table];
      } else {
        NewTableGood(s, later, next, tail, table);
        NewTableOk(next, table, later.catalog[table]);
        assert InstalledTable(s, next, tail, table).disk.Keys == {};
      }
    }
  }

  /** An entity of the tail reads the same; any other reads from the built part what it read before. */
  lemma InstalledHistories(s: State, later: State, next: Manifest, grown: map<nat, Archive>, tail: Tail, table: nat)
    requires TableOk(s, table) && TableContinued(s, later, tail, table) && table in later.catalog
    requires BuiltOrAbsent(s, next, grown, table)
    ensures SameHistories(later.tables[table], InstalledTable(s, next, tail, table))
  {
    var f, g, over := later.tables[table], InstalledTable(s, next, tail, table), TailOf(tail, table);
    if table in s.catalog {
      PublishedOk(s, next, grown, table);
      assert Ids(g) == Ids(s.tables[table]) + over.Keys == Ids(f);
      forall id | id in Ids(f) ensures C.HistoryOf(g, id) == C.HistoryOf(f, id) {
        if id !in over {
          assert C.HistoryOf(PublishedTable(s, next, table), id) == C.HistoryOf(s.tables[table], id);
        }
      }
    } else {
      assert Ids(g) == over.Keys == Ids(f);
    }
  }

  /**
   However much was committed while the checkpoint was built, installing it shows exactly what was
   visible before, in a state from which commits and the next checkpoint can go on.
   */
  lemma InstallKeepsTheView(s: State, later: State, next: Manifest, grown: map<nat, Archive>, tail: Tail)
    requires StateOk(s) && StateOk(later) && Continued(s, later, tail) && AllBuilt(s, next, grown)
    ensures StateOk(Installed(s, later, next, grown, tail))
    ensures ViewOf(Installed(s, later, next, grown, tail)) == ViewOf(later)
  {
    var t := Installed(s, later, next, grown, tail);
    forall table: nat ensures TableOk(t, table) && SameView(later, t, table) {
      assert TableOk(s, table) && TableOk(later, table) && TableContinued(s, later, tail, table);
      assert BuiltOrAbsent(s, next, grown, table);
      InstalledTableOk(s, later, next, grown, tail, table);
      if table in later.catalog {
        InstalledHistories(s, later, next, grown, tail, table);
      }
    }
    SameViews(later, t);
  }
}

/**
 Commits and checkpoints over whole runs: what is committed, when a checkpoint freezes the state, and
 what installing or abandoning it leaves.
 */
module CheckpointRuns {
  import opened Results
  import Model
  import opened Histories
  import opened Archives
  import opened TableBuilds
  import opened Manifests
  import opened Installs
  import C = Checkpoints
  import T = Transactions

  /** A checkpoint in progress: the state it froze, and what was committed since. */
  datatype Building = Building(frozen: State, tail: Tail)

  datatype Database = Database(state: State, build: Option<Building>)

  datatype Step =
    | Commit(catalog: map<nat, Model.Table>, published: Tail)
    | Begin
    | Install(next: Manifest, grown: map<nat, Archive>)
    | Abandon

  /** The state after a commit. */
  function AfterCommit(s: State, catalog: map<nat, Model.Table>, published: Tail): State {
    State(s.manifest, catalog,
          map table | table in catalog :: Over(TableOf(s, table), TailOf(published, table)),
          map table | table in catalog :: ArchiveOf(s, table))
  }

  /** Tables are only added and extended, and every entity is read from nowhere new. */
  ghost predicate Committable(s: State, catalog: map<nat, Model.Table>, published: Tail) {
    && s.catalog.Keys <= catalog.Keys && (forall table :: TableExtends(s, catalog, table))
    && forall key :: EntityCommittable(s, catalog, published, key)
  }

  ghost predicate TableExtends(s: State, catalog: map<nat, Model.Table>, table: nat) {
    table in s.catalog && table in catalog ==> Model.Extends(s.catalog[table], catalog[table])
  }

  ghost predicate EntityCommittable(s: State, catalog: map<nat, Model.Table>, published: Tail, key: T.Key) {
    key in published ==>
      && key.0 in catalog && Valid(published[key].data, catalog[key.0])
      && published[key].data.base.id == key.1 && published[key].data.current.version <= U64_MAX
      && C.Bound(TableOf(s, key.0), key.1, published[key])
  }

  ghost predicate Next(d: Database, step: Step, after: Database) {
    match step
    case Commit(catalog, published) =>
      && Committable(d.state, catalog, published)
      && after == Database(AfterCommit(d.state, catalog, published),
                           if d.build.None? then None
                           else Some(Building(d.build.value.frozen, d.build.value.tail + published)))
    case Begin =>
      d.build.None? && after == Database(d.state, Some(Building(d.state, map[])))
    case Install(next, grown) =>
      && d.build.Some? && AllBuilt(d.build.value.frozen, next, grown)
      && after == Database(Installed(d.build.value.frozen, d.state, next, grown, d.build.value.tail), None)
    case Abandon =>
      d.build.Some? && after == Database(d.state, None)
  }

  ghost predicate Inv(d: Database) {
    && StateOk(d.state)
    && (d.build.Some? ==> StateOk(d.build.value.frozen) && Continued(d.build.value.frozen, d.state, d.build.value.tail))
  }

  // ----- a commit -----

  lemma CommittedTableOk(s: State, catalog: map<nat, Model.Table>, published: Tail, table: nat)
    requires TableOk(s, table) && Committable(s, catalog, published)
    ensures TableOk(AfterCommit(s, catalog, published), table)
  {
    if table in catalog {
      var f, over := TableOf(s, table), TailOf(published, table);
      if table in s.catalog {
        assert TableExtends(s, catalog, table);
        C.FrozenExtended(f, table, s.archives[table], s.catalog[table], catalog[table]);
      } else {
        NewTableOk(s.manifest, table, catalog[table]);
        assert f.disk.Keys == {};
      }
      forall id | id in over ensures C.Recorded(over[id], table, ArchiveOf(s, table), catalog[table], id) {
        assert EntityCommittable(s, catalog, published, (table, id));
        C.BoundIsRecorded(f, table, ArchiveOf(s, table), catalog[table], id, over[id]);
      }
      C.OverlayIsRecent(f, table, ArchiveOf(s, table), catalog[table], f.overlay + over);
    }
  }

  lemma CommittedContinues(s: State, later: State, tail: Tail, catalog: map<nat, Model.Table>, published: Tail)
    requires StateOk(s) && StateOk(later) && Continued(s, later, tail) && Committable(later, catalog, published)
    ensures Continued(s, AfterCommit(later, catalog, published), tail + published)
  {
    var t, more := AfterCommit(later, catalog, published), tail + published;
    forall table ensures TableContinued(s, t, more, table) {
      CommittedTableContinues(s, later, tail, catalog, published, table);
    }
  }

  lemma TailTogether(tail: Tail, published: Tail, table: nat)
    ensures TailOf(tail + published, table) == TailOf(tail, table) + TailOf(published, table)
  {
  }

  lemma OverTwice(f: C.Frozen, before: map<nat, C.Recent>, over: map<nat, C.Recent>)
    ensures Over(Over(f, before), over) == Over(f, before + over)
  {
    assert (f.overlay + before) + over == f.overlay + (before + over);
  }

  lemma NothingOver(f: C.Frozen)
    ensures Over(f, map[]) == f
  {
    assert f.overlay + map[] == f.overlay;
  }

  /** Nothing is published for a table that is not in the catalog. */
  lemma NothingPublished(s: State, catalog: map<nat, Model.Table>, published: Tail, table: nat)
    requires Committable(s, catalog, published) && table !in catalog
    ensures TailOf(published, table) == map[]
  {
    forall id: nat ensures id !in TailOf(published, table) {
      assert EntityCommittable(s, catalog, published, (table, id));
    }
  }

  lemma CommittedTableContinues(
    s: State, later: State, tail: Tail, catalog: map<nat, Model.Table>, published: Tail, table: nat)
    requires TableOk(s, table) && TableOk(later, table) && TableContinued(s, later, tail, table)
    requires s.catalog.Keys <= later.catalog.Keys && later.manifest == s.manifest
    requires Committable(later, catalog, published)
    ensures TableContinued(s, AfterCommit(later, catalog, published), tail + published, table)
  {
    TailTogether(tail, published, table);
    if table in later.catalog {
      OldTableContinues(s, later, tail, catalog, published, table);
    } else {
      NothingOver(TableOf(s, table));
      if table !in catalog {
        NothingPublished(later, catalog, published, table);
      }
      OverTwice(TableOf(s, table), map[], TailOf(published, table));
    }
  }

  lemma OldTableContinues(
    s: State, later: State, tail: Tail, catalog: map<nat, Model.Table>, published: Tail, table: nat)
    requires TableContinued(s, later, tail, table) && table in later.catalog
    requires s.catalog.Keys <= later.catalog.Keys && Committable(later, catalog, published)
    requires TailOf(tail + published, table) == TailOf(tail, table) + TailOf(published, table)
    ensures TableContinued(s, AfterCommit(later, catalog, published), tail + published, table)
  {
    OverTwice(TableOf(s, table), TailOf(tail, table), TailOf(published, table));
    assert TableExtends(later, catalog, table);
    if table in s.catalog {
      Model.ExtendsThrough(s.catalog[table], later.catalog[table], catalog[table]);
    }
  }

  lemma BeginContinues(s: State)
    requires StateOk(s)
    ensures Continued(s, s, map[])
  {
    forall table ensures TableContinued(s, s, map[], table) {
      assert TableOk(s, table);
      if table in s.catalog {
        assert TailOf(map[], table) == map[];
        assert s.tables[table].overlay + map[] == s.tables[table].overlay;
      } else {
        assert TailOf(map[], table) == map[];
      }
    }
  }

  /** Every step keeps the invariant, so every reachable state can be committed to, frozen and built. */
  lemma NextKeeps(d: Database, step: Step, after: Database)
    requires Inv(d) && Next(d, step, after)
    ensures Inv(after)
  {
    match step
    case Commit(catalog, published) =>
      forall table ensures TableOk(after.state, table) {
        assert TableOk(d.state, table);
        CommittedTableOk(d.state, catalog, published, table);
      }
      if d.build.Some? {
        CommittedContinues(d.build.value.frozen, d.state, d.build.value.tail, catalog, published);
      }
    case Begin =>
      BeginContinues(d.state);
    case Install(next, grown) =>
      InstallKeepsTheView(d.build.value.frozen, d.state, next, grown, d.build.value.tail);
    case Abandon =>
  }

  // ----- what readers see -----

  /** The histories a commit publishes. */
  function Shown(published: Tail): map<T.Key, History> {
    map key | key in published :: Meaning(published[key].data)
  }

  /** What a reader finds under one key. */
  function Looked(s: State, key: T.Key): Option<History> {
    if key.0 in s.catalog && key.0 in s.tables && C.Exists(s.tables[key.0], key.1)
    then Some(C.HistoryOf(s.tables[key.0], key.1)) else None
  }

  ghost predicate LooksAs(s: State, entities: map<T.Key, History>, key: T.Key) {
    Looked(s, key) == if key in entities then Some(entities[key]) else None
  }

  lemma ViewLooks(s: State, key: T.Key)
    ensures LooksAs(s, ViewOf(s).entities, key)
  {
    assert key in KeysOf(s) <==> Looked(s, key).Some?;
  }

  lemma LooksDecide(s: State, entities: map<T.Key, History>)
    requires forall key :: LooksAs(s, entities, key)
    ensures ViewOf(s).entities == entities
  {
    var seen := ViewOf(s).entities;
    forall key ensures key in seen <==> key in entities
      ensures key in seen ==> seen[key] == entities[key]
    {
      ViewLooks(s, key);
      assert LooksAs(s, entities, key);
    }
  }

  function Found(f: C.Frozen, id: nat): Option<History> {
    if C.Exists(f, id) then Some(C.HistoryOf(f, id)) else None
  }

  lemma FoundOver(f: C.Frozen, over: map<nat, C.Recent>, id: nat)
    ensures Found(Over(f, over), id) == if id in over then Some(Meaning(over[id].data)) else Found(f, id)
  {
  }

  lemma CommitLooks(s: State, catalog: map<nat, Model.Table>, published: Tail, key: T.Key)
    requires key.0 in s.catalog <==> key.0 in s.tables
    requires s.catalog.Keys <= catalog.Keys && (key in published ==> key.0 in catalog)
    ensures Looked(AfterCommit(s, catalog, published), key)
         == if key in published then Some(Meaning(published[key].data)) else Looked(s, key)
  {
    if key.0 in catalog {
      FoundOver(TableOf(s, key.0), TailOf(published, key.0), key.1);
      assert AfterCommit(s, catalog, published).tables[key.0] == Over(TableOf(s, key.0), TailOf(published, key.0));
    }
  }

  /** A commit changes what it publishes and nothing else. */
  lemma CommitShows(s: State, catalog: map<nat, Model.Table>, published: Tail)
    requires StateOk(s) && Committable(s, catalog, published)
    ensures ViewOf(AfterCommit(s, catalog, published)) == T.View(catalog, ViewOf(s).entities + Shown(published))
  {
    var t, entities := AfterCommit(s, catalog, published), ViewOf(s).entities + Shown(published);
    forall key ensures LooksAs(t, entities, key) {
      assert TableOk(s, key.0) && EntityCommittable(s, catalog, published, key);
      CommitLooks(s, catalog, published, key);
      ViewLooks(s, key);
    }
    LooksDecide(t, entities);
  }

  /** Freezing, installing and abandoning a checkpoint are invisible, whatever was committed in between. */
  lemma CheckpointsAreInvisible(d: Database, step: Step, after: Database)
    requires Inv(d) && Next(d, step, after) && !step.Commit?
    ensures ViewOf(after.state) == ViewOf(d.state)
  {
    if step.Install? {
      InstallKeepsTheView(d.build.value.frozen, d.state, step.next, step.grown, d.build.value.tail);
    }
  }
}
