/**
 What a state of the database shows, and which checkpoint each of its entities is read over.
 */
module EngineStates {
  import opened Results
  import opened Model
  import opened Histories
  import opened Transactions
  import opened Conflicts
  import opened StagedData
  import opened Holding
  import opened TableBuilds
  import opened Manifests
  import opened Installs
  import opened CheckpointRuns
  import opened Publication
  import C = Checkpoints

  function OverlayKeys(s: State): set<Key> {
    set table, id | table in s.catalog && table in s.tables && id in s.tables[table].overlay :: (table, id)
  }

  function DiskKeys(s: State): set<Key> {
    set table, id | table in s.catalog && table in s.tables && id in s.tables[table].disk :: (table, id)
  }

  /** The state as transactions read it. */
  function ShownBy(s: State, lsn: nat): ReadState {
    ReadState(s.catalog, map key | key in OverlayKeys(s) :: s.tables[key.0].overlay[key.1].data,
              map key | key in DiskKeys(s) :: s.tables[key.0].disk[key.1], lsn)
  }

  /** Where an entity of the state comes from: which checkpoint's record it is read over. */
  ghost predicate EntitySits(s: State, root: nat, views: seq<View>, key: Key)
    requires root < |views|
  {
    && (key in views[root].entities ==> key in DiskKeys(s))
    && (key in DiskKeys(s) ==> FromRoot(s.tables[key.0].disk[key.1], views[root], key))
    && (key in OverlayKeys(s) ==> RecentSits(s, s.tables[key.0].overlay[key.1], root, views, key))
  }

  /** An entity of the overlay is sealed, and read over the newest record or over an older one. */
  ghost predicate RecentSits(s: State, r: C.Recent, root: nat, views: seq<View>, key: Key)
    requires root < |views|
  {
    && r.data.events == [] && r.generation <= s.manifest.generation
    && (r.data.disk.Some? ==> FromEarlier(r.data.disk.value, root, views, key))
    && (r.data.disk.Some? && r.generation == s.manifest.generation ==> OverNewest(s, r.data, key))
  }

  ghost predicate FromEarlier(p: Persisted, root: nat, views: seq<View>, key: Key) {
    exists q: nat :: q <= root && q < |views| && FromRoot(p, views[q], key)
  }

  predicate OverNewest(s: State, d: EntityData, key: Key) {
    key in DiskKeys(s) && d.disk == Some(s.tables[key.0].disk[key.1])
  }

  /** The state is the view at its sequence, over a checkpoint taken at sequence `root`. */
  ghost predicate Sits(s: State, lsn: nat, root: nat, views: seq<View>) {
    && root <= lsn < |views| && ViewOf(s) == views[lsn]
    && forall key :: EntitySits(s, root, views, key)
  }

  // ----- reading a state -----

  lemma ShownEntity(s: State, key: Key)
    requires StateOk(s)
    ensures key in OverlayKeys(s) ==> Valid(s.tables[key.0].overlay[key.1].data, s.catalog[key.0])
    ensures key in DiskKeys(s) ==>
              var p := s.tables[key.0].disk[key.1];
              PersistedOk(p) && Extends(p.table, s.catalog[key.0]) && PersistedMeaning(p) == DiskHistory(p)
  {
    if key in OverlayKeys(s) || key in DiskKeys(s) {
      assert TableOk(s, key.0);
      C.RecentOf(s.tables[key.0], key.0, s.archives[key.0], s.catalog[key.0], key.1);
    }
  }

  /** Transactions read exactly what the state shows. */
  lemma ShownView(s: State, lsn: nat)
    requires StateOk(s)
    ensures Visible(ShownBy(s, lsn)) == ViewOf(s)
  {
    var rs := ShownBy(s, lsn);
    forall key ensures LooksAs(s, Visible(rs).entities, key) {
      ShownEntity(s, key);
    }
    LooksDecide(s, Visible(rs).entities);
  }

  lemma ShownOk(s: State, lsn: nat, root: nat, views: seq<View>)
    requires StateOk(s) && CatalogOk(s.catalog) && Sits(s, lsn, root, views)
    ensures ReadStateOk(ShownBy(s, lsn))
  {
    var rs := ShownBy(s, lsn);
    forall key | key in rs.overlay
      ensures key.0 in rs.catalog && Valid(rs.overlay[key], rs.catalog[key.0]) && rs.overlay[key].events == []
    {
      ShownEntity(s, key);
      assert EntitySits(s, root, views, key);
    }
    forall key | key in rs.persisted
      ensures key.0 in rs.catalog && PersistedOk(rs.persisted[key])
              && Extends(rs.persisted[key].table, rs.catalog[key.0])
    {
      ShownEntity(s, key);
    }
  }

  /** What an entity is read over came from a checkpoint no later than the state's. */
  lemma DiskIsEarlier(s: State, lsn: nat, root: nat, views: seq<View>, key: Key)
    requires Sits(s, lsn, root, views)
    ensures DiskOf(ShownBy(s, lsn), key).Some? ==> FromEarlier(DiskOf(ShownBy(s, lsn), key).value, root, views, key)
  {
    assert EntitySits(s, root, views, key);
  }

  lemma MoreViews(s: State, lsn: nat, root: nat, views: seq<View>, more: seq<View>)
    requires Sits(s, lsn, root, views) && views <= more
    ensures Sits(s, lsn, root, more)
  {
    forall key ensures EntitySits(s, root, more, key) {
      assert EntitySits(s, root, views, key);
      if key in OverlayKeys(s) && s.tables[key.0].overlay[key.1].data.disk.Some? {
        StillEarlier(s.tables[key.0].overlay[key.1].data.disk.value, root, root, views, more, key);
      }
    }
  }

  lemma StillEarlier(p: Persisted, root: nat, later: nat, views: seq<View>, more: seq<View>, key: Key)
    requires FromEarlier(p, root, views, key) && root <= later && views <= more
    ensures FromEarlier(p, later, more, key)
  {
    var q: nat :| q <= root && q < |views| && FromRoot(p, views[q], key);
    assert FromRoot(p, more[q], key);
  }
}

/**
 What committing a staged transaction and installing a checkpoint do to a state and to what its
 entities are read over.
 */
module EngineSteps {
  import opened Results
  import opened Model
  import opened Histories
  import opened Transactions
  import opened Conflicts
  import opened StagedData
  import opened Growth
  import opened Publication
  import opened Holding
  import opened Archives
  import opened TableBuilds
  import opened Manifests
  import opened Installs
  import opened CheckpointRuns
  import opened EngineStates
  import C = Checkpoints

  /** What a transaction or a snapshot keeps: a state, its sequence, and the sequence of its checkpoint. */
  datatype Pin = Pin(state: State, lsn: nat, root: nat)

  ghost predicate PinOk(p: Pin, s: State, root: nat, views: seq<View>) {
    && StateOk(p.state) && Sits(p.state, p.lsn, p.root, views) && p.root <= root
    && p.state.manifest.generation <= s.manifest.generation
    && (p.state.manifest.generation == s.manifest.generation ==> forall key :: SameRecord(p.state, s, key))
  }

  ghost predicate SameRecord(a: State, b: State, key: Key) {
    key in DiskKeys(a) ==> key in DiskKeys(b) && b.tables[key.0].disk[key.1] == a.tables[key.0].disk[key.1]
  }

  /** The transaction as it is committed. */
  function BatchOf(
    began: nat, catalog: Catalog, staged: map<Key, EntityData>, ops: seq<Operation>, deadline: Option<nat>): Batch
  {
    Batch(began, staged.Keys, ChangesCatalog(ops), ops, Stage(catalog, Meanings(staged)), deadline)
  }

  /** The view after the batch took its sequence. */
  ghost predicate IsNext(before: View, batch: Batch, lsn: nat, after: View) {
    forall same: Batch :: same == batch ==> after == Publish(before, StampStage(same.stage, same.began, lsn))
  }

  /** The staged entities that are read over another manifest than the newest one. */
  function Elsewhere(p: State, s: State, staged: map<Key, EntityData>): set<Key> {
    set key | key in staged
      && (|| p.manifest.generation != s.manifest.generation
          || (staged[key].disk.Some? && key in OverlayKeys(p)
              && p.tables[key.0].overlay[key.1].generation != s.manifest.generation))
  }

  // ----- what the transaction staged -----

  lemma StagedHeld(
    p: Pin, catalog: Catalog, staged: map<Key, EntityData>, batch: Batch, root: nat, views: seq<View>, key: Key)
    requires AllRight(ShownBy(p.state, p.lsn), catalog, staged) && StateOk(p.state)
    requires Sits(p.state, p.lsn, p.root, views) && p.root <= root < |views|
    requires batch.began == p.lsn && batch.stage == Stage(catalog, Meanings(staged))
    ensures Held(staged, views, batch, key, root)
  {
    if key in staged {
      var rs, d := ShownBy(p.state, p.lsn), staged[key];
      assert StagedRight(rs, catalog, key, d);
      ShownView(p.state, p.lsn);
      DiskIsEarlier(p.state, p.lsn, p.root, views, key);
      if d.disk.Some? {
        StillEarlier(d.disk.value, p.root, root, views, views, key);
      }
      assert StagedEntity(d, views, batch, key, root);
    }
  }

  /** An entity a checkpoint recorded is in every later checkpoint. */
  lemma KnownLater(views: seq<View>, log: seq<Batch>, p: Persisted, root: nat, key: Key)
    requires Serial(views, log) && root < |views| && FromEarlier(p, root, views, key)
    ensures key in views[root].entities
  {
    var q: nat :| q <= root && q < |views| && FromRoot(p, views[q], key);
    RunOfViewsGrows(views, log, q, root, key);
  }

  /** An entity read over another manifest is known to the newest one. */
  lemma ElsewhereIsKnown(p: Pin, s: State, lsn: nat, root: nat, views: seq<View>, log: seq<Batch>, key: Key)
    requires Serial(views, log) && Sits(s, lsn, root, views) && PinOk(p, s, root, views)
    requires DiskOf(ShownBy(p.state, p.lsn), key).Some?
    ensures key in DiskKeys(s)
  {
    var disk := DiskOf(ShownBy(p.state, p.lsn), key).value;
    DiskIsEarlier(p.state, p.lsn, p.root, views, key);
    StillEarlier(disk, p.root, root, views, views, key);
    KnownLater(views, log, disk, root, key);
    assert EntitySits(s, root, views, key);
  }

  /** An entity that is not read over another manifest is read over the newest record. */
  lemma HereIsNewest(p: Pin, s: State, root: nat, views: seq<View>, key: Key)
    requires PinOk(p, s, root, views) && p.state.manifest.generation == s.manifest.generation
    requires key in OverlayKeys(p.state) ==>
               p.state.tables[key.0].overlay[key.1].generation == s.manifest.generation
    ensures var disk := DiskOf(ShownBy(p.state, p.lsn), key);
            disk.Some? ==> key in DiskKeys(s) && disk == Some(s.tables[key.0].disk[key.1])
  {
    assert EntitySits(p.state, p.root, views, key) && SameRecord(p.state, s, key);
  }

  /** After the rebind every entity is read over the newest record, or over none. */
  lemma ReboundToNewest(
    p: Pin, s: State, staged: map<Key, EntityData>, lsn: nat, root: nat, views: seq<View>, log: seq<Batch>, key: Key)
    requires key in staged && staged[key].disk == DiskOf(ShownBy(p.state, p.lsn), key)
    requires Serial(views, log) && Sits(s, lsn, root, views) && PinOk(p, s, root, views)
    ensures var disk := DiskAfter(staged, ShownBy(s, lsn).persisted, Elsewhere(p.state, s, staged), key);
            disk.Some? ==> key in DiskKeys(s) && disk == Some(s.tables[key.0].disk[key.1])
  {
    if staged[key].disk.Some? {
      if key in Elsewhere(p.state, s, staged) {
        ElsewhereIsKnown(p, s, lsn, root, views, log, key);
      } else {
        HereIsNewest(p, s, root, views, key);
      }
    }
  }

  // ----- the committed state -----

  /** The published entities, read over the newest manifest. */
  function Recents(s: State, published: map<Key, EntityData>): Tail {
    map key | key in published ::
      C.Recent(published[key], TableOf(s, key.0).source, s.manifest.generation)
  }

  /** What a commit publishes, and what it is read over. */
  ghost predicate PublishedRight(s: State, catalog: Catalog, published: map<Key, EntityData>, key: Key) {
    key in published ==>
      && key.0 in catalog && Valid(published[key], catalog[key.0]) && published[key].events == []
      && published[key].base.id == key.1 && published[key].current.version <= U64_MAX
      && (published[key].disk.Some? ==> OverNewest(s, published[key], key))
  }

  lemma PublishedCommittable(s: State, catalog: Catalog, published: map<Key, EntityData>)
    requires StateOk(s) && CatalogExtends(s.catalog, catalog)
    requires forall key :: PublishedRight(s, catalog, published, key)
    ensures Committable(s, catalog, Recents(s, published))
  {
    forall table ensures TableExtends(s, catalog, table) {}
    forall key ensures EntityCommittable(s, catalog, Recents(s, published), key) {
      assert PublishedRight(s, catalog, published, key);
    }
  }

  lemma ShownRecents(s: State, published: map<Key, EntityData>)
    ensures Shown(Recents(s, published)) == Meanings(published)
  {
  }

  lemma CommittedKeys(s: State, catalog: Catalog, published: map<Key, EntityData>, key: Key)
    requires StateOk(s) && Committable(s, catalog, Recents(s, published))
    ensures var t := AfterCommit(s, catalog, Recents(s, published));
            && (key in DiskKeys(t) <==> key in DiskKeys(s))
            && (key in DiskKeys(s) ==> t.tables[key.0].disk[key.1] == s.tables[key.0].disk[key.1])
            && (key in OverlayKeys(t) <==> key in OverlayKeys(s) || key in published)
            && (key in OverlayKeys(t) ==>
                  t.tables[key.0].overlay[key.1]
                  == if key in published then Recents(s, published)[key] else s.tables[key.0].overlay[key.1])
  {
    var t := AfterCommit(s, catalog, Recents(s, published));
    assert TableOk(s, key.0) && EntityCommittable(s, catalog, Recents(s, published), key);
    if key.0 in catalog {
      assert t.tables[key.0] == Over(TableOf(s, key.0), TailOf(Recents(s, published), key.0));
    }
  }

  /** After a commit the state is the next view, over the same checkpoint. */
  lemma CommittedSits(
    s: State, lsn: nat, root: nat, views: seq<View>, catalog: Catalog, published: map<Key, EntityData>, after: View)
    requires StateOk(s) && Sits(s, lsn, root, views) && |views| == lsn + 1 && CatalogExtends(s.catalog, catalog)
    requires forall key :: PublishedRight(s, catalog, published, key)
    requires after == Publish(views[lsn], Stage(catalog, Meanings(published)))
    ensures Committable(s, catalog, Recents(s, published))
    ensures Sits(AfterCommit(s, catalog, Recents(s, published)), lsn + 1, root, views + [after])
  {
    var t, more := AfterCommit(s, catalog, Recents(s, published)), views + [after];
    PublishedCommittable(s, catalog, published);
    CommitShows(s, catalog, Recents(s, published));
    ShownRecents(s, published);
    MoreViews(s, lsn, root, views, more);
    forall key ensures EntitySits(t, root, more, key) {
      CommittedEntitySits(s, root, more, catalog, published, key);
    }
  }

  lemma CommittedEntitySits(
    s: State, root: nat, views: seq<View>, catalog: Catalog, published: map<Key, EntityData>, key: Key)
    requires StateOk(s) && root < |views| && EntitySits(s, root, views, key)
    requires Committable(s, catalog, Recents(s, published)) && PublishedRight(s, catalog, published, key)
    ensures EntitySits(AfterCommit(s, catalog, Recents(s, published)), root, views, key)
  {
    CommittedKeys(s, catalog, published, key);
    if key in published && published[key].disk.Some? {
      assert FromRoot(published[key].disk.value, views[root], key);
      assert FromEarlier(published[key].disk.value, root, views, key);
    }
  }

  lemma CommittedPins(
    p: Pin, s: State, catalog: Catalog, published: map<Key, EntityData>, root: nat, views: seq<View>, after: View)
    requires StateOk(s) && Committable(s, catalog, Recents(s, published)) && PinOk(p, s, root, views)
    ensures PinOk(p, AfterCommit(s, catalog, Recents(s, published)), root, views + [after])
  {
    MoreViews(p.state, p.lsn, p.root, views, views + [after]);
    var t := AfterCommit(s, catalog, Recents(s, published));
    forall key ensures SameRecord(p.state, s, key) ==> SameRecord(p.state, t, key) {
      CommittedKeys(s, catalog, published, key);
    }
  }

  // ----- the installed state -----

  lemma InstalledKeys(s: State, later: State, next: Manifest, grown: map<nat, Archive>, tail: Tail, key: Key)
    requires StateOk(s) && StateOk(later) && Continued(s, later, tail) && AllBuilt(s, next, grown)
    ensures var t := Installed(s, later, next, grown, tail);
            && (key in DiskKeys(t) <==> key in KeysOf(s))
            && (key in DiskKeys(t) ==>
                  t.tables[key.0].disk[key.1] == RecordFor(s.catalog[key.0], C.HistoryOf(s.tables[key.0], key.1)))
            && (key in OverlayKeys(t) ==>
                  && key in OverlayKeys(later)
                  && t.tables[key.0].overlay[key.1] == later.tables[key.0].overlay[key.1])
  {
    var t := Installed(s, later, next, grown, tail);
    assert TableOk(s, key.0) && TableOk(later, key.0) && TableContinued(s, later, tail, key.0);
    if key.0 in later.catalog {
      assert t.tables[key.0] == InstalledTable(s, next, tail, key.0);
    }
  }

  /** The built record of an entity is its history in the frozen view. */
  lemma BuiltFromRoot(s: State, root: nat, views: seq<View>, key: Key)
    requires StateOk(s) && root < |views| && ViewOf(s) == views[root] && key in KeysOf(s)
    ensures FromRoot(RecordFor(s.catalog[key.0], C.HistoryOf(s.tables[key.0], key.1)), views[root], key)
  {
    assert TableOk(s, key.0);
    FrozenIsRecord(s, key.0, key.1);
    var h := C.HistoryOf(s.tables[key.0], key.1);
    var p := RecordFor(s.catalog[key.0], h);
    assert PersistedMeaning(p).events == h.events;
  }

  /** After an install the state shows what it showed, over the checkpoint of the frozen view. */
  lemma InstalledSits(
    s: State, later: State, next: Manifest, grown: map<nat, Archive>, tail: Tail, lsn: nat, root: nat, frozenAt: nat,
    views: seq<View>)
    requires StateOk(s) && StateOk(later) && Continued(s, later, tail) && AllBuilt(s, next, grown)
    requires Sits(later, lsn, root, views) && root <= frozenAt <= lsn && ViewOf(s) == views[frozenAt]
    requires next.generation > later.manifest.generation
    ensures Sits(Installed(s, later, next, grown, tail), lsn, frozenAt, views)
  {
    var t := Installed(s, later, next, grown, tail);
    InstallKeepsTheView(s, later, next, grown, tail);
    forall key ensures EntitySits(t, frozenAt, views, key) {
      InstalledEntitySits(s, later, next, grown, tail, root, frozenAt, views, key);
    }
  }

  lemma InstalledEntitySits(
    s: State, later: State, next: Manifest, grown: map<nat, Archive>, tail: Tail, root: nat, frozenAt: nat,
    views: seq<View>, key: Key)
    requires StateOk(s) && StateOk(later) && Continued(s, later, tail) && AllBuilt(s, next, grown)
    requires root <= frozenAt < |views| && ViewOf(s) == views[frozenAt] && EntitySits(later, root, views, key)
    requires next.generation > later.manifest.generation
    ensures EntitySits(Installed(s, later, next, grown, tail), frozenAt, views, key)
  {
    InstalledKeys(s, later, next, grown, tail, key);
    if key in KeysOf(s) {
      BuiltFromRoot(s, frozenAt, views, key);
    }
    var t := Installed(s, later, next, grown, tail);
    if key in OverlayKeys(t) && t.tables[key.0].overlay[key.1].data.disk.Some? {
      StillEarlier(t.tables[key.0].overlay[key.1].data.disk.value, root, frozenAt, views, views, key);
    }
  }

  lemma InstalledPins(
    p: Pin, s: State, later: State, next: Manifest, grown: map<nat, Archive>, tail: Tail, root: nat, frozenAt: nat,
    views: seq<View>)
    requires PinOk(p, later, root, views) && root <= frozenAt && next.generation > later.manifest.generation
    ensures PinOk(p, Installed(s, later, next, grown, tail), frozenAt, views)
  {
  }
}

/**
 One commit on values, and what every run of the database keeps.
 */
module EngineRuns {
  import opened Results
  import opened Model
  import opened Histories
  import opened Transactions
  import opened Conflicts
  import opened StagedData
  import opened Stagings
  import opened Publication
  import opened Archives
  import opened TableBuilds
  import opened Manifests
  import opened Installs
  import opened CheckpointRuns
  import opened EngineStates
  import opened EngineSteps
  import C = Checkpoints
  import W = Wal

  // ----- one commit, on values -----

  /** A staged transaction may follow the log. */
  ghost predicate Follows(p: Pin, batch: Batch, views: seq<View>, log: seq<Batch>) {
    && p.lsn <= |log| && batch.began == p.lsn && batch.keys == batch.stage.staged.Keys
    && batch.catalog == ChangesCatalog(batch.ops) && !Overtaken(log, batch, p.lsn, |log|)
  }

  lemma StagedIsReady(p: Pin, s: State, batch: Batch, root: nat, views: seq<View>, log: seq<Batch>)
    requires Serial(views, log) && PinOk(p, s, root, views) && Follows(p, batch, views, log) && root <= |log|
    requires RunsTo(Visible(ShownBy(p.state, p.lsn)), batch.ops, p.lsn + 1, batch.stage)
    ensures Ready(views, log, batch, root) && batch.began < |views| && StagedOn(batch, views[p.lsn])
  {
    ShownView(p.state, p.lsn);
    assert Publishable(views, log, batch, root);
  }

  lemma PersistedInRoot(s: State, lsn: nat, root: nat, views: seq<View>, key: Key)
    requires Sits(s, lsn, root, views)
    ensures InRoot(ShownBy(s, lsn).persisted, views[root], key)
  {
    assert EntitySits(s, root, views, key);
  }

  /** The log and the views with the batch at their end. */
  lemma OneMoreSerial(batch: Batch, views: seq<View>, log: seq<Batch>, after: View)
    requires Serial(views, log) && |log| < U64_MAX && batch.began <= |log| && StagedOn(batch, views[batch.began])
    requires !Overtaken(log, batch, batch.began, |log|)
    requires after == Publish(views[|log|], StampStage(batch.stage, batch.began, |log| + 1))
    ensures Serial(views + [after], log + [batch]) && ViewOk(after, |log| + 1)
  {
    PublicationIsSerial(views, log, batch);
    ExtendSerial(views, log, batch, after);
    assert (views + [after])[|log| + 1] == after;
  }

  lemma PublishedIsRight(
    p: Pin, s: State, lsn: nat, staged: map<Key, EntityData>, published: map<Key, EntityData>, r: ReadState,
    root: nat, views: seq<View>, log: seq<Batch>, after: View, key: Key)
    requires Serial(views, log) && Sits(s, lsn, root, views) && PinOk(p, s, root, views)
    requires ReadStateOk(r) && r.overlay == ShownBy(s, lsn).overlay + published
    requires Visible(r) == after && ViewOk(after, lsn + 1)
    requires published.Keys == staged.Keys
    requires key in staged ==> staged[key].disk == DiskOf(ShownBy(p.state, p.lsn), key)
    requires key in published ==>
               published[key].disk == DiskAfter(staged, ShownBy(s, lsn).persisted, Elsewhere(p.state, s, staged), key)
    ensures PublishedRight(s, r.catalog, published, key)
  {
    if key in published {
      assert r.overlay[key] == published[key];
      ReboundToNewest(p, s, staged, lsn, root, views, log, key);
      assert after.entities[key] == Meaning(published[key]);
      assert HistoryOk(after.entities[key], key, after.catalog, lsn + 1);
    }
  }

  ghost predicate CommittingBy(
    p: Pin, s: State, lsn: nat, staged: map<Key, EntityData>, batch: Batch, root: nat, views: seq<View>,
    log: seq<Batch>)
  {
    && StateOk(s) && Sits(s, lsn, root, views) && Serial(views, log) && lsn == |log| < U64_MAX
    && PinOk(p, s, root, views) && Follows(p, batch, views, log)
    && AllRight(ShownBy(p.state, p.lsn), batch.stage.catalog, staged)
    && batch.stage == Stage(batch.stage.catalog, Meanings(staged))
    && RunsTo(Visible(ShownBy(p.state, p.lsn)), batch.ops, p.lsn + 1, batch.stage)
  }

  /** The same, folded until it is asked for. */
  ghost predicate Committing(
    p: Pin, s: State, lsn: nat, staged: map<Key, EntityData>, batch: Batch, root: nat, views: seq<View>,
    log: seq<Batch>)
  {
    lsn < |views| && forall same: Pin :: same == p ==> CommittingBy(same, s, lsn, staged, batch, root, views, log)
  }

  /** What is published may stand over the state. */
  ghost predicate Publishes(s: State, catalog: Catalog, published: map<Key, EntityData>) {
    forall same: State :: same == s ==> PublishesBy(same, catalog, published)
  }

  ghost predicate PublishesBy(s: State, catalog: Catalog, published: map<Key, EntityData>) {
    CatalogExtends(s.catalog, catalog) && forall key :: PublishedRight(s, catalog, published, key)
  }

  /**
   Commits a staged transaction after the log: the state shows the next view, which is the serial
   execution of the transaction, over the same checkpoint.
   */
  method CommitOn(
    p: Pin, s: State, lsn: nat, staged: map<Key, EntityData>, batch: Batch, ghost root: nat, ghost views: seq<View>,
    ghost log: seq<Batch>)
    returns (catalog: Catalog, published: map<Key, EntityData>, ghost after: View)
    requires Committing(p, s, lsn, staged, batch, root, views, log)
    ensures Publishes(s, catalog, published) && IsNext(views[lsn], batch, lsn + 1, after)
    ensures after == Publish(views[lsn], Stage(catalog, Meanings(published)))
    ensures Serial(views + [after], log + [batch])
  {
    var rs, elsewhere := ShownBy(s, lsn), Elsewhere(p.state, s, staged);
    PrepareCommit(p, s, lsn, staged, batch, root, views, log);
    ghost var r;
    r, published := CommitPrepared(rs, staged, batch, elsewhere, root, views, log);
    catalog, after := batch.stage.catalog, Visible(r);
    FinishView(rs, lsn, staged, batch, elsewhere, views, log, published, r);
    FinishSerial(p, s, lsn, staged, batch, root, views, log, after);
    FinishPublished(p, s, lsn, staged, batch, root, views, log, published, r, after);
  }

  lemma PrepareCommit(
    p: Pin, s: State, lsn: nat, staged: map<Key, EntityData>, batch: Batch, root: nat, views: seq<View>,
    log: seq<Batch>)
    requires Committing(p, s, lsn, staged, batch, root, views, log)
    ensures IsPrepared(ShownBy(s, lsn), staged, batch, root, views, log)
    ensures |log| == lsn && |views| == lsn + 1
  {
    assert CommittingBy(p, s, lsn, staged, batch, root, views, log);
    Prepare(p, s, lsn, staged, batch, root, views, log);
  }

  /** The batch was staged on a view of the log that nobody has overtaken. */
  lemma CommittingFacts(
    p: Pin, s: State, lsn: nat, staged: map<Key, EntityData>, batch: Batch, root: nat, views: seq<View>,
    log: seq<Batch>)
    requires Committing(p, s, lsn, staged, batch, root, views, log)
    ensures Serial(views, log) && |log| < U64_MAX && batch.began <= |log| && |views| == |log| + 1
    ensures StagedOn(batch, views[batch.began]) && !Overtaken(log, batch, batch.began, |log|)
  {
    assert CommittingBy(p, s, lsn, staged, batch, root, views, log);
    StagedIsReady(p, s, batch, root, views, log);
  }

  /** The published view follows the log. */
  lemma FinishSerial(
    p: Pin, s: State, lsn: nat, staged: map<Key, EntityData>, batch: Batch, root: nat, views: seq<View>,
    log: seq<Batch>, after: View)
    requires Committing(p, s, lsn, staged, batch, root, views, log) && |log| == lsn && |views| == lsn + 1
    requires IsNext(views[lsn], batch, lsn + 1, after)
    ensures Serial(views + [after], log + [batch]) && ViewOk(after, lsn + 1)
  {
    CommittingFacts(p, s, lsn, staged, batch, root, views, log);
    assert after == Publish(views[lsn], StampStage(batch.stage, batch.began, lsn + 1));
    OneMoreSerial(batch, views, log, after);
  }

  /** What was published may stand over the state. */
  lemma FinishPublished(
    p: Pin, s: State, lsn: nat, staged: map<Key, EntityData>, batch: Batch, root: nat, views: seq<View>,
    log: seq<Batch>, published: map<Key, EntityData>, r: ReadState, after: View)
    requires Committing(p, s, lsn, staged, batch, root, views, log) && |log| == lsn && |views| == lsn + 1
    requires CatalogExtends(views[lsn].catalog, batch.stage.catalog) && ViewOk(after, lsn + 1)
    requires WasPublished(ShownBy(s, lsn), staged, batch, Elsewhere(p.state, s, staged), views, log, r, published)
    requires after == Visible(r)
    ensures Publishes(s, batch.stage.catalog, published)
  {
    assert CommittingBy(p, s, lsn, staged, batch, root, views, log);
    assert Published(ShownBy(s, lsn), staged, batch, Elsewhere(p.state, s, staged), views, log, r, published);
    AllPublished(p, s, lsn, staged, published, r, root, views, log, after);
  }

  /** What it shows is the next view. */
  lemma FinishView(
    rs: ReadState, lsn: nat, staged: map<Key, EntityData>, batch: Batch, elsewhere: set<Key>, views: seq<View>,
    log: seq<Batch>, published: map<Key, EntityData>, r: ReadState)
    requires |log| == lsn && |views| == lsn + 1
    requires WasPublished(rs, staged, batch, elsewhere, views, log, r, published)
    ensures IsNext(views[lsn], batch, lsn + 1, Visible(r))
    ensures Visible(r) == Publish(views[lsn], Stage(batch.stage.catalog, Meanings(published)))
  {
    assert Published(rs, staged, batch, elsewhere, views, log, r, published);
  }

  /** What CommitOne asks for. */
  ghost predicate Prepared(
    rs: ReadState, staged: map<Key, EntityData>, batch: Batch, root: nat, views: seq<View>, log: seq<Batch>)
  {
    && ReadStateOk(rs) && Ready(views, log, batch, root) && |views| == |log| + 1 && batch.began < |views|
    && root < |views| && Visible(rs) == views[|log|] && rs.lsn == |log|
    && staged.Keys == batch.keys && (forall key :: Held(staged, views, batch, key, root))
    && forall key :: InRoot(rs.persisted, views[root], key)
  }

  /** The same, folded until it is asked for. */
  ghost predicate IsPrepared(
    rs: ReadState, staged: map<Key, EntityData>, batch: Batch, root: nat, views: seq<View>, log: seq<Batch>)
  {
    forall same: ReadState :: same == rs ==> Prepared(same, staged, batch, root, views, log)
  }

  lemma Prepare(
    p: Pin, s: State, lsn: nat, staged: map<Key, EntityData>, batch: Batch, root: nat, views: seq<View>,
    log: seq<Batch>)
    requires StateOk(s) && Sits(s, lsn, root, views) && Serial(views, log) && lsn == |log|
    requires PinOk(p, s, root, views) && Follows(p, batch, views, log)
    requires AllRight(ShownBy(p.state, p.lsn), batch.stage.catalog, staged)
    requires batch.stage == Stage(batch.stage.catalog, Meanings(staged))
    requires RunsTo(Visible(ShownBy(p.state, p.lsn)), batch.ops, p.lsn + 1, batch.stage)
    ensures Prepared(ShownBy(s, lsn), staged, batch, root, views, log) && StagedOn(batch, views[batch.began])
  {
    assert ViewOk(views[lsn], lsn);
    ShownView(s, lsn);
    ShownOk(s, lsn, root, views);
    StagedIsReady(p, s, batch, root, views, log);
    forall key ensures Held(staged, views, batch, key, root) {
      StagedHeld(p, batch.stage.catalog, staged, batch, root, views, key);
    }
    forall key ensures InRoot(ShownBy(s, lsn).persisted, views[root], key) {
      PersistedInRoot(s, lsn, root, views, key);
    }
  }

  method CommitPrepared(
    rs: ReadState, staged: map<Key, EntityData>, batch: Batch, elsewhere: set<Key>, ghost root: nat,
    ghost views: seq<View>, ghost log: seq<Batch>)
    returns (ghost r: ReadState, published: map<Key, EntityData>)
    requires IsPrepared(rs, staged, batch, root, views, log)
    ensures |views| == |log| + 1 && CatalogExtends(views[|log|].catalog, batch.stage.catalog)
    ensures WasPublished(rs, staged, batch, elsewhere, views, log, r, published)
  {
    assert Prepared(rs, staged, batch, root, views, log);
    r, published := CommitOne(rs, staged, batch, elsewhere, views, log, root);
    BatchCatalog(views, log, batch, root);
  }

  /** What CommitOne promises. */
  ghost predicate Published(
    rs: ReadState, staged: map<Key, EntityData>, batch: Batch, elsewhere: set<Key>, views: seq<View>, log: seq<Batch>,
    r: ReadState, published: map<Key, EntityData>)
    requires |views| == |log| + 1
  {
    && ReadStateOk(r) && Visible(r) == Publish(views[|log|], StampStage(batch.stage, batch.began, |log| + 1))
    && r.catalog == batch.stage.catalog && r.overlay == rs.overlay + published && published.Keys == staged.Keys
    && Stage(r.catalog, Meanings(published)) == StampStage(batch.stage, batch.began, |log| + 1)
    && forall key :: key in published ==> published[key].disk == DiskAfter(staged, rs.persisted, elsewhere, key)
  }

  /** The same, folded until it is asked for. */
  ghost predicate WasPublished(
    rs: ReadState, staged: map<Key, EntityData>, batch: Batch, elsewhere: set<Key>, views: seq<View>, log: seq<Batch>,
    r: ReadState, published: map<Key, EntityData>)
    requires |views| == |log| + 1
  {
    forall same: ReadState :: same == r ==> Published(rs, staged, batch, elsewhere, views, log, same, published)
  }

  lemma AllPublished(
    p: Pin, s: State, lsn: nat, staged: map<Key, EntityData>, published: map<Key, EntityData>, r: ReadState,
    root: nat, views: seq<View>, log: seq<Batch>, after: View)
    requires Serial(views, log) && Sits(s, lsn, root, views) && PinOk(p, s, root, views)
    requires ReadStateOk(r) && r.overlay == ShownBy(s, lsn).overlay + published
    requires Visible(r) == after && ViewOk(after, lsn + 1) && published.Keys == staged.Keys
    requires AllRight(ShownBy(p.state, p.lsn), r.catalog, staged)
    requires forall key :: key in published ==>
               published[key].disk == DiskAfter(staged, ShownBy(s, lsn).persisted, Elsewhere(p.state, s, staged), key)
    ensures forall key :: PublishedRight(s, r.catalog, published, key)
  {
    forall key ensures PublishedRight(s, r.catalog, published, key) {
      DrawnFrom(p, r.catalog, staged, key);
      PublishedIsRight(p, s, lsn, staged, published, r, root, views, log, after, key);
    }
  }

  lemma DrawnFrom(p: Pin, catalog: Catalog, staged: map<Key, EntityData>, key: Key)
    requires AllRight(ShownBy(p.state, p.lsn), catalog, staged)
    ensures key in staged ==> staged[key].disk == DiskOf(ShownBy(p.state, p.lsn), key)
  {
    if key in staged {
      assert StagedRight(ShownBy(p.state, p.lsn), catalog, key, staged[key]);
    }
  }

  // ----- the database -----

  /** Everything a run keeps, folded until it is asked for. */
  ghost predicate Runs(
    state: State, build: Option<Building>, pins: map<nat, Pin>, views: seq<View>, log: seq<Batch>, root: nat,
    frozenAt: nat)
  {
    forall same: State :: same == state ==> RunsBy(same, build, pins, views, log, root, frozenAt)
  }

  ghost predicate RunsBy(
    state: State, build: Option<Building>, pins: map<nat, Pin>, views: seq<View>, log: seq<Batch>, root: nat,
    frozenAt: nat)
  {
    && Serial(views, log) && Inv(Database(state, build)) && Sits(state, |log|, root, views)
    && (build.Some? ==> root <= frozenAt <= |log| && ViewOf(build.value.frozen) == views[frozenAt])
    && forall id :: id in pins ==> PinOk(pins[id], state, root, views)
  }

  /** Nothing has been committed. */
  const NOTHING_YET := State(Manifest(0, [0], map[], {}, map[]), map[], map[], map[])

  lemma StartRuns()
    ensures Runs(NOTHING_YET, None, map[], [W.EMPTY_VIEW], [], 0, 0)
  {
    var s := NOTHING_YET;
    forall table ensures TableOk(s, table) {
      forall slot: nat ensures NoneCounted(s.manifest, table, slot) {
      }
    }
    assert KeysOf(s) == {};
    assert ViewOf(s) == W.EMPTY_VIEW;
    forall key ensures EntitySits(s, 0, [W.EMPTY_VIEW], key) {
    }
    assert RunsBy(s, None, map[], [W.EMPTY_VIEW], [], 0, 0);
  }

  /** The state's part of a run after a commit. */
  lemma CommitState(
    state: State, build: Option<Building>, views: seq<View>, log: seq<Batch>, root: nat, catalog: Catalog,
    published: map<Key, EntityData>, after: View)
    requires Inv(Database(state, build)) && Sits(state, |log|, root, views) && Publishes(state, catalog, published)
    requires |views| == |log| + 1 && after == Publish(views[|log|], Stage(catalog, Meanings(published)))
    ensures Committable(state, catalog, Recents(state, published))
    ensures Inv(Database(AfterCommit(state, catalog, Recents(state, published)),
                         BuildAfter(build, Recents(state, published))))
    ensures Sits(AfterCommit(state, catalog, Recents(state, published)), |log| + 1, root, views + [after])
  {
    assert PublishesBy(state, catalog, published);
    CommittedSits(state, |log|, root, views, catalog, published, after);
    var more := Recents(state, published);
    NextKeeps(Database(state, build), CheckpointRuns.Step.Commit(catalog, more),
              Database(AfterCommit(state, catalog, more), BuildAfter(build, more)));
  }

  /** The pins' part. */
  lemma CommitPins(
    state: State, pins: map<nat, Pin>, views: seq<View>, root: nat, catalog: Catalog,
    published: map<Key, EntityData>, after: View)
    requires StateOk(state) && Committable(state, catalog, Recents(state, published))
    requires forall id :: id in pins ==> PinOk(pins[id], state, root, views)
    ensures forall id :: id in pins ==>
              PinOk(pins[id], AfterCommit(state, catalog, Recents(state, published)), root, views + [after])
  {
    forall id | id in pins
      ensures PinOk(pins[id], AfterCommit(state, catalog, Recents(state, published)), root, views + [after])
    {
      CommittedPins(pins[id], state, catalog, published, root, views, after);
    }
  }

  lemma CommitRuns(
    state: State, build: Option<Building>, pins: map<nat, Pin>, views: seq<View>, log: seq<Batch>, root: nat,
    frozenAt: nat, catalog: Catalog, published: map<Key, EntityData>, batch: Batch, after: View)
    requires Runs(state, build, pins, views, log, root, frozenAt)
    requires Publishes(state, catalog, published)
    requires |views| == |log| + 1 && after == Publish(views[|log|], Stage(catalog, Meanings(published)))
    requires Serial(views + [after], log + [batch])
    ensures Runs(AfterCommit(state, catalog, Recents(state, published)), BuildAfter(build, Recents(state, published)),
                 pins, views + [after], log + [batch], root, frozenAt)
  {
    assert RunsBy(state, build, pins, views, log, root, frozenAt);
    CommitState(state, build, views, log, root, catalog, published, after);
    CommitPins(state, pins, views, root, catalog, published, after);
    StillFrozen(build, Recents(state, published), views, after);
    assert RunsBy(AfterCommit(state, catalog, Recents(state, published)), BuildAfter(build, Recents(state, published)),
                  pins, views + [after], log + [batch], root, frozenAt);
  }

  lemma StillFrozen(build: Option<Building>, published: Tail, views: seq<View>, after: View)
    ensures BuildAfter(build, published).Some? <==> build.Some?
    ensures build.Some? ==> BuildAfter(build, published).value.frozen == build.value.frozen
    ensures forall at :: 0 <= at < |views| ==> (views + [after])[at] == views[at]
  {
  }

  lemma InstallRuns(
    state: State, build: Building, pins: map<nat, Pin>, views: seq<View>, log: seq<Batch>, root: nat, frozenAt: nat,
    next: Manifest, grown: map<nat, Archive>)
    requires Runs(state, Some(build), pins, views, log, root, frozenAt) && AllBuilt(build.frozen, next, grown)
    requires next.generation > state.manifest.generation
    ensures Runs(Installed(build.frozen, state, next, grown, build.tail), None, pins, views, log, frozenAt, frozenAt)
    ensures ViewOf(Installed(build.frozen, state, next, grown, build.tail)) == ViewOf(state)
  {
    var t := Installed(build.frozen, state, next, grown, build.tail);
    assert RunsBy(state, Some(build), pins, views, log, root, frozenAt);
    InstallKeepsTheView(build.frozen, state, next, grown, build.tail);
    InstalledSits(build.frozen, state, next, grown, build.tail, |log|, root, frozenAt, views);
    forall id | id in pins ensures PinOk(pins[id], t, frozenAt, views) {
      InstalledPins(pins[id], build.frozen, state, next, grown, build.tail, root, frozenAt, views);
    }
    assert RunsBy(t, None, pins, views, log, frozenAt, frozenAt);
  }

  lemma RunsParts(
    state: State, build: Option<Building>, pins: map<nat, Pin>, id: nat, views: seq<View>, log: seq<Batch>, root: nat,
    frozenAt: nat)
    requires Runs(state, build, pins, views, log, root, frozenAt) && id in pins
    ensures StateOk(state) && Sits(state, |log|, root, views) && Serial(views, log)
    ensures PinOk(pins[id], state, root, views) && pins[id].lsn < |views|
  {
    assert RunsBy(state, build, pins, views, log, root, frozenAt);
  }

  lemma StagedTiers(p: Pin, staged: map<Key, EntityData>, batch: Batch)
    requires StagedAt(p, staged, batch)
    ensures AllRight(ShownBy(p.state, p.lsn), batch.stage.catalog, staged)
  {
    assert StagedBy(p, staged, batch);
    assert AllRight(ShownBy(p.state, p.lsn), batch.stage.catalog, staged);
  }

  lemma StagedParts(p: Pin, staged: map<Key, EntityData>, batch: Batch)
    requires StagedAt(p, staged, batch)
    ensures batch.stage == Stage(batch.stage.catalog, Meanings(staged)) && batch.began == p.lsn
    ensures batch.keys == batch.stage.staged.Keys && batch.catalog == ChangesCatalog(batch.ops)
    ensures RunsTo(Visible(ShownBy(p.state, p.lsn)), batch.ops, p.lsn + 1, batch.stage)
  {
    assert StagedBy(p, staged, batch);
  }

  lemma PartsCommit(
    p: Pin, s: State, staged: map<Key, EntityData>, batch: Batch, root: nat, views: seq<View>, log: seq<Batch>)
    requires StateOk(s) && Sits(s, |log|, root, views) && Serial(views, log) && |log| < U64_MAX
    requires PinOk(p, s, root, views) && p.lsn < |views| == |log| + 1
    requires StagedAt(p, staged, batch) && !Overtaken(log, batch, batch.began, |log|)
    ensures Committing(p, s, |log|, staged, batch, root, views, log)
  {
    StagedTiers(p, staged, batch);
    StagedParts(p, staged, batch);
    assert Follows(p, batch, views, log);
    assert CommittingBy(p, s, |log|, staged, batch, root, views, log);
  }

  lemma StagedCommits(
    state: State, build: Option<Building>, pins: map<nat, Pin>, id: nat, staged: map<Key, EntityData>, batch: Batch,
    views: seq<View>, log: seq<Batch>, root: nat, frozenAt: nat)
    requires Runs(state, build, pins, views, log, root, frozenAt) && |log| < U64_MAX && |views| == |log| + 1
    requires id in pins && StagedAt(pins[id], staged, batch) && !Overtaken(log, batch, batch.began, |log|)
    ensures Committing(pins[id], state, |log|, staged, batch, root, views, log)
  {
    RunsParts(state, build, pins, id, views, log, root, frozenAt);
    PartsCommit(pins[id], state, staged, batch, root, views, log);
  }

  /** The state, the build and the view after a commit; everything a run keeps still holds. */
  method CommitRun(
    state: State, build: Option<Building>, pins: map<nat, Pin>, sequence: nat, id: nat, staged: map<Key, EntityData>,
    batch: Batch, ghost views: seq<View>, ghost log: seq<Batch>, ghost root: nat, ghost frozenAt: nat)
    returns (t: State, b: Option<Building>, ghost after: View)
    requires Runs(state, build, pins, views, log, root, frozenAt) && sequence == |log| < U64_MAX
    requires |views| == |log| + 1 && id in pins && StagedAt(pins[id], staged, batch)
    requires !Overtaken(log, batch, batch.began, |log|)
    ensures Runs(t, b, pins, views + [after], log + [batch], root, frozenAt) && Serves(t, after)
    ensures IsNext(views[sequence], batch, sequence + 1, after)
  {
    var catalog, published;
    StagedCommits(state, build, pins, id, staged, batch, views, log, root, frozenAt);
    catalog, published, after := CommitOn(pins[id], state, sequence, staged, batch, root, views, log);
    CommitRuns(state, build, pins, views, log, root, frozenAt, catalog, published, batch, after);
    t, b := AfterCommit(state, catalog, Recents(state, published)), BuildAfter(build, Recents(state, published));
    RunsView(t, b, pins, views + [after], log + [batch], root, frozenAt);
  }

  /** The batch is what was staged on the pinned state. */
  ghost predicate StagedAt(p: Pin, staged: map<Key, EntityData>, batch: Batch) {
    forall same: Batch :: same == batch ==> StagedBy(p, staged, same)
  }

  ghost predicate StagedBy(p: Pin, staged: map<Key, EntityData>, batch: Batch) {
    && batch == BatchOf(p.lsn, batch.stage.catalog, staged, batch.ops, batch.deadline)
    && Tiers(ShownBy(p.state, p.lsn), batch.stage.catalog, staged)
    && RunsTo(Visible(ShownBy(p.state, p.lsn)), batch.ops, p.lsn + 1, batch.stage)
  }

  lemma StagingIsStaged(p: Pin, st: Staging, deadline: Option<nat>)
    requires st.Consistent() && !st.failed && st.base == ShownBy(p.state, p.lsn)
    ensures StagedAt(p, st.staged, BatchOf(p.lsn, st.catalog, st.staged, st.operations, deadline))
  {
    assert StagedBy(p, st.staged, BatchOf(p.lsn, st.catalog, st.staged, st.operations, deadline));
  }

  lemma RunsView(
    state: State, build: Option<Building>, pins: map<nat, Pin>, views: seq<View>, log: seq<Batch>, root: nat,
    frozenAt: nat)
    requires Runs(state, build, pins, views, log, root, frozenAt) && |views| == |log| + 1
    ensures ViewOf(state) == views[|log|]
  {
    assert RunsBy(state, build, pins, views, log, root, frozenAt);
  }

  /** Commits during a build also go into the tail. */
  function BuildAfter(build: Option<Building>, published: Tail): Option<Building> {
    if build.None? then None else Some(Building(build.value.frozen, build.value.tail + published))
  }

  /** Readers of the state see this view; folded until it is asked for. */
  ghost predicate Serves(s: State, view: View) {
    forall same: State :: same == s ==> ViewOf(same) == view
  }

  // ----- the memory of what was written -----

  function Begins(pins: map<nat, Pin>): multiset<nat> {
    multiset(set id | id in pins :: pins[id].lsn)
  }

  ghost predicate RemembersAll(log: seq<Batch>, revisions: map<Key, nat>, catalogRevision: nat, pins: map<nat, Pin>) {
    forall same: map<nat, Pin> :: same == pins ==> RemembersBy(log, revisions, catalogRevision, same)
  }

  ghost predicate RemembersBy(log: seq<Batch>, revisions: map<Key, nat>, catalogRevision: nat, pins: map<nat, Pin>) {
    Remembers(log, revisions, catalogRevision, Begins(pins)) && Accurate(log, revisions, catalogRevision)
  }

  lemma RecordedRemembersAll(
    log: seq<Batch>, revisions: map<Key, nat>, catalogRevision: nat, pins: map<nat, Pin>, batch: Batch)
    requires RemembersAll(log, revisions, catalogRevision, pins)
    ensures RemembersAll(log + [batch], Recording(revisions, batch.keys, |log| + 1),
                         Revised(catalogRevision, batch, |log| + 1), pins)
  {
    assert RemembersBy(log, revisions, catalogRevision, pins);
    RecordedStillRemembers(log, revisions, catalogRevision, Begins(pins), batch);
  }

  /** The revisions of what a commit writes are its sequence. */
  method Remember(
    revisions: map<Key, nat>, catalogRevision: nat, pins: map<nat, Pin>, sequence: nat, batch: Batch,
    ghost log: seq<Batch>)
    returns (r: map<Key, nat>, c: nat)
    requires RemembersAll(log, revisions, catalogRevision, pins) && sequence == |log|
    ensures RemembersAll(log + [batch], r, c, pins)
  {
    r, c := Recording(revisions, batch.keys, sequence + 1), Revised(catalogRevision, batch, sequence + 1);
    RecordedRemembersAll(log, revisions, catalogRevision, pins, batch);
  }

  /** Whoever begins now, or began before, is remembered for. */
  lemma StillRemembersAll(
    log: seq<Batch>, revisions: map<Key, nat>, catalogRevision: nat, pins: map<nat, Pin>, more: map<nat, Pin>)
    requires RemembersAll(log, revisions, catalogRevision, pins)
    requires forall id :: id in more ==> (id in pins && pins[id] == more[id]) || more[id].lsn >= |log|
    ensures RemembersAll(log, revisions, catalogRevision, more)
  {
    assert RemembersBy(log, revisions, catalogRevision, pins);
    forall i, key | 0 <= i < |log| && key in log[i].keys
      ensures (key in revisions && revisions[key] > i) || (forall pin :: pin in Begins(more) ==> pin > i)
    {
      if !(key in revisions && revisions[key] > i) {
        forall pin | pin in Begins(more) ensures pin > i {
          var id :| id in more && more[id].lsn == pin;
          assert id in pins && pins[id] == more[id] ==> pins[id].lsn in Begins(pins);
        }
      }
    }
  }

  /** The test of a pinned transaction is exact. */
  lemma PinnedIsTested(
    log: seq<Batch>, revisions: map<Key, nat>, catalogRevision: nat, pins: map<nat, Pin>, id: nat, batch: Batch)
    requires RemembersAll(log, revisions, catalogRevision, pins) && id in pins && batch.began == pins[id].lsn
    ensures Stale(batch, revisions, catalogRevision) <==> Overtaken(log, batch, batch.began, |log|)
  {
    assert RemembersBy(log, revisions, catalogRevision, pins) && pins[id].lsn in Begins(pins);
    StaleExactlyWhenOvertaken(log, batch, revisions, catalogRevision, Begins(pins));
  }

  lemma PinRuns(
    state: State, build: Option<Building>, pins: map<nat, Pin>, views: seq<View>, log: seq<Batch>, root: nat,
    frozenAt: nat, id: nat)
    requires Runs(state, build, pins, views, log, root, frozenAt)
    ensures Runs(state, build, pins[id := Pin(state, |log|, root)], views, log, root, frozenAt)
  {
    assert RunsBy(state, build, pins, views, log, root, frozenAt);
    var more := pins[id := Pin(state, |log|, root)];
    forall other | other in more ensures PinOk(more[other], state, root, views) {
      assert other != id ==> PinOk(pins[other], state, root, views);
    }
    assert RunsBy(state, build, more, views, log, root, frozenAt);
  }

  lemma UnpinRuns(
    state: State, build: Option<Building>, pins: map<nat, Pin>, views: seq<View>, log: seq<Batch>, root: nat,
    frozenAt: nat, id: nat)
    requires Runs(state, build, pins, views, log, root, frozenAt)
    ensures Runs(state, build, pins - {id}, views, log, root, frozenAt)
  {
    assert RunsBy(state, build, pins, views, log, root, frozenAt);
    assert RunsBy(state, build, pins - {id}, views, log, root, frozenAt);
  }

  lemma FreezeRuns(
    state: State, pins: map<nat, Pin>, views: seq<View>, log: seq<Batch>, root: nat, frozenAt: nat)
    requires Runs(state, None, pins, views, log, root, frozenAt)
    ensures Runs(state, Some(Building(state, map[])), pins, views, log, root, |log|)
  {
    assert RunsBy(state, None, pins, views, log, root, frozenAt);
    BeginContinues(state);
    assert RunsBy(state, Some(Building(state, map[])), pins, views, log, root, |log|);
  }

  lemma ThawRuns(
    state: State, build: Building, pins: map<nat, Pin>, views: seq<View>, log: seq<Batch>, root: nat, frozenAt: nat)
    requires Runs(state, Some(build), pins, views, log, root, frozenAt)
    ensures Runs(state, None, pins, views, log, root, frozenAt)
  {
    assert RunsBy(state, Some(build), pins, views, log, root, frozenAt);
    assert RunsBy(state, None, pins, views, log, root, frozenAt);
  }
}

/**
 The database over whole runs: transactions staged on pinned states, commits, and checkpoints that are
 built while commits go on (database.rs, Transaction, commit_group, prepare_checkpoint,
 install_checkpoint).

 Conflicts are decided by the coordinator; every method keeps `Valid`, so a run is any sequence of calls.
 */
module Engines {
  import opened Results
  import opened Model
  import opened Histories
  import opened Transactions
  import opened Conflicts
  import opened StagedData
  import opened Stagings
  import opened Publication
  import opened Archives
  import opened TableBuilds
  import opened Manifests
  import opened Installs
  import opened CheckpointRuns
  import opened EngineStates
  import opened EngineSteps
  import C = Checkpoints
  import W = Wal
  import opened EngineRuns

  class Engine {
    var state: State
    var build: Option<Building>
    var sequence: nat
    var pins: map<nat, Pin>
    var revisions: map<Key, nat>
    var catalogRevision: nat
    /** The sequences the newest checkpoint and the one being built were taken at. */
    var root: nat
    var frozenAt: nat
    ghost var views: seq<View>
    ghost var log: seq<Batch>

    ghost predicate Valid()
      reads this
    {
      && sequence == |log| && |views| == |log| + 1 && Runs(state, build, pins, views, log, root, frozenAt)
      && RemembersAll(log, revisions, catalogRevision, pins)
    }

    constructor ()
      ensures Valid() && log == [] && views == [W.EMPTY_VIEW] && pins == map[] && build.None?
    {
      state, build, sequence, pins := NOTHING_YET, None, 0, map[];
      root, frozenAt, views, log := 0, 0, [W.EMPTY_VIEW], [];
      revisions, catalogRevision := map[], 0;
      new;
      StartRuns();
    }

    /** In every reachable state the views are the serial execution of the log, and readers see the last one. */
    lemma EveryRunIsSerial()
      requires Valid()
      ensures Serial(views, log) && Visible(ShownBy(state, sequence)) == views[sequence]
      ensures forall id :: id in pins ==>
                pins[id].lsn <= sequence && Visible(ShownBy(pins[id].state, pins[id].lsn)) == views[pins[id].lsn]
    {
      assert RunsBy(state, build, pins, views, log, root, frozenAt);
      ShownView(state, sequence);
      forall id | id in pins
        ensures pins[id].lsn <= sequence && Visible(ShownBy(pins[id].state, pins[id].lsn)) == views[pins[id].lsn]
      {
        ShownView(pins[id].state, pins[id].lsn);
      }
    }

    /** A transaction begins on the newest state. */
    method Begin(id: nat, interval: nat, retain: Option<nat>, admission: Option<Admission>) returns (st: Staging)
      requires Valid() && id !in pins
      requires admission.Some? ==> 8 <= admission.value.maxBytes <= MAX_FRAME
      modifies this`pins
      ensures Valid() && pins == old(pins)[id := Pin(state, sequence, root)]
      ensures fresh(st) && st.Consistent() && !st.failed && st.operations == [] && st.base == ShownBy(state, sequence)
    {
      assert RunsBy(state, build, pins, views, log, root, frozenAt);
      assert ViewOk(views[sequence], sequence);
      ShownOk(state, sequence, root, views);
      st := new Staging(ShownBy(state, sequence), interval, retain, admission);
      PinRuns(state, build, pins, views, log, root, frozenAt, id);
      StillRemembersAll(log, revisions, catalogRevision, pins, pins[id := Pin(state, sequence, root)]);
      pins := pins[id := Pin(state, sequence, root)];
    }

    /** A transaction ends, committed or not. */
    method End(id: nat)
      requires Valid()
      modifies this`pins
      ensures Valid() && pins == old(pins) - {id}
    {
      UnpinRuns(state, build, pins, views, log, root, frozenAt, id);
      StillRemembersAll(log, revisions, catalogRevision, pins, pins - {id});
      pins := pins - {id};
    }

    /**
     Commits what was staged on a pinned state.  It is refused exactly when somebody committed over it
     since; otherwise the next view is the serial execution of its operations, whatever checkpoints were
     installed since it began.  A transaction without operations changes nothing.
     */
    method Commit(id: nat, st: Staging, deadline: Option<nat>) returns (r: Conflicts.Outcome)
      requires Valid() && sequence < U64_MAX && id in pins && st.base == ShownBy(pins[id].state, pins[id].lsn)
      requires st.Consistent() && !st.failed
      modifies this`state, this`build, this`sequence, this`views, this`log, this`revisions, this`catalogRevision
      ensures Valid()
      ensures st.operations == [] ==> r == Committed(pins[id].lsn)
      ensures st.operations != [] ==>
                r == if Overtaken(old(log), old(BatchBy(id, st, deadline)), pins[id].lsn, old(sequence)) then Conflict
                     else Committed(old(sequence) + 1)
      ensures st.operations == [] || r == Conflict ==> unchanged(this)
      ensures st.operations != [] && r != Conflict ==>
                && log == old(log) + [old(BatchBy(id, st, deadline))] && views == old(views) + [ViewOf(state)]
                && IsNext(old(views)[old(sequence)], old(BatchBy(id, st, deadline)), sequence, ViewOf(state))
    {
      if st.operations == [] {
        return Committed(pins[id].lsn);
      }
      var batch := BatchBy(id, st, deadline);
      PinnedIsTested(log, revisions, catalogRevision, pins, id, batch);
      if Stale(batch, revisions, catalogRevision) {
        return Conflict;
      }
      StagingIsStaged(pins[id], st, deadline);
      ghost var after := Append(id, st.staged, batch);
      assert ViewOf(state) == after;
      r := Committed(sequence);
    }

    /** Publishes a transaction that nobody overtook. */
    method Append(id: nat, staged: map<Key, EntityData>, batch: Batch) returns (ghost after: View)
      requires Valid() && sequence < U64_MAX && id in pins && StagedAt(pins[id], staged, batch)
      requires !Overtaken(log, batch, batch.began, |log|)
      modifies this`state, this`build, this`sequence, this`views, this`log, this`revisions, this`catalogRevision
      ensures Valid() && sequence == old(sequence) + 1
      ensures log == old(log) + [batch] && views == old(views) + [after] && Serves(state, after)
      ensures IsNext(old(views)[old(sequence)], batch, sequence, after)
    {
      var t, b, r, c;
      r, c := Remember(revisions, catalogRevision, pins, sequence, batch, log);
      t, b, after := CommitRun(state, build, pins, sequence, id, staged, batch, views, log, root, frozenAt);
      state, build, sequence, revisions, catalogRevision := t, b, sequence + 1, r, c;
      views, log := views + [after], log + [batch];
    }

    /** The transaction as it is committed. */
    function BatchBy(id: nat, st: Staging, deadline: Option<nat>): Batch
      requires id in pins
      reads this, st
    {
      BatchOf(pins[id].lsn, st.catalog, st.staged, st.operations, deadline)
    }

    /** prepare_checkpoint: the state is frozen; commits go on above it. */
    method StartCheckpoint()
      requires Valid() && build.None?
      modifies this`build, this`frozenAt
      ensures Valid() && build == Some(Building(state, map[])) && frozenAt == sequence
    {
      FreezeRuns(state, pins, views, log, root, frozenAt);
      build, frozenAt := Some(Building(state, map[])), sequence;
    }

    /** abandon_checkpoint: nothing was published, nothing is lost. */
    method AbandonCheckpoint()
      requires Valid() && build.Some?
      modifies this`build
      ensures Valid() && build.None?
    {
      ThawRuns(state, build.value, pins, views, log, root, frozenAt);
      build := None;
    }

    /**
     Builds the frozen state and installs the result over what was committed meanwhile.  Readers see no
     difference; when the generations do not fit the manifest, the checkpoint is abandoned.
     */
    method FinishCheckpoint(plan: map<nat, nat>, generation: nat, style: Style) returns (ok: bool)
      requires Valid() && build.Some? && StyleOk(style)
      requires NewGeneration(build.value.frozen, generation) && generation > state.manifest.generation
      modifies this`state, this`build, this`root
      ensures Valid() && build.None? && ViewOf(state) == old(ViewOf(state))
      ensures ok ==> state.manifest.generation == generation && root == frozenAt
      ensures !ok ==> state == old(state) && root == old(root)
    {
      assert RunsBy(state, build, pins, views, log, root, frozenAt);
      var next, grown;
      ok, next, grown := Build(build.value.frozen, plan, generation, style);
      if !ok {
        AbandonCheckpoint();
        return;
      }
      InstallRuns(state, build.value, pins, views, log, root, frozenAt, next, grown);
      state := Installed(build.value.frozen, state, next, grown, build.value.tail);
      build, root := None, frozenAt;
    }
  }
}
