/**
 How histories grow: each later state of an entity keeps the events and reaches the base of the one
 before it.  This is what lets a commit move a staged entity onto a newer checkpoint.
 */
module Growth {
  import opened Results
  import opened Model
  import opened Histories
  import opened Transactions
  import opened Conflicts

  /** `later` is `earlier` with events added at the end and, perhaps, dropped at the front. */
  ghost predicate Grows(earlier: History, later: History, table: Table) {
    && earlier.base.version <= later.base.version && earlier.current.version <= later.current.version
    && (forall v: nat :: SameEvent(earlier, later, v))
    && (later.base.version <= earlier.current.version ==>
          StateAt(earlier.base, earlier.events, table, later.base.version) == Ok(later.base))
  }

  ghost predicate SameEvent(earlier: History, later: History, v: nat) {
    later.base.version < v <= earlier.current.version ==>
      v in earlier.events && v in later.events && earlier.events[v] == later.events[v]
  }

  lemma Itself(h: History, table: Table)
    requires ValidHistory(h, table)
    ensures Grows(h, h, table)
  {
    EarlierStates(h.base, h.events, table, h.base.version, h.current.version);
  }

  lemma Transitive(a: History, b: History, c: History, table: Table)
    requires Grows(a, b, table) && Grows(b, c, table)
    requires ValidHistory(a, table)
    ensures Grows(a, c, table)
  {
    forall v: nat ensures SameEvent(a, c, v) {
      assert SameEvent(a, b, v) && SameEvent(b, c, v);
    }
    if c.base.version <= a.current.version {
      BaseThrough(a, b, c, table);
    }
  }

  lemma BaseThrough(a: History, b: History, c: History, table: Table)
    requires Grows(a, b, table) && Grows(b, c, table) && ValidHistory(a, table) && c.base.version <= a.current.version
    ensures StateAt(a.base, a.events, table, c.base.version) == Ok(c.base)
  {
    EarlierStates(a.base, a.events, table, b.base.version, a.current.version);
    StateAtFrom(a.base, a.events, table, b.base.version, c.base.version);
    forall v | b.base.version < v <= c.base.version && v in b.events
        ensures v in a.events && a.events[v] == b.events[v] {
      assert SameEvent(a, b, v);
    }
    StateAtAgrees(b.base, b.events, a.events, table, c.base.version);
  }

  lemma UnderExtension(a: History, b: History, prior: Table, later: Table)
    requires Grows(a, b, prior) && Extends(prior, later)
    ensures Grows(a, b, later)
  {
    if b.base.version <= a.current.version {
      StateAtUnderExtension(a.base, a.events, prior, later, b.base.version);
    }
  }

  // ----- one operation -----

  lemma AppendGrows(table: Table, h: History, kind: EventKind, fields: Fields, lsn: nat)
    requires table.schemas != [] && ValidHistory(h, table) && AppendEvent(table, h, kind, fields, lsn).Ok?
    ensures Grows(h, AppendEvent(table, h, kind, fields, lsn).value, table)
  {
    EarlierStates(h.base, h.events, table, h.base.version, h.current.version);
  }

  lemma RetainGrows(h: History, table: Table, count: nat)
    requires ValidHistory(h, table)
    ensures Grows(h, RetainHistory(h, table, count), table)
  {
    EarlierStates(h.base, h.events, table, h.base.version, h.current.version);
    var version := RetainedFrom(h.current, count);
    if version > h.base.version {
      EarlierStates(h.base, h.events, table, version, h.current.version);
      StateAtVersion(h.base, h.events, table, version);
    }
  }

  lemma ChangeGrows(table: Table, op: Operation, h: History, lsn: nat)
    requires table.schemas != [] && !op.DefineTable? && ValidHistory(h, table) && Change(table, op, Some(h), lsn).Ok?
    ensures Grows(h, Change(table, op, Some(h), lsn).value, table)
  {
    match op
    case ApplyFields(_, fields) => AppendGrows(table, h, EventKind.Apply, fields, lsn);
    case DeleteEntity(_) => AppendGrows(table, h, EventKind.Delete, map[], lsn);
    case RetainEvents(_, count) => RetainGrows(h, table, count);
    case TakeSnapshot(_) => Itself(h, table);
  }

  // ----- one transaction -----

  ghost predicate StagedGrows(base: View, stage: Stage, key: Key) {
    key in stage.staged && key in base.entities ==>
      key.0 in stage.catalog && Grows(base.entities[key], stage.staged[key], stage.catalog[key.0])
  }

  lemma ExecGrows(base: View, stage: Stage, op: Operation, lsn: nat, key: Key)
    requires ViewOk(base, lsn) && StageOk(base, stage, lsn) && StagedGrows(base, stage, key)
    requires Exec(base, stage, op, lsn).Ok?
    ensures StagedGrows(base, Exec(base, stage, op, lsn).value, key)
  {
    if op.DefineTable? {
      if key in stage.staged && key in base.entities {
        DefinedGrows(base, stage, op, lsn, key);
      }
    } else if op.key != key {
      OtherGrows(base, stage, op, lsn, key);
    } else if key in base.entities {
      ChangedGrows(base, stage, op, lsn, key);
    }
  }

  lemma OtherGrows(base: View, stage: Stage, op: Operation, lsn: nat, key: Key)
    requires StagedGrows(base, stage, key) && !op.DefineTable? && op.key != key && Exec(base, stage, op, lsn).Ok?
    ensures StagedGrows(base, Exec(base, stage, op, lsn).value, key)
  {
  }

  lemma DefinedGrows(base: View, stage: Stage, op: Operation, lsn: nat, key: Key)
    requires StageOk(base, stage, lsn) && StagedGrows(base, stage, key)
    requires op.DefineTable? && key in stage.staged && key in base.entities && Exec(base, stage, op, lsn).Ok?
    ensures StagedGrows(base, Exec(base, stage, op, lsn).value, key)
  {
    AcceptedChangeExtends(stage.catalog, op.table);
    UnderExtension(base.entities[key], stage.staged[key], stage.catalog[key.0],
                   stage.catalog[op.table.id := op.table][key.0]);
  }

  lemma ChangedGrows(base: View, stage: Stage, op: Operation, lsn: nat, key: Key)
    requires ViewOk(base, lsn) && StageOk(base, stage, lsn) && StagedGrows(base, stage, key)
    requires !op.DefineTable? && op.key == key && key in base.entities && Exec(base, stage, op, lsn).Ok?
    ensures Grows(base.entities[key], Exec(base, stage, op, lsn).value.staged[key], stage.catalog[key.0])
  {
    var h := base.entities[key];
    HistoryUnderExtension(h, key, base.catalog, stage.catalog, lsn);
    var found := Loaded(base, stage, key).value;
    var table := stage.catalog[key.0];
    ChangeGrows(table, op, found, lsn);
    if key in stage.staged {
      Transitive(h, found, Change(table, op, Some(found), lsn).value, table);
    }
  }

  lemma {:induction false} RunGrows(base: View, ops: seq<Operation>, lsn: nat, key: Key)
    requires ViewOk(base, lsn) && Run(base, ops, lsn).Ok?
    ensures StagedGrows(base, Run(base, ops, lsn).value, key)
  {
    if ops != [] {
      var n := |ops| - 1;
      RunGrows(base, ops[..n], lsn, key);
      ExecAllOk(base, Fresh(base), ops[..n], lsn);
      ExecGrows(base, Run(base, ops[..n], lsn).value, ops[n], lsn, key);
    }
  }

  // ----- a run of transactions -----

  /** The entity of an earlier view, as a later view has it. */
  ghost predicate ViewGrows(earlier: View, later: View, key: Key) {
    key in earlier.entities ==>
      && key in later.entities && key.0 in later.catalog
      && Grows(earlier.entities[key], later.entities[key], later.catalog[key.0])
  }

  lemma StepGrows(before: View, batch: Batch, lsn: nat, after: View, key: Key)
    requires ViewOk(before, lsn) && SerialStep(before, batch, lsn, after)
    ensures ViewGrows(before, after, key) && CatalogExtends(before.catalog, after.catalog)
  {
    var stage :| RunsTo(before, batch.ops, lsn, stage) && Writes(before, batch, stage, after);
    assert Run(before, batch.ops, lsn) == Ok(stage);
    PublishOk(before, batch.ops, lsn);
    RunGrows(before, batch.ops, lsn, key);
    if key in before.entities && key !in stage.staged {
      var h := before.entities[key];
      Itself(h, before.catalog[key.0]);
      UnderExtension(h, h, before.catalog[key.0], after.catalog[key.0]);
    }
  }

  lemma {:induction false} RunOfViewsGrows(views: seq<View>, log: seq<Batch>, first: nat, last: nat, key: Key)
    requires Serial(views, log) && first <= last <= |log|
    ensures ViewGrows(views[first], views[last], key) && CatalogExtends(views[first].catalog, views[last].catalog)
  {
    assert ViewOk(views[first], first);
    if first == last {
      if key in views[first].entities {
        Itself(views[first].entities[key], views[first].catalog[key.0]);
      }
    } else {
      RunOfViewsGrows(views, log, first, last - 1, key);
      LastGrows(views, log, first, last, key);
    }
  }

  lemma LastGrows(views: seq<View>, log: seq<Batch>, first: nat, last: nat, key: Key)
    requires Serial(views, log) && first < last <= |log|
    requires ViewGrows(views[first], views[last - 1], key)
             && CatalogExtends(views[first].catalog, views[last - 1].catalog)
    ensures ViewGrows(views[first], views[last], key) && CatalogExtends(views[first].catalog, views[last].catalog)
  {
    var before, after := views[last - 1], views[last];
    assert ViewOk(before, last - 1) && ViewOk(views[first], first);
    LaterView(before, last - 1, last);
    assert SerialStep(views[last - 1], log[last - 1], last - 1 + 1, views[last - 1 + 1]);
    StepGrows(before, log[last - 1], last, after, key);
    CatalogExtendsTransitive(views[first].catalog, before.catalog, after.catalog);
    if key in views[first].entities {
      GrowsOn(views[first], first, before, after, key);
    }
  }

  lemma GrowsOn(earliest: View, lsn: nat, before: View, after: View, key: Key)
    requires ViewOk(earliest, lsn) && key in earliest.entities
    requires ViewGrows(earliest, before, key) && ViewGrows(before, after, key)
    requires CatalogExtends(before.catalog, after.catalog) && CatalogExtends(earliest.catalog, after.catalog)
    ensures ViewGrows(earliest, after, key)
  {
    var table := after.catalog[key.0];
    UnderExtension(earliest.entities[key], before.entities[key], before.catalog[key.0], table);
    HistoryUnderExtension(earliest.entities[key], key, earliest.catalog, after.catalog, lsn);
    Transitive(earliest.entities[key], before.entities[key], after.entities[key], table);
  }
}

/**
 Publishing a prepared transaction (Prepared::commit_group and publish_state in database.rs): its
 entities move onto the newest checkpoint, take their sequence, and enter the overlay.
 */
module Publication {
  import opened Results
  import opened Model
  import opened Histories
  import opened Transactions
  import opened Conflicts
  import opened StagedData
  import opened Growth

  // ----- onto the newest checkpoint -----

  /** The checkpoint's record of an entity: its history at the sequence the checkpoint was taken. */
  ghost predicate FromRoot(p: Persisted, view: View, key: Key) {
    && key in view.entities && PersistedMeaning(p) == view.entities[key]
    && key.0 in view.catalog && PersistedOk(p) && Extends(p.table, view.catalog[key.0])
  }

  /** A record of an earlier state of the entity holds an earlier part of its history. */
  lemma EarlierFromGrowth(p: Persisted, d: EntityData, table: Table)
    requires Valid(d, table) && PersistedOk(p) && Extends(p.table, table)
    requires Grows(PersistedMeaning(p), Meaning(d), table) && p.current.version <= Settled(d)
    ensures EarlierRecord(p, d, table)
  {
    if d.base.version <= p.current.version {
      RecordReachesBase(p, d, table);
    }
    forall v | d.base.version < v <= p.current.version ensures v in p.events && EventOf(d, v) == Some(p.events[v]) {
      assert SameEvent(PersistedMeaning(p), Meaning(d), v);
    }
  }

  lemma RecordReachesBase(p: Persisted, d: EntityData, table: Table)
    requires PersistedOk(p) && Extends(p.table, table)
    requires Grows(PersistedMeaning(p), Meaning(d), table) && d.base.version <= p.current.version
    ensures StateAt(p.base, p.events, p.table, d.base.version) == Ok(d.base)
  {
    EarlierStates(p.base, p.events, p.table, d.base.version, p.current.version);
    StateAtUnderExtension(p.base, p.events, p.table, table, d.base.version);
    StateAtAgrees(p.base, PersistedMeaning(p).events, p.events, table, d.base.version);
  }

  /** What the transaction staged for a key, and where its layout comes from. */
  ghost predicate StagedEntity(d: EntityData, views: seq<View>, batch: Batch, key: Key, root: nat) {
    && batch.began < |views| && root < |views|
    && key in batch.stage.staged && Meaning(d) == batch.stage.staged[key]
    && key.0 in batch.stage.catalog && Valid(d, batch.stage.catalog[key.0])
    && BuildsOn(d, Reached(views[batch.began], key))
    && (d.disk.Some? ==> exists r: nat :: r <= root && FromRoot(d.disk.value, views[r], key))
  }

  /** A transaction ready to be published after `log`, and a checkpoint taken at sequence `root`. */
  ghost predicate Publishable(views: seq<View>, log: seq<Batch>, batch: Batch, root: nat) {
    && Serial(views, log) && batch.began <= |log| && root <= |log|
    && StagedOn(batch, views[batch.began]) && !Overtaken(log, batch, batch.began, |log|)
  }

  /** The quantifier keeps the definition folded until it is asked for. */
  ghost predicate Ready(views: seq<View>, log: seq<Batch>, batch: Batch, root: nat) {
    forall same: Batch :: same == batch ==> Publishable(views, log, same, root)
  }

  /** What the transaction staged continues what it began with. */
  lemma BatchGrows(views: seq<View>, log: seq<Batch>, batch: Batch, root: nat, key: Key)
    requires Publishable(views, log, batch, root) && key in batch.keys
    ensures key in batch.stage.staged && StagedGrows(views[batch.began], batch.stage, key)
    ensures CatalogExtends(views[batch.began].catalog, batch.stage.catalog)
    ensures ViewOk(views[batch.began], batch.began) && ViewOk(views[root], root)
  {
    assert ViewOk(views[batch.began], batch.began) && ViewOk(views[root], root);
    StagedOnGrows(views[batch.began], batch, key);
  }

  lemma StagedOnGrows(view: View, batch: Batch, key: Key)
    requires ViewOk(view, batch.began) && StagedOn(batch, view) && key in batch.keys
    ensures key in batch.stage.staged && StagedGrows(view, batch.stage, key)
            && CatalogExtends(view.catalog, batch.stage.catalog)
  {
    assert Run(view, batch.ops, batch.began + 1) == Ok(batch.stage);
    LaterView(view, batch.began, batch.began + 1);
    PublishOk(view, batch.ops, batch.began + 1);
    RunGrows(view, batch.ops, batch.began + 1, key);
  }

  /**
   The fact behind the rebind: a transaction nobody overtook staged a continuation of whatever the
   checkpoint recorded, whether the checkpoint was taken before or after the transaction began.
   */
  lemma StagedContinues(views: seq<View>, log: seq<Batch>, batch: Batch, key: Key, root: nat)
    requires Ready(views, log, batch, root) && batch.began < |views| && root < |views|
    requires key in batch.keys && key in views[root].entities
    ensures key in views[batch.began].entities && key in batch.stage.staged && key.0 in batch.stage.catalog
    ensures Grows(views[root].entities[key], batch.stage.staged[key], batch.stage.catalog[key.0])
    ensures views[root].entities[key].current.version <= views[batch.began].entities[key].current.version
    ensures key.0 in views[root].catalog && Extends(views[root].catalog[key.0], batch.stage.catalog[key.0])
  {
    assert Publishable(views, log, batch, root);
    BatchGrows(views, log, batch, root, key);
    if root < batch.began {
      RunOfViewsGrows(views, log, root, batch.began, key);
    } else {
      NobodyWrote(views, log, batch, key, root);
      SameView(views[root], root, views[batch.began], key);
    }
    ThroughBegin(views[root], root, views[batch.began], batch, key);
  }

  lemma SameView(earlier: View, lsn: nat, begun: View, key: Key)
    requires ViewOk(earlier, lsn) && key in earlier.entities && key in begun.entities
    requires earlier.entities[key] == begun.entities[key] && earlier.catalog == begun.catalog
    ensures ViewGrows(earlier, begun, key) && CatalogExtends(earlier.catalog, begun.catalog)
  {
    Itself(earlier.entities[key], earlier.catalog[key.0]);
  }

  lemma ThroughBegin(earlier: View, lsn: nat, begun: View, batch: Batch, key: Key)
    requires ViewOk(earlier, lsn) && key in earlier.entities && ViewGrows(earlier, begun, key)
    requires StagedGrows(begun, batch.stage, key) && key in batch.stage.staged
    requires CatalogExtends(earlier.catalog, begun.catalog) && CatalogExtends(begun.catalog, batch.stage.catalog)
    ensures Grows(earlier.entities[key], batch.stage.staged[key], batch.stage.catalog[key.0])
    ensures Extends(earlier.catalog[key.0], batch.stage.catalog[key.0])
  {
    CatalogExtendsTransitive(earlier.catalog, begun.catalog, batch.stage.catalog);
    HistoryUnderExtension(earlier.entities[key], key, earlier.catalog, batch.stage.catalog, lsn);
    UnderExtension(earlier.entities[key], begun.entities[key], begun.catalog[key.0], batch.stage.catalog[key.0]);
    Transitive(earlier.entities[key], begun.entities[key], batch.stage.staged[key], batch.stage.catalog[key.0]);
  }

  /** Between its begin and any later checkpoint nobody wrote the transaction's keys. */
  lemma NobodyWrote(views: seq<View>, log: seq<Batch>, batch: Batch, key: Key, root: nat)
    requires Serial(views, log) && batch.began <= root <= |log|
    requires !Overtaken(log, batch, batch.began, |log|) && key in batch.keys
    ensures key in views[root].entities <==> key in views[batch.began].entities
    ensures key in views[root].entities ==> views[root].entities[key] == views[batch.began].entities[key]
    ensures views[root].catalog == views[batch.began].catalog
  {
    forall i | batch.began <= i < root ensures !log[i].catalog && key !in log[i].keys {
      assert !Clash(log[i], batch);
      assert key !in log[i].keys * batch.keys;
    }
    Untouched(views, log, batch.began, root, key);
  }

  lemma RecordIsEarlier(
    views: seq<View>, log: seq<Batch>, batch: Batch, key: Key, root: nat, d: EntityData, p: Persisted)
    requires Ready(views, log, batch, root) && key in batch.keys && batch.began < |views| && root < |views|
    requires StagedEntity(d, views, batch, key, root) && FromRoot(p, views[root], key)
    ensures EarlierRecord(p, d, batch.stage.catalog[key.0])
    ensures d.disk.Some? ==> d.disk.value.current.version <= p.current.version
  {
    assert Publishable(views, log, batch, root);
    StagedContinues(views, log, batch, key, root);
    ExtendsThrough(p.table, views[root].catalog[key.0], batch.stage.catalog[key.0]);
    EarlierFromGrowth(p, d, batch.stage.catalog[key.0]);
    if d.disk.Some? {
      var r: nat :| r <= root && FromRoot(d.disk.value, views[r], key);
      RunOfViewsGrows(views, log, r, root, key);
    }
  }

  /** What holds of one staged key, folded. */
  ghost predicate Held(staged: map<Key, EntityData>, views: seq<View>, batch: Batch, key: Key, root: nat) {
    key in staged ==> forall same: EntityData :: same == staged[key] ==> StagedEntity(same, views, batch, key, root)
  }

  /** The checkpoint holds every entity of its view. */
  ghost predicate InRoot(persisted: map<Key, Persisted>, view: View, key: Key) {
    key in persisted ==> forall same: Persisted :: same == persisted[key] ==> FromRoot(same, view, key)
  }

  /** The record an entity is read over after the rebind: the newest one, if it was read over another. */
  function DiskAfter(
    staged: map<Key, EntityData>, persisted: map<Key, Persisted>, elsewhere: set<Key>, key: Key): Option<Persisted>
    requires key in staged
  {
    if key in persisted && key in elsewhere then Some(persisted[key]) else staged[key].disk
  }

  /**
   The rebind loop of commit_group: every staged entity that is read over another manifest, and that the
   newest one knows, is moved onto it.
   */
  method RebindAll(
    staged: map<Key, EntityData>, persisted: map<Key, Persisted>, ghost views: seq<View>, ghost log: seq<Batch>,
    batch: Batch, elsewhere: set<Key>, ghost root: nat)
    returns (r: map<Key, EntityData>)
    requires Ready(views, log, batch, root) && batch.began < |views| && root < |views|
    requires staged.Keys == batch.keys && forall key :: Held(staged, views, batch, key, root)
    requires forall key :: InRoot(persisted, views[root], key)
    ensures r.Keys == staged.Keys && forall key :: Held(r, views, batch, key, root)
    ensures forall key :: key in r ==> r[key].disk == DiskAfter(staged, persisted, elsewhere, key)
  {
    r := staged;
    var rest := staged.Keys;
    while rest != {}
      invariant rest <= staged.Keys && r.Keys == staged.Keys
      invariant forall key :: Held(r, views, batch, key, root)
      invariant forall key :: key in r && key in rest ==> r[key] == staged[key]
      invariant forall key :: key in r && key !in rest ==> r[key].disk == DiskAfter(staged, persisted, elsewhere, key)
      decreases rest
    {
      var key :| key in rest;
      rest := rest - {key};
      if key in elsewhere {
        r := RebindKey(r, persisted, views, log, batch, key, root);
      }
    }
  }

  method RebindKey(
    staged: map<Key, EntityData>, persisted: map<Key, Persisted>, ghost views: seq<View>, ghost log: seq<Batch>,
    batch: Batch, key: Key, ghost root: nat)
    returns (r: map<Key, EntityData>)
    requires Ready(views, log, batch, root) && batch.began < |views| && root < |views|
    requires key in staged && key in batch.keys && forall other :: Held(staged, views, batch, other, root)
    requires InRoot(persisted, views[root], key)
    ensures r.Keys == staged.Keys && (forall other :: Held(r, views, batch, other, root))
    ensures forall other :: other in r && other != key ==> r[other] == staged[other]
    ensures r[key].disk == if key in persisted then Some(persisted[key]) else staged[key].disk
  {
    r := staged;
    if key in persisted {
      assert Held(staged, views, batch, key, root);
      assert StagedEntity(staged[key], views, batch, key, root) && FromRoot(persisted[key], views[root], key);
      var moved := RebindOne(staged[key], persisted[key], views, log, batch, key, root);
      r := staged[key := moved];
      forall other ensures Held(r, views, batch, other, root) {
        assert Held(staged, views, batch, other, root);
      }
    }
  }

  method RebindOne(
    d: EntityData, p: Persisted, ghost views: seq<View>, ghost log: seq<Batch>, batch: Batch, key: Key,
    ghost root: nat)
    returns (r: EntityData)
    requires Ready(views, log, batch, root) && key in batch.keys && batch.began < |views| && root < |views|
    requires StagedEntity(d, views, batch, key, root) && FromRoot(p, views[root], key)
    ensures StagedEntity(r, views, batch, key, root) && r.disk == Some(p) && Meaning(r) == Meaning(d)
  {
    RecordIsEarlier(views, log, batch, key, root, d, p);
    r := Rebind(d, p, batch.stage.catalog[key.0]);
    assert FromRoot(r.disk.value, views[root], key);
  }

  // ----- taking the sequence and entering the overlay -----

  /** The events the transaction staged take its sequence. */
  function StampData(d: EntityData, began: nat, lsn: nat): EntityData {
    d.(events := seq(|d.events|, i requires 0 <= i < |d.events| => StampEvent(d.events[i], began, lsn)))
  }

  /** Everything that was there before staging is no newer than the begin sequence. */
  ghost predicate OldBelow(d: EntityData, began: nat) {
    forall v: nat :: OldEvent(d, v, began)
  }

  ghost predicate OldEvent(d: EntityData, v: nat, began: nat) {
    d.base.version < v <= Settled(d) && EventOf(d, v).Some? ==> EventOf(d, v).value.transaction <= began
  }

  lemma StampedEvents(d: EntityData, began: nat, lsn: nat)
    requires Tiered(d) && OldBelow(d, began)
    ensures Tiered(StampData(d, began, lsn))
    ensures Events(StampData(d, began, lsn)) == StampEvents(Events(d), began, lsn)
  {
    var s := StampData(d, began, lsn);
    forall v: nat | d.base.version < v <= d.current.version
      ensures EventOf(s, v).Some? == EventOf(d, v).Some?
      ensures EventOf(d, v).Some? ==> EventOf(s, v).value == StampEvent(EventOf(d, v).value, began, lsn)
    {
      assert OldEvent(d, v, began);
    }
  }

  /** On the tiers, too, committing assigns the sequence and changes nothing else. */
  lemma StampedData(d: EntityData, table: Table, began: nat, lsn: nat)
    requires Valid(d, table) && OldBelow(d, began)
    ensures Valid(StampData(d, began, lsn), table)
    ensures Meaning(StampData(d, began, lsn)) == Stamp(Meaning(d), began, lsn)
  {
    var s := StampData(d, began, lsn);
    StampedEvents(d, began, lsn);
    StateAtStamped(d.base, Events(d), table, d.current.version, began, lsn);
    forall v | v in s.snapshots && s.base.version <= v
        ensures StateAt(s.base, Events(s), table, v) == Ok(s.snapshots[v]) {
      StateAtStamped(d.base, Events(d), table, v, began, lsn);
    }
  }

  lemma OldEventsBelow(views: seq<View>, log: seq<Batch>, batch: Batch, key: Key, root: nat, d: EntityData)
    requires Ready(views, log, batch, root) && batch.began < |views|
    requires key in batch.keys && StagedEntity(d, views, batch, key, root)
    ensures OldBelow(d, batch.began)
  {
    assert Publishable(views, log, batch, root);
    BatchGrows(views, log, batch, root, key);
    forall v: nat ensures OldEvent(d, v, batch.began) {
      if d.base.version < v <= Settled(d) && EventOf(d, v).Some? {
        var h := views[batch.began].entities[key];
        assert SameEvent(h, Meaning(d), v);
        assert HistoryOk(h, key, views[batch.began].catalog, batch.began);
      }
    }
  }

  /** Stamp and seal one entity. */
  method SealOne(d: EntityData, table: Table, began: nat, lsn: nat) returns (r: EntityData)
    requires Valid(d, table) && OldBelow(d, began)
    ensures Valid(r, table) && r.events == [] && Meaning(r) == Stamp(Meaning(d), began, lsn) && r.disk == d.disk
  {
    StampedData(d, table, began, lsn);
    r := Seal(StampData(d, began, lsn), table);
  }

  ghost predicate Sealable(staged: map<Key, EntityData>, catalog: Catalog, began: nat, key: Key) {
    key in staged ==> key.0 in catalog && Valid(staged[key], catalog[key.0]) && OldBelow(staged[key], began)
  }

  /** The sealed form of a staged entity: the same history under its sequence, over the same record. */
  ghost predicate SealedOne(
    staged: map<Key, EntityData>, r: map<Key, EntityData>, catalog: Catalog, began: nat, lsn: nat, key: Key)
  {
    key in r ==>
      && key in staged && key.0 in catalog && Valid(r[key], catalog[key.0]) && r[key].events == []
      && Meaning(r[key]) == Stamp(Meaning(staged[key]), began, lsn) && r[key].disk == staged[key].disk
  }

  /** What publish_state puts into the overlay (and, while a checkpoint is built, into the tail). */
  method SealAll(staged: map<Key, EntityData>, catalog: Catalog, began: nat, lsn: nat) returns (r: map<Key, EntityData>)
    requires forall key :: Sealable(staged, catalog, began, key)
    ensures r.Keys == staged.Keys && forall key :: SealedOne(staged, r, catalog, began, lsn, key)
  {
    r := map[];
    var rest := staged.Keys;
    while rest != {}
      invariant rest <= staged.Keys && r.Keys == staged.Keys - rest
      invariant forall key :: SealedOne(staged, r, catalog, began, lsn, key)
      decreases rest
    {
      var key :| key in rest;
      rest := rest - {key};
      assert Sealable(staged, catalog, began, key);
      var entity := SealOne(staged[key], catalog[key.0], began, lsn);
      ghost var earlier := r;
      r := r[key := entity];
      forall other ensures SealedOne(staged, r, catalog, began, lsn, other) {
        assert SealedOne(staged, earlier, catalog, began, lsn, other);
      }
    }
  }

  /** Entities that may enter the overlay. */
  ghost predicate Enters(published: map<Key, EntityData>, catalog: Catalog, key: Key) {
    key in published ==> key.0 in catalog && Valid(published[key], catalog[key.0]) && published[key].events == []
  }

  lemma OverlaidOk(rs: ReadState, catalog: Catalog, published: map<Key, EntityData>, lsn: nat)
    requires ReadStateOk(rs) && CatalogOk(catalog) && CatalogExtends(rs.catalog, catalog)
    requires forall key :: Enters(published, catalog, key)
    ensures ReadStateOk(ReadState(catalog, rs.overlay + published, rs.persisted, lsn))
  {
    var overlay := rs.overlay + published;
    forall key | key in overlay
      ensures key.0 in catalog && Valid(overlay[key], catalog[key.0]) && overlay[key].events == []
    {
      assert Enters(published, catalog, key);
      if key !in published {
        DataUnderExtension(rs.overlay[key], rs.catalog[key.0], catalog[key.0]);
      }
    }
    forall key | key in rs.persisted
      ensures key.0 in catalog && PersistedOk(rs.persisted[key]) && Extends(rs.persisted[key].table, catalog[key.0])
    {
      ExtendsThrough(rs.persisted[key].table, rs.catalog[key.0], catalog[key.0]);
    }
  }

  /** Putting published entities over a view, layout and meaning alike. */
  lemma OverlaidMeaning(rs: ReadState, catalog: Catalog, published: map<Key, EntityData>, lsn: nat)
    ensures Visible(ReadState(catalog, rs.overlay + published, rs.persisted, lsn))
         == Publish(Visible(rs), Stage(catalog, Meanings(published)))
  {
    var seen := Visible(ReadState(catalog, rs.overlay + published, rs.persisted, lsn)).entities;
    var expected := Visible(rs).entities + Meanings(published);
    assert seen.Keys == expected.Keys;
  }

  /**
   commit_group for one accepted transaction, on the engine's layout: rebind, stamp, seal, insert.  What
   readers see afterwards is the serial execution the coordinator records, and every entity that was read
   over another manifest than the newest one is now read over the newest one.
   */
  method CommitOne(
    rs: ReadState, staged: map<Key, EntityData>, batch: Batch, elsewhere: set<Key>, ghost views: seq<View>,
    ghost log: seq<Batch>, ghost root: nat)
    returns (r: ReadState, published: map<Key, EntityData>)
    requires ReadStateOk(rs) && Ready(views, log, batch, root) && |views| == |log| + 1 && batch.began < |views|
             && root < |views|
    requires Visible(rs) == views[|log|] && rs.lsn == |log|
    requires staged.Keys == batch.keys && forall key :: Held(staged, views, batch, key, root)
    requires forall key :: InRoot(rs.persisted, views[root], key)
    ensures ReadStateOk(r) && r.lsn == |log| + 1 && r.persisted == rs.persisted
    ensures Visible(r) == Publish(views[|log|], StampStage(batch.stage, batch.began, |log| + 1))
    ensures r.catalog == batch.stage.catalog && r.overlay == rs.overlay + published
    ensures published.Keys == staged.Keys
    ensures Stage(r.catalog, Meanings(published)) == StampStage(batch.stage, batch.began, |log| + 1)
    ensures forall key :: key in published ==> published[key].disk == DiskAfter(staged, rs.persisted, elsewhere, key)
  {
    var lsn := rs.lsn + 1;
    var moved := RebindAll(staged, rs.persisted, views, log, batch, elsewhere, root);
    MovedSealable(moved, views, log, batch, root);
    published := SealAll(moved, batch.stage.catalog, batch.began, lsn);
    BatchCatalog(views, log, batch, root);
    forall key ensures Enters(published, batch.stage.catalog, key) {
      assert SealedOne(moved, published, batch.stage.catalog, batch.began, lsn, key);
    }
    OverlaidOk(rs, batch.stage.catalog, published, lsn);
    OverlaidMeaning(rs, batch.stage.catalog, published, lsn);
    forall key | key in published
      ensures Meaning(published[key]) == Stamp(Meaning(moved[key]), batch.began, lsn)
      ensures published[key].disk == moved[key].disk
    {
      assert SealedOne(moved, published, batch.stage.catalog, batch.began, lsn, key);
    }
    PublishedMeanings(moved, published, views, log, batch, root, lsn);
    r := ReadState(batch.stage.catalog, rs.overlay + published, rs.persisted, lsn);
  }

  lemma MovedSealable(moved: map<Key, EntityData>, views: seq<View>, log: seq<Batch>, batch: Batch, root: nat)
    requires Ready(views, log, batch, root) && batch.began < |views| && moved.Keys == batch.keys
    requires forall key :: Held(moved, views, batch, key, root)
    ensures forall key :: Sealable(moved, batch.stage.catalog, batch.began, key)
  {
    forall key ensures Sealable(moved, batch.stage.catalog, batch.began, key) {
      if key in moved {
        assert Held(moved, views, batch, key, root);
        assert StagedEntity(moved[key], views, batch, key, root);
        OldEventsBelow(views, log, batch, key, root, moved[key]);
      }
    }
  }

  lemma BatchCatalog(views: seq<View>, log: seq<Batch>, batch: Batch, root: nat)
    requires Ready(views, log, batch, root) && |views| == |log| + 1 && batch.began < |views|
    ensures CatalogOk(batch.stage.catalog) && CatalogExtends(views[|log|].catalog, batch.stage.catalog)
    ensures batch.keys == batch.stage.staged.Keys
  {
    assert Publishable(views, log, batch, root);
    assert ViewOk(views[batch.began], batch.began);
    assert Run(views[batch.began], batch.ops, batch.began + 1) == Ok(batch.stage);
    LaterView(views[batch.began], batch.began, batch.began + 1);
    PublishOk(views[batch.began], batch.ops, batch.began + 1);
    NotOvertaken(views, log, batch);
  }

  lemma PublishedMeanings(
    moved: map<Key, EntityData>, published: map<Key, EntityData>, views: seq<View>, log: seq<Batch>, batch: Batch,
    root: nat, lsn: nat)
    requires batch.keys == batch.stage.staged.Keys && moved.Keys == batch.keys && published.Keys == moved.Keys
    requires forall key :: Held(moved, views, batch, key, root)
    requires forall key :: key in published ==> Meaning(published[key]) == Stamp(Meaning(moved[key]), batch.began, lsn)
    ensures Stage(batch.stage.catalog, Meanings(published)) == StampStage(batch.stage, batch.began, lsn)
  {
    forall key | key in published ensures Meanings(published)[key] == Stamp(batch.stage.staged[key], batch.began, lsn) {
      assert Held(moved, views, batch, key, root);
      assert StagedEntity(moved[key], views, batch, key, root);
    }
  }
}
