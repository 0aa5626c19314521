/**
 The tiered layout a transaction reads and stages (ReadState in reader.rs, and the steps of
 Staging::execute in database.rs).
 */
module StagedData {
  import opened Results
  import opened Model
  import opened Histories
  import opened Transactions
  import E = Effects

  /** A published view as the engine holds it: recently written entities over a checkpoint. */
  datatype ReadState = ReadState(catalog: Catalog, overlay: map<Key, EntityData>, persisted: map<Key, Persisted>,
      lsn: nat)

  function PersistedMeaning(p: Persisted): History {
    History(p.base, p.current, map v | v in p.events && p.base.version < v <= p.current.version :: p.events[v])
  }

  function Visible(rs: ReadState): View {
    View(rs.catalog, map key | key in rs.overlay.Keys + rs.persisted.Keys ::
           if key in rs.overlay then Meaning(rs.overlay[key]) else PersistedMeaning(rs.persisted[key]))
  }

  predicate ReadStateOk(rs: ReadState) {
    && CatalogOk(rs.catalog)
    && (forall key :: key in rs.overlay ==>
          key.0 in rs.catalog && Valid(rs.overlay[key], rs.catalog[key.0]) && rs.overlay[key].events == [])
    && (forall key :: key in rs.persisted ==>
          key.0 in rs.catalog && PersistedOk(rs.persisted[key]) && Extends(rs.persisted[key].table, rs.catalog[key.0]))
  }

  /** The checkpoint record an entity is read over. */
  function DiskOf(rs: ReadState, key: Key): Option<Persisted> {
    if key in rs.overlay then rs.overlay[key].disk
    else if key in rs.persisted then Some(rs.persisted[key])
    else None
  }

  /** ReadState::load: the overlay's entity, or the checkpoint's record with an empty memory tier. */
  method LoadData(rs: ReadState, key: Key) returns (r: Option<EntityData>)
    requires ReadStateOk(rs)
    ensures r.Some? <==> key in Visible(rs).entities
    ensures r.Some? ==>
              Valid(r.value, rs.catalog[key.0]) && Meaning(r.value) == Visible(rs).entities[key]
              && r.value.events == [] && r.value.disk == DiskOf(rs, key)
  {
    if key in rs.overlay {
      return Some(rs.overlay[key]);
    }
    if key in rs.persisted {
      var data := Load(rs.persisted[key], rs.catalog[key.0]);
      return Some(data);
    }
    return None;
  }

  lemma CreatedData(created: Entity, table: Table)
    ensures Valid(EntityData(created, created, [], map[], map[], None), table)
    ensures Meaning(EntityData(created, created, [], map[], map[], None)) == History(created, created, map[])
  {
    assert Events(EntityData(created, created, [], map[], map[], None)) == map[];
  }

  /** What an operation does to one loaded entity. */
  method ChangeData(table: Table, op: Operation, found: Option<EntityData>, lsn: nat) returns (r: Result<EntityData>)
    requires table.schemas != [] && !op.DefineTable?
    requires found.Some? ==> Valid(found.value, table)
    ensures var logical := Change(table, op, if found.Some? then Some(Meaning(found.value)) else None, lsn);
            && (r.Ok? <==> logical.Ok?)
            && (r.Ok? ==> Valid(r.value, table) && Meaning(r.value) == logical.value)
    ensures r.Ok? ==> r.value.disk == if found.Some? then found.value.disk else None
    ensures r.Ok? && found.Some? ==> forall from: nat :: BuildsOn(found.value, from) ==> BuildsOn(r.value, from)
    ensures r.Ok? && found.None? ==> BuildsOn(r.value, 0)
  {
    if op.CreateEntity? {
      if found.Some? {
        return Err(AlreadyExists);
      }
      match Normalize(Latest(table), op.fields, true)
      case Err(e) => return Err(e);
      case Ok(row) =>
        var created := Entity(op.key.1, 0, Latest(table).version, false, row);
        CreatedData(created, table);
        return Ok(EntityData(created, created, [], map[], map[], None));
    }
    if found.None? {
      return Err(NotFound);
    }
    var data := found.value;
    match op {
      case ApplyFields(_, fields) =>
        r := AppendData(table, data, EventKind.Apply, fields, lsn);
      case DeleteEntity(_) =>
        r := AppendData(table, data, EventKind.Delete, map[], lsn);
      case RetainEvents(_, count) =>
        r := Retain(data, table, count);
      case TakeSnapshot(_) =>
        var taken := Snapshot(data, table);
        return Ok(taken);
    }
  }

  method AppendData(table: Table, data: EntityData, kind: EventKind, fields: Fields, lsn: nat)
    returns (r: Result<EntityData>)
    requires table.schemas != [] && Valid(data, table)
    ensures var logical := AppendEvent(table, Meaning(data), kind, fields, lsn);
            && (r.Ok? <==> logical.Ok?)
            && (r.Ok? ==> Valid(r.value, table) && Meaning(r.value) == logical.value && r.value.disk == data.disk)
    ensures r.Ok? ==> forall from: nat :: BuildsOn(data, from) ==> BuildsOn(r.value, from)
  {
    match NextEvent(table, data.current, kind, fields, lsn)
    case Err(e) => return Err(e);
    case Ok(event) => r := Push(data, table, event);
  }

  function Meanings(staged: map<Key, EntityData>): map<Key, History> {
    map key | key in staged :: Meaning(staged[key])
  }

  /** The version the view had reached when staging began. */
  function Reached(view: View, key: Key): nat {
    if key in view.entities then view.entities[key].current.version else 0
  }

  /** A staged entity is valid, continues the view's, and is read over the record the view reads it over. */
  predicate StagedRight(base: ReadState, catalog: Catalog, key: Key, d: EntityData) {
    && key.0 in catalog && Valid(d, catalog[key.0])
    && BuildsOn(d, Reached(Visible(base), key)) && d.disk == DiskOf(base, key)
  }

  predicate AllRight(base: ReadState, catalog: Catalog, staged: map<Key, EntityData>) {
    && ReadStateOk(base) && CatalogOk(catalog) && CatalogExtends(base.catalog, catalog)
    && forall key :: key in staged ==> StagedRight(base, catalog, key, staged[key])
  }

  /** The same, folded until it is asked for. */
  ghost predicate Tiers(base: ReadState, catalog: Catalog, staged: map<Key, EntityData>) {
    forall same: map<Key, EntityData> :: same == staged ==> AllRight(base, catalog, same)
  }

  lemma AllRightPut(base: ReadState, catalog: Catalog, staged: map<Key, EntityData>, key: Key, data: EntityData)
    requires AllRight(base, catalog, staged) && StagedRight(base, catalog, key, data)
    ensures AllRight(base, catalog, staged[key := data])
  {
    var more := staged[key := data];
    forall other | other in more ensures StagedRight(base, catalog, other, more[other]) {
      if other != key {
        assert StagedRight(base, catalog, other, staged[other]);
      }
    }
  }

  lemma CatalogSchemas(base: ReadState, catalog: Catalog, staged: map<Key, EntityData>, key: Key)
    requires Tiers(base, catalog, staged)
    ensures key.0 in catalog ==> catalog[key.0].schemas != []
  {
    assert AllRight(base, catalog, staged);
    if key.0 in catalog {
      assert SchemaChain(catalog[key.0].schemas);
    }
  }

  lemma MeaningsPut(staged: map<Key, EntityData>, key: Key, data: EntityData)
    ensures Meanings(staged[key := data]) == Meanings(staged)[key := Meaning(data)]
  {
  }

  lemma TiersPut(base: ReadState, catalog: Catalog, staged: map<Key, EntityData>, key: Key, data: EntityData)
    requires Tiers(base, catalog, staged) && StagedRight(base, catalog, key, data)
    ensures Tiers(base, catalog, staged[key := data])
    ensures Meanings(staged[key := data]) == Meanings(staged)[key := Meaning(data)]
  {
    assert AllRight(base, catalog, staged);
    AllRightPut(base, catalog, staged, key, data);
    MeaningsPut(staged, key, data);
  }

  lemma TiersUnderExtension(base: ReadState, catalog: Catalog, later: Catalog, staged: map<Key, EntityData>)
    requires Tiers(base, catalog, staged) && CatalogExtends(catalog, later) && CatalogOk(later)
    ensures Tiers(base, later, staged)
  {
    assert AllRight(base, catalog, staged);
    CatalogExtendsTransitive(base.catalog, catalog, later);
    forall key | key in staged ensures StagedRight(base, later, key, staged[key]) {
      assert StagedRight(base, catalog, key, staged[key]);
      DataUnderExtension(staged[key], catalog[key.0], later[key.0]);
    }
  }

  // ----- one operation, on the tiers and by its serial meaning -----

  /** The serial meaning accepts the operation; the quantifier keeps it folded until it is asked for. */
  ghost predicate AcceptsAt(view: View, stage: Stage, op: Operation, lsn: nat) {
    forall same: Operation :: same == op ==> Exec(view, stage, same, lsn).Ok?
  }

  /** It accepts it and leads from one stage to the other. */
  ghost predicate LeadsAt(view: View, before: Stage, op: Operation, lsn: nat, after: Stage) {
    forall same: Operation :: same == op ==> Exec(view, before, same, lsn) == Ok(after)
  }

  ghost predicate Accepts(base: ReadState, stage: Stage, op: Operation) {
    AcceptsAt(Visible(base), stage, op, base.lsn + 1)
  }

  ghost predicate Leads(base: ReadState, before: Stage, op: Operation, after: Stage) {
    LeadsAt(Visible(base), before, op, base.lsn + 1, after)
  }

  lemma DefineLeads(base: ReadState, stage: Stage, table: Table)
    ensures Accepts(base, stage, DefineTable(table)) <==> ValidateTableChange(stage.catalog, table).Ok?
    ensures Accepts(base, stage, DefineTable(table)) ==>
              Leads(base, stage, DefineTable(table), Stage(stage.catalog[table.id := table], stage.staged))
  {
    assert Accepts(base, stage, DefineTable(table)) <==>
             Exec(Visible(base), stage, DefineTable(table), base.lsn + 1).Ok?;
  }

  /** What an operation on an entity makes of it, if its table is there. */
  ghost function Changed(base: ReadState, stage: Stage, op: Operation): Result<History>
    requires !op.DefineTable? && op.key.0 in stage.catalog && stage.catalog[op.key.0].schemas != []
  {
    Change(stage.catalog[op.key.0], op, Loaded(Visible(base), stage, op.key), base.lsn + 1)
  }

  lemma ChangeLeads(base: ReadState, stage: Stage, op: Operation)
    requires !op.DefineTable? && op.key.0 in stage.catalog && stage.catalog[op.key.0].schemas != []
    ensures Accepts(base, stage, op) <==> Changed(base, stage, op).Ok?
    ensures Changed(base, stage, op).Ok? ==>
              Leads(base, stage, op, Stage(stage.catalog, stage.staged[op.key := Changed(base, stage, op).value]))
  {
    ChangeExec(Visible(base), stage, op, base.lsn + 1, Changed(base, stage, op));
  }

  lemma ChangeExec(view: View, stage: Stage, op: Operation, lsn: nat, changed: Result<History>)
    requires !op.DefineTable? && op.key.0 in stage.catalog && stage.catalog[op.key.0].schemas != []
    requires changed == Change(stage.catalog[op.key.0], op, Loaded(view, stage, op.key), lsn)
    ensures AcceptsAt(view, stage, op, lsn) <==> changed.Ok?
    ensures changed.Ok? ==> LeadsAt(view, stage, op, lsn, Stage(stage.catalog, stage.staged[op.key := changed.value]))
  {
    assert Exec(view, stage, op, lsn)
        == match changed
           case Err(e) => Err(e)
           case Ok(h) => Ok(Stage(stage.catalog, stage.staged[op.key := h]));
  }

  lemma NoTableRefuses(base: ReadState, stage: Stage, op: Operation)
    requires !op.DefineTable? && op.key.0 !in stage.catalog
    ensures !Accepts(base, stage, op)
  {
    assert Exec(Visible(base), stage, op, base.lsn + 1).Err?;
  }

  lemma LeadsRuns(view: View, ops: seq<Operation>, stage: Stage, op: Operation, lsn: nat, after: Stage)
    requires RunsTo(view, ops, lsn, stage) && LeadsAt(view, stage, op, lsn, after)
    ensures RunsTo(view, ops + [op], lsn, after)
  {
    assert Exec(view, stage, op, lsn) == Ok(after);
    RunOneMore(view, ops, lsn, stage, op);
  }

  /** What the view has of an entity replays. */
  lemma VisibleIsValid(base: ReadState, key: Key)
    requires ReadStateOk(base) && key in Visible(base).entities
    ensures key.0 in base.catalog && ValidHistory(Visible(base).entities[key], base.catalog[key.0])
  {
    if key !in base.overlay {
      var p := base.persisted[key];
      var h := PersistedMeaning(p);
      EarlierStates(p.base, p.events, p.table, p.current.version, p.current.version);
      StateAtUnderExtension(p.base, p.events, p.table, base.catalog[key.0], p.current.version);
      StateAtAgrees(p.base, p.events, h.events, base.catalog[key.0], p.current.version);
    }
  }

  lemma StillValid(h: History, prior: Table, later: Table)
    requires ValidHistory(h, prior) && Extends(prior, later)
    ensures ValidHistory(h, later)
  {
    StateAtUnderExtension(h.base, h.events, prior, later, h.current.version);
  }

  lemma WorkIsValid(base: ReadState, catalog: Catalog, staged: map<Key, EntityData>, key: Key)
    requires AllRight(base, catalog, staged)
    ensures E.WorksOnValid(Visible(base), Stage(catalog, Meanings(staged)), key)
  {
    if key in staged {
      assert StagedRight(base, catalog, key, staged[key]);
    } else if key.0 in catalog && key.0 in base.catalog && key in Visible(base).entities {
      VisibleIsValid(base, key);
      StillValid(Visible(base).entities[key], base.catalog[key.0], catalog[key.0]);
    }
  }

  /** One step of the serial meaning is exactly the effect of its operation. */
  lemma LeadsShows(base: ReadState, catalog: Catalog, staged: map<Key, EntityData>, op: Operation, after: Stage)
    requires Tiers(base, catalog, staged)
    ensures Leads(base, Stage(catalog, Meanings(staged)), op, after)
       <==> E.Shows(Visible(base), Stage(catalog, Meanings(staged)), op, base.lsn + 1, after)
  {
    var stage := Stage(catalog, Meanings(staged));
    assert AllRight(base, catalog, staged);
    if !op.DefineTable? {
      WorkIsValid(base, catalog, staged, op.key);
    }
    E.ExecMakes(Visible(base), stage, op, base.lsn + 1, after);
    assert Leads(base, stage, op, after) <==> Exec(Visible(base), stage, op, base.lsn + 1) == Ok(after);
    assert E.Shows(Visible(base), stage, op, base.lsn + 1, after)
      <==> E.Effect(Visible(base), stage, op, base.lsn + 1, after);
  }

  lemma LoadedRight(base: ReadState, catalog: Catalog, key: Key, d: EntityData)
    requires key.0 in base.catalog && key.0 in catalog && Extends(base.catalog[key.0], catalog[key.0])
    requires key in Visible(base).entities && Valid(d, base.catalog[key.0]) && d.events == []
    requires Meaning(d) == Visible(base).entities[key] && d.disk == DiskOf(base, key)
    ensures StagedRight(base, catalog, key, d)
  {
    DataUnderExtension(d, base.catalog[key.0], catalog[key.0]);
  }

  lemma NothingLoaded(base: ReadState, key: Key)
    requires ReadStateOk(base) && (key.0 in base.catalog ==> key !in Visible(base).entities)
    ensures Reached(Visible(base), key) == 0 && DiskOf(base, key) == None
  {
  }

  /** The view's entity, under the definitions staged since. */
  method FindBelow(base: ReadState, catalog: Catalog, key: Key) returns (found: Option<EntityData>)
    requires ReadStateOk(base) && CatalogExtends(base.catalog, catalog) && key.0 in catalog
    ensures found.Some? <==> key.0 in base.catalog && key in Visible(base).entities
    ensures found.Some? ==> StagedRight(base, catalog, key, found.value)
    ensures found.Some? ==> Meaning(found.value) == Visible(base).entities[key]
    ensures found.None? ==> Reached(Visible(base), key) == 0 && DiskOf(base, key) == None
  {
    if key.0 !in base.catalog {
      NothingLoaded(base, key);
      return None;
    }
    found := LoadData(base, key);
    if found.Some? {
      LoadedRight(base, catalog, key, found.value);
    } else {
      NothingLoaded(base, key);
    }
  }

  /** What was found is what the serial meaning loads. */
  ghost predicate Finds(base: ReadState, catalog: Catalog, stage: Stage, key: Key, found: Option<EntityData>) {
    && key.0 in catalog
    && (found.Some? <==> Loaded(Visible(base), stage, key).Some?)
    && (found.Some? ==>
          && Meaning(found.value) == Loaded(Visible(base), stage, key).value
          && StagedRight(base, catalog, key, found.value))
    && (found.None? ==> Reached(Visible(base), key) == 0 && DiskOf(base, key) == None)
  }

  lemma ChangedIs(base: ReadState, catalog: Catalog, stage: Stage, op: Operation, found: Option<EntityData>)
    requires !op.DefineTable? && stage.catalog == catalog && Finds(base, catalog, stage, op.key, found)
    requires catalog[op.key.0].schemas != []
    ensures Changed(base, stage, op)
         == Change(catalog[op.key.0], op, if found.Some? then Some(Meaning(found.value)) else None, base.lsn + 1)
    ensures found.Some? ==> Valid(found.value, catalog[op.key.0])
  {
  }

  /** What an operation leaves of an entity continues the view's and is read over the same record. */
  lemma ChangedRight(
    base: ReadState, catalog: Catalog, stage: Stage, key: Key, found: Option<EntityData>, d: EntityData)
    requires Finds(base, catalog, stage, key, found) && Valid(d, catalog[key.0])
    requires d.disk == if found.Some? then found.value.disk else None
    requires found.Some? ==> forall from: nat :: BuildsOn(found.value, from) ==> BuildsOn(d, from)
    requires found.None? ==> BuildsOn(d, 0)
    ensures StagedRight(base, catalog, key, d)
  {
  }

  /** The operation on the tiers, and what it means. */
  method ChangeFound(base: ReadState, catalog: Catalog, ghost stage: Stage, op: Operation, found: Option<EntityData>)
    returns (r: Result<EntityData>)
    requires !op.DefineTable? && stage.catalog == catalog && Finds(base, catalog, stage, op.key, found)
    requires catalog[op.key.0].schemas != []
    ensures r.Ok? <==> Changed(base, stage, op).Ok?
    ensures r.Ok? ==> StagedRight(base, catalog, op.key, r.value) && Meaning(r.value) == Changed(base, stage, op).value
  {
    ChangedIs(base, catalog, stage, op, found);
    r := ChangeData(catalog[op.key.0], op, found, base.lsn + 1);
    if r.Ok? {
      ChangedRight(base, catalog, stage, op.key, found, r.value);
    }
  }

  /** A snapshot every `interval` versions and a limit on the retained events, as the options ask for. */
  ghost predicate Upkept(
    interval: nat, retain: Option<nat>, key: Key, version: nat, before: seq<Operation>, after: seq<Operation>)
  {
    after == before + (if interval != 0 && version % interval == 0 then [TakeSnapshot(key)] else [])
                    + (if retain.Some? then [RetainEvents(key, retain.value)] else [])
  }

  /** An entity that was written is there, one version further. */
  lemma WrittenShows(base: ReadState, before: Stage, op: Operation, after: Stage)
    requires E.Shows(Visible(base), before, op, base.lsn + 1, after) && !op.DefineTable?
    ensures op.key in after.staged
    ensures op.TakeSnapshot? || op.RetainEvents? ==>
              op.key in before.staged ==> after.staged[op.key].current == before.staged[op.key].current
  {
    assert E.Effect(Visible(base), before, op, base.lsn + 1, after);
    var found :| E.WorksOn(Visible(base), before, op.key, found)
                 && E.MakesOf(before.catalog[op.key.0], op, found, base.lsn + 1, after.staged[op.key]);
    assert E.Makes(before.catalog[op.key.0], op, found, base.lsn + 1, after.staged[op.key]);
  }
}

/**
 The staging area of one transaction (Staging in database.rs): it works on the tiered layout of
 Histories, and its meaning is the logical run of Transactions.
 */
module Stagings {
  import opened Results
  import opened Model
  import opened Histories
  import opened Transactions
  import opened ItemLists
  import opened OperationCodecs
  import opened StagedData
  import E = Effects

  /** What one admitted transaction may hold; a frame holds at most 64 MiB. */
  datatype Admission = Admission(maxOperations: nat, maxBytes: nat)

  const MAX_FRAME: nat := 64 * 1024 * 1024

  class Staging {
    const base: ReadState
    /** Create a snapshot every `interval` versions; zero disables it. */
    const interval: nat
    /** Keep at most this many events after each write. */
    const retain: Option<nat>
    var catalog: Catalog
    var staged: map<Key, EntityData>
    var operations: seq<Operation>
    var failed: bool
    /** The limits of an admitted transaction; recovery has none. */
    const admission: Option<Admission>
    /** Reserved for the payload of the frame. */
    var bytes: nat

    ghost function Staged(): Stage
      reads this
    {
      Stage(catalog, Meanings(staged))
    }

    ghost predicate StagedOk()
      reads this
    {
      Tiers(base, catalog, staged)
    }

    /** As long as nothing failed, the staged entities are what the recorded operations produce on the pinned view. */
    ghost predicate Consistent()
      reads this
    {
      && StagedOk() && (!failed ==> RunsTo(Visible(base), operations, base.lsn + 1, Staged()))
      && (!failed ==> Reserves(bytes, operations))
      && Admitted()
    }

    ghost predicate Admitted()
      reads this
    {
      admission.Some? ==>
          bytes <= admission.value.maxBytes <= MAX_FRAME
          && |operations| <= admission.value.maxOperations
    }

    constructor (base: ReadState, interval: nat, retain: Option<nat>, admission: Option<Admission>)
      requires ReadStateOk(base)
      requires admission.Some? ==> 8 <= admission.value.maxBytes <= MAX_FRAME
      ensures this.base == base && this.interval == interval && this.retain == retain && this.admission == admission
      ensures Consistent() && operations == [] && !failed
    {
      this.base, this.interval, this.retain, this.admission, bytes := base, interval, retain, admission, 8;
      catalog, staged, operations, failed := base.catalog, map[], [], false;
      new;
      assert Staged() == Fresh(Visible(base));
      ReservesNone();
    }

    /** The staged copy if there is one, else the pinned view's entity. */
    method Find(key: Key) returns (found: Option<EntityData>)
      requires StagedOk() && key.0 in catalog
      ensures Finds(base, catalog, Staged(), key, found)
    {
      assert AllRight(base, catalog, staged);
      if key in staged {
        assert StagedRight(base, catalog, key, staged[key]);
        return Some(staged[key]);
      }
      found := FindBelow(base, catalog, key);
    }

    method Define(table: Table) returns (r: Result<()>)
      requires StagedOk()
      modifies this`catalog
      ensures StagedOk()
      ensures r.Ok? <==> ValidateTableChange(old(catalog), table).Ok?
      ensures r.Ok? ==> catalog == old(catalog)[table.id := table]
    {
      assert AllRight(base, catalog, staged);
      match ValidateTableChange(catalog, table)
      case Err(e) => return Err(e);
      case Ok(_) =>
        AcceptedChangeExtends(catalog, table);
        var later := catalog[table.id := table];
        TiersUnderExtension(base, catalog, later, staged);
        catalog := later;
        return Ok(());
    }

    method Put(key: Key, data: EntityData)
      requires StagedOk() && StagedRight(base, catalog, key, data)
      modifies this`staged
      ensures StagedOk()
      ensures Staged() == Stage(catalog, old(Staged()).staged[key := Meaning(data)])
    {
      TiersPut(base, catalog, staged, key, data);
      staged := staged[key := data];
    }

    method Execute(op: Operation) returns (r: Result<()>)
      requires StagedOk()
      modifies this`catalog, this`staged
      ensures StagedOk()
      ensures r.Ok? <==> old(Executes(op))
      ensures r.Ok? ==> Leads(base, old(Staged()), op, Staged())
    {
      if op.DefineTable? {
        DefineLeads(base, Staged(), op.table);
        r := Define(op.table);
      } else {
        r := ChangeEntity(op);
      }
    }

    method ChangeEntity(op: Operation) returns (r: Result<()>)
      requires StagedOk() && !op.DefineTable?
      modifies this`staged
      ensures StagedOk()
      ensures r.Ok? <==> old(Executes(op))
      ensures r.Ok? ==> Leads(base, old(Staged()), op, Staged())
    {
      CatalogSchemas(base, catalog, staged, op.key);
      if op.key.0 !in catalog {
        NoTableRefuses(base, Staged(), op);
        return Err(NotFound);
      }
      ChangeLeads(base, Staged(), op);
      var found := Find(op.key);
      var changed := ChangeFound(base, catalog, Staged(), op, found);
      match changed
      case Err(e) => return Err(e);
      case Ok(data) =>
        Put(op.key, data);
        return Ok(());
    }

    /** The payload of an admitted transaction fits a frame, and the reservation is its length. */
    lemma PayloadFits()
      requires Consistent() && !failed
      ensures bytes == |Payload(operations)|
      ensures admission.Some? ==> |Payload(operations)| <= MAX_FRAME
    {
      assert bytes == |Payload(operations)|;
    }

    /** One more operation of this length is within the limits; recovery has none. */
    predicate Admits(size: nat)
      reads this
    {
      admission.Some? ==>
        |operations| + 1 <= admission.value.maxOperations && bytes + size <= admission.value.maxBytes
    }

    /** Recovery reserves without limits; an admitted transaction only within them. */
    method Reserve(size: nat) returns (ok: bool)
      requires Admitted()
      modifies this`bytes
      ensures Admitted() && bytes == old(bytes) + if ok then size else 0
      ensures ok <==> old(Admits(size))
    {
      if admission.Some? && (|operations| + 1 > admission.value.maxOperations
          || bytes + size > admission.value.maxBytes) {
        return false;
      }
      bytes := bytes + size;
      return true;
    }

    /** The serial meaning accepts the operation here. */
    ghost predicate Executes(op: Operation)
      reads this
    {
      Accepts(base, Staged(), op)
    }

    /** What is staged shows the effect of the operation on what was staged before. */
    ghost predicate Shows(before: Stage, op: Operation)
      reads this
    {
      E.Shows(Visible(base), before, op, base.lsn + 1, Staged())
    }

    /** The operation is executed after those already recorded. */
    method ExecuteNext(op: Operation) returns (r: Result<()>)
      requires StagedOk() && RunsTo(Visible(base), operations, base.lsn + 1, Staged())
      modifies this`catalog, this`staged
      ensures StagedOk() && (r.Ok? <==> old(Executes(op)))
      ensures r.Ok? ==> Leads(base, old(Staged()), op, Staged()) && Shows(old(Staged()), op)
      ensures r.Ok? ==> RunsTo(Visible(base), operations + [op], base.lsn + 1, Staged())
    {
      ghost var before, entities := Staged(), staged;
      r := Execute(op);
      if r.Ok? {
        LeadsRuns(Visible(base), operations, before, op, base.lsn + 1, Staged());
        LeadsShows(base, before.catalog, entities, op, Staged());
      }
    }

    /**
     Staging::run: after a failure nothing more is accepted. The reservation is exactly the payload to
     come, so an admitted transaction never outgrows its frame.
     */
    method RunOne(op: Operation) returns (r: Result<()>)
      requires Consistent()
      modifies this
      ensures Consistent()
      ensures old(failed) ==> r == Err(Invalid)
      ensures r.Ok? <==> old(!failed && Admits(OperationLength(op)) && Executes(op))
      ensures r.Ok? ==> !failed && operations == old(operations) + [op] && Leads(base, old(Staged()), op, Staged())
      ensures r.Ok? ==> Shows(old(Staged()), op)
      ensures r.Err? ==> failed && operations == old(operations)
    {
      if failed {
        return Err(Invalid);
      }
      if !Admits(OperationLength(op)) {
        failed := true;
        return Err(LimitExceeded);
      }
      r := RunAdmitted(op);
    }

    /** An operation within the limits. */
    method RunAdmitted(op: Operation) returns (r: Result<()>)
      requires Consistent() && !failed && Admits(OperationLength(op))
      modifies this
      ensures Consistent()
      ensures r.Ok? <==> old(Executes(op))
      ensures r.Ok? ==> !failed && operations == old(operations) + [op] && Leads(base, old(Staged()), op, Staged())
      ensures r.Ok? ==> Shows(old(Staged()), op)
      ensures r.Err? ==> failed && operations == old(operations)
    {
      ReservesMore(bytes, operations, op);
      var reserved := Reserve(OperationLength(op));
      r := ExecuteNext(op);
      if r.Err? {
        failed := true;
        return;
      }
      operations := operations + [op];
    }

    /** An assignment, and the maintenance the options ask for at the version it reaches. */
    method Apply(key: Key, fields: Fields) returns (r: Result<()>)
      requires Consistent()
      modifies this
      ensures Consistent()
      ensures r.Ok? ==> !failed && key in staged && Upkept(interval, retain, key, staged[key].current.version,
                                                           old(operations) + [ApplyFields(key, fields)], operations)
      ensures r.Err? ==> failed
    {
      r := WriteOne(ApplyFields(key, fields));
    }

    method Delete(key: Key) returns (r: Result<()>)
      requires Consistent()
      modifies this
      ensures Consistent()
      ensures r.Ok? ==> !failed && key in staged && Upkept(interval, retain, key, staged[key].current.version,
                                                           old(operations) + [DeleteEntity(key)], operations)
      ensures r.Err? ==> failed
    {
      r := WriteOne(DeleteEntity(key));
    }

    method WriteOne(op: Operation) returns (r: Result<()>)
      requires Consistent() && !op.DefineTable?
      modifies this
      ensures Consistent() && (r.Err? ==> failed)
      ensures r.Ok? ==> !failed && op.key in staged && Upkept(interval, retain, op.key, staged[op.key].current.version,
                                                              old(operations) + [op], operations)
    {
      ghost var before := Staged();
      r := RunOne(op);
      if r.Ok? {
        WrittenShows(base, before, op, Staged());
        r := Maintain(op.key);
      }
    }

    /** Automatic snapshots and retention are recorded as operations of their own; they change no current state. */
    method Maintain(key: Key) returns (r: Result<()>)
      requires Consistent() && !failed && key in staged
      modifies this
      ensures Consistent()
      ensures r.Ok? <==> !failed
      ensures r.Ok? ==>
                && key in staged && staged[key].current == old(staged[key].current)
                && Upkept(interval, retain, key, old(staged[key].current.version), old(operations), operations)
    {
      var version := staged[key].current.version;
      if interval != 0 && version % interval == 0 {
        r := Upkeep(TakeSnapshot(key));
        if r.Err? {
          return;
        }
      }
      if retain.Some? {
        r := Upkeep(RetainEvents(key, retain.value));
        return;
      }
      return Ok(());
    }

    method Upkeep(op: Operation) returns (r: Result<()>)
      requires Consistent() && !failed && (op.TakeSnapshot? || op.RetainEvents?) && op.key in staged
      modifies this
      ensures Consistent() && (r.Ok? <==> !failed)
      ensures r.Ok? ==> operations == old(operations) + [op]
      ensures r.Ok? ==> op.key in staged && staged[op.key].current == old(staged[op.key].current)
    {
      ghost var before := Staged();
      assert before.staged[op.key].current == staged[op.key].current;
      r := RunOne(op);
      if r.Ok? {
        WrittenShows(base, before, op, Staged());
        assert Staged().staged[op.key].current == staged[op.key].current;
      }
    }
  }
}
