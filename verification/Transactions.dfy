/**
 What a transaction means (Staging and Prepared in database.rs).

 A transaction stages whole entities against the view it began with, and publishes them later.
 The lemmas here show that this gives the same entities, events, stamps and catalog as running
 its operations one by one on the view it is published into.
 */
module Transactions {
  import opened Results
  import opened Model
  import opened Histories

  /** Table and entity identifier. */
  type Key = (nat, nat)

  datatype Operation =
    | DefineTable(table: Table)
    | CreateEntity(key: Key, fields: Fields)
    | ApplyFields(key: Key, fields: Fields)
    | DeleteEntity(key: Key)
    | RetainEvents(key: Key, count: nat)
    | TakeSnapshot(key: Key)

  /** Everything a reader can observe: table -> id -> base, events, current. */
  datatype View = View(catalog: Catalog, entities: map<Key, History>)

  datatype Stage = Stage(catalog: Catalog, staged: map<Key, History>)

  function Loaded(base: View, stage: Stage, key: Key): Option<History> {
    if key in stage.staged then Some(stage.staged[key])
    else if key.0 in base.catalog && key in base.entities then Some(base.entities[key])
    else None
  }

  function NewEntity(table: Table, id: nat, fields: Fields): Result<History>
    requires table.schemas != []
  {
    match Normalize(Latest(table), fields, true)
    case Err(e) => Err(e)
    case Ok(row) =>
      var created := Entity(id, 0, Latest(table).version, false, row);
      Ok(History(created, created, map[]))
  }

  /** The event an apply or delete stages on `current`. */
  function NextEvent(table: Table, current: Entity, kind: EventKind, fields: Fields, lsn: nat): Result<Event>
    requires table.schemas != []
  {
    if kind.Apply? && fields == map[] then Err(Invalid)
    else
      match (if kind.Apply? then Normalize(Latest(table), fields, false) else Ok(map[]))
      case Err(e) => Err(e)
      case Ok(change) =>
        if current.deleted || current.version >= U64_MAX || lsn > U64_MAX then Err(Invalid)
        else Ok(Event(current.version + 1, lsn, Latest(table).version, kind, change))
  }

  function AppendEvent(table: Table, h: History, kind: EventKind, fields: Fields, lsn: nat): Result<History>
    requires table.schemas != []
  {
    match NextEvent(table, h.current, kind, fields, lsn)
    case Err(e) => Err(e)
    case Ok(event) =>
      match ApplyEvent(h.current, event, table)
      case Err(e) => Err(e)
      case Ok(next) => Ok(History(h.base, next, h.events[event.version := event]))
  }

  /** The entity an operation leaves behind, given the one it found. */
  function Change(table: Table, op: Operation, found: Option<History>, lsn: nat): Result<History>
    requires table.schemas != [] && !op.DefineTable?
  {
    if op.CreateEntity? then
      if found.Some? then Err(AlreadyExists) else NewEntity(table, op.key.1, op.fields)
    else if found.None? then Err(NotFound)
    else
      match op
      case ApplyFields(_, fields) => AppendEvent(table, found.value, EventKind.Apply, fields, lsn)
      case DeleteEntity(_) => AppendEvent(table, found.value, EventKind.Delete, map[], lsn)
      case RetainEvents(_, count) => Ok(RetainHistory(found.value, table, count))
      case TakeSnapshot(_) => Ok(found.value)
  }

  function Exec(base: View, stage: Stage, op: Operation, lsn: nat): Result<Stage> {
    match op
    case DefineTable(table) =>
      (match ValidateTableChange(stage.catalog, table)
       case Err(e) => Err(e)
       case Ok(_) => Ok(Stage(stage.catalog[table.id := table], stage.staged)))
    case _ =>
      if op.key.0 !in stage.catalog || stage.catalog[op.key.0].schemas == [] then Err(NotFound)
      else
        match Change(stage.catalog[op.key.0], op, Loaded(base, stage, op.key), lsn)
        case Err(e) => Err(e)
        case Ok(h) => Ok(Stage(stage.catalog, stage.staged[op.key := h]))
  }

  function ExecAll(base: View, stage: Stage, ops: seq<Operation>, lsn: nat): Result<Stage> {
    if ops == [] then Ok(stage)
    else
      match ExecAll(base, stage, ops[..|ops| - 1], lsn)
      case Err(e) => Err(e)
      case Ok(next) => Exec(base, next, ops[|ops| - 1], lsn)
  }

  lemma ExecAllAppend(base: View, stage: Stage, ops: seq<Operation>, op: Operation, lsn: nat)
    requires ExecAll(base, stage, ops, lsn).Ok?
    ensures ExecAll(base, stage, ops + [op], lsn) == Exec(base, ExecAll(base, stage, ops, lsn).value, op, lsn)
  {
    assert (ops + [op])[..|ops|] == ops;
  }

  function Fresh(view: View): Stage {
    Stage(view.catalog, map[])
  }

  /** Runs a transaction on a view. */
  function Run(view: View, ops: seq<Operation>, lsn: nat): Result<Stage> {
    ExecAll(view, Fresh(view), ops, lsn)
  }

  /** Running `ops` produces `stage`. The quantifier keeps the run folded until it is asked for. */
  ghost predicate RunsTo(view: View, ops: seq<Operation>, lsn: nat, stage: Stage) {
    forall o :: o == ops ==> Run(view, o, lsn) == Ok(stage)
  }

  lemma RunOneMore(view: View, ops: seq<Operation>, lsn: nat, stage: Stage, op: Operation)
    requires RunsTo(view, ops, lsn, stage) && Exec(view, stage, op, lsn).Ok?
    ensures RunsTo(view, ops + [op], lsn, Exec(view, stage, op, lsn).value)
  {
    assert Run(view, ops, lsn) == Ok(stage);
    ExecAllAppend(view, Fresh(view), ops, op, lsn);
  }

  function Publish(view: View, stage: Stage): View {
    View(stage.catalog, view.entities + stage.staged)
  }

  predicate ChangesCatalog(ops: seq<Operation>) {
    exists i :: 0 <= i < |ops| && ops[i].DefineTable?
  }

  // ----- well-formed views -----

  predicate HistoryOk(h: History, key: Key, catalog: Catalog, lsn: nat) {
    && key.0 in catalog
    && ValidHistory(h, catalog[key.0])
    && h.base.id == key.1 && h.current.version <= U64_MAX
    && forall v :: v in h.events ==> h.events[v].transaction <= lsn
  }

  predicate EntitiesOk(entities: map<Key, History>, catalog: Catalog, lsn: nat) {
    forall key :: key in entities ==> HistoryOk(entities[key], key, catalog, lsn)
  }

  predicate ViewOk(view: View, lsn: nat) {
    CatalogOk(view.catalog) && EntitiesOk(view.entities, view.catalog, lsn)
  }

  lemma HistoryUnderExtension(h: History, key: Key, prior: Catalog, later: Catalog, lsn: nat)
    requires HistoryOk(h, key, prior, lsn) && CatalogExtends(prior, later)
    ensures HistoryOk(h, key, later, lsn)
  {
    StateAtUnderExtension(h.base, h.events, prior[key.0], later[key.0], h.current.version);
  }

  lemma CatalogExtendsTransitive(a: Catalog, b: Catalog, c: Catalog)
    requires CatalogExtends(a, b) && CatalogExtends(b, c)
    ensures CatalogExtends(a, c)
  {
    forall k | k in a ensures k in c && Extends(a[k], c[k]) {
      assert Extends(a[k], b[k]) && Extends(b[k], c[k]);
      var n := |b[k].schemas|;
      assert c[k].schemas[..n] == b[k].schemas;
    }
  }

  lemma ChangeOk(table: Table, op: Operation, found: Option<History>, lsn: nat, key: Key, catalog: Catalog)
    requires !op.DefineTable? && op.key == key
    requires CatalogOk(catalog) && key.0 in catalog && catalog[key.0] == table
    requires found.Some? ==> HistoryOk(found.value, key, catalog, lsn)
    requires table.schemas != [] && Change(table, op, found, lsn).Ok?
    ensures HistoryOk(Change(table, op, found, lsn).value, key, catalog, lsn)
  {
    match op
    case CreateEntity(_, fields) =>
    case ApplyFields(_, fields) =>
      PushedStates(found.value, table, NextEvent(table, found.value.current, EventKind.Apply, fields, lsn).value);
    case DeleteEntity(_) =>
      PushedStates(found.value, table, NextEvent(table, found.value.current, EventKind.Delete, map[], lsn).value);
    case RetainEvents(_, count) =>
      RetentionKeepsVersions(found.value, table, count, 0);
      RetainKeepsId(found.value, table, count);
    case TakeSnapshot(_) =>
  }

  lemma RetainKeepsId(h: History, table: Table, count: nat)
    requires ValidHistory(h, table)
    ensures RetainHistory(h, table, count).base.id == h.base.id
  {
    var first := RetainedFrom(h.current, count);
    if first > h.base.version {
      EarlierStates(h.base, h.events, table, first, h.current.version);
      StateAtVersion(h.base, h.events, table, first);
    }
  }

  predicate StageOk(base: View, stage: Stage, lsn: nat) {
    && CatalogOk(stage.catalog)
    && CatalogExtends(base.catalog, stage.catalog)
    && EntitiesOk(stage.staged, stage.catalog, lsn)
  }

  lemma ExecOk(base: View, stage: Stage, op: Operation, lsn: nat)
    requires ViewOk(base, lsn) && StageOk(base, stage, lsn)
    requires Exec(base, stage, op, lsn).Ok?
    ensures StageOk(base, Exec(base, stage, op, lsn).value, lsn)
    ensures CatalogExtends(stage.catalog, Exec(base, stage, op, lsn).value.catalog)
  {
    var next := Exec(base, stage, op, lsn).value;
    if op.DefineTable? {
      AcceptedChangeExtends(stage.catalog, op.table);
      CatalogExtendsTransitive(base.catalog, stage.catalog, next.catalog);
      forall key | key in stage.staged ensures HistoryOk(stage.staged[key], key, next.catalog, lsn) {
        HistoryUnderExtension(stage.staged[key], key, stage.catalog, next.catalog, lsn);
      }
    } else {
      var found := Loaded(base, stage, op.key);
      if found.Some? && op.key !in stage.staged {
        HistoryUnderExtension(found.value, op.key, base.catalog, stage.catalog, lsn);
      }
      ChangeOk(stage.catalog[op.key.0], op, found, lsn, op.key, stage.catalog);
    }
  }

  lemma {:induction false} ExecAllOk(base: View, stage: Stage, ops: seq<Operation>, lsn: nat)
    requires ViewOk(base, lsn) && StageOk(base, stage, lsn)
    requires ExecAll(base, stage, ops, lsn).Ok?
    ensures StageOk(base, ExecAll(base, stage, ops, lsn).value, lsn)
  {
    if ops != [] {
      ExecAllOk(base, stage, ops[..|ops| - 1], lsn);
      ExecOk(base, ExecAll(base, stage, ops[..|ops| - 1], lsn).value, ops[|ops| - 1], lsn);
    }
  }

  /** Publishing a transaction keeps the view well formed: replay of every entity still reaches its current state. */
  lemma PublishOk(view: View, ops: seq<Operation>, lsn: nat)
    requires ViewOk(view, lsn)
    requires Run(view, ops, lsn).Ok?
    ensures ViewOk(Publish(view, Run(view, ops, lsn).value), lsn)
    ensures CatalogExtends(view.catalog, Run(view, ops, lsn).value.catalog)
  {
    ExecAllOk(view, Fresh(view), ops, lsn);
    var stage := Run(view, ops, lsn).value;
    forall key | key in view.entities && key !in stage.staged
        ensures HistoryOk(view.entities[key], key, stage.catalog, lsn) {
      HistoryUnderExtension(view.entities[key], key, view.catalog, stage.catalog, lsn);
    }
  }

  lemma LaterView(view: View, lsn: nat, later: nat)
    requires ViewOk(view, lsn) && lsn <= later
    ensures ViewOk(view, later)
  {
  }

  // ----- staging against an older view -----

  /** Commit assigns the sequence number: events newer than the begin sequence take it. */
  function StampEvent(event: Event, began: nat, lsn: nat): Event {
    if event.transaction > began then event.(transaction := lsn) else event
  }

  function StampEvents(events: map<nat, Event>, began: nat, lsn: nat): map<nat, Event> {
    map v | v in events :: StampEvent(events[v], began, lsn)
  }

  function Stamp(h: History, began: nat, lsn: nat): History {
    History(h.base, h.current, StampEvents(h.events, began, lsn))
  }

  function StampStage(stage: Stage, began: nat, lsn: nat): Stage {
    Stage(stage.catalog, map key | key in stage.staged :: Stamp(stage.staged[key], began, lsn))
  }

  /** Replay does not look at the transaction number. */
  lemma {:induction false} StateAtStamped(
    base: Entity, events: map<nat, Event>, table: Table, version: nat, began: nat, lsn: nat)
    ensures StateAt(base, StampEvents(events, began, lsn), table, version) == StateAt(base, events, table, version)
  {
    if base.version < version {
      StateAtStamped(base, events, table, version - 1, began, lsn);
    }
  }

  lemma RetainStamped(h: History, table: Table, count: nat, began: nat, lsn: nat)
    ensures RetainHistory(Stamp(h, began, lsn), table, count) == Stamp(RetainHistory(h, table, count), began, lsn)
  {
    var first := RetainedFrom(h.current, count);
    StateAtStamped(h.base, h.events, table, first, began, lsn);
    assert From(StampEvents(h.events, began, lsn), first + 1) == StampEvents(From(h.events, first + 1), began, lsn);
  }

  lemma AppendStamped(table: Table, h: History, kind: EventKind, fields: Fields, began: nat, lsn: nat)
    requires table.schemas != [] && began < lsn <= U64_MAX
    ensures var a := AppendEvent(table, h, kind, fields, began + 1);
            var b := AppendEvent(table, Stamp(h, began, lsn), kind, fields, lsn);
            a.Ok? == b.Ok? && (a.Ok? ==> b.value == Stamp(a.value, began, lsn))
  {
    var event := NextEvent(table, h.current, kind, fields, began + 1);
    if event.Ok? {
      var e := event.value;
      assert NextEvent(table, h.current, kind, fields, lsn) == Ok(e.(transaction := lsn));
      assert StampEvents(h.events[e.version := e], began, lsn)
          == StampEvents(h.events, began, lsn)[e.version := e.(transaction := lsn)];
    }
  }

  lemma ChangeStamped(table: Table, op: Operation, a: Option<History>, b: Option<History>, began: nat, lsn: nat)
    requires table.schemas != [] && !op.DefineTable? && began < lsn <= U64_MAX
    requires a.Some? == b.Some? && (a.Some? ==> b.value == Stamp(a.value, began, lsn))
    ensures var x := Change(table, op, a, began + 1);
            var y := Change(table, op, b, lsn);
            x.Ok? == y.Ok? && (x.Ok? ==> y.value == Stamp(x.value, began, lsn))
  {
    match op
    case CreateEntity(_, fields) =>
      if a.None? && NewEntity(table, op.key.1, fields).Ok? {
        assert StampEvents(map[], began, lsn) == map[];
      }
    case ApplyFields(_, fields) =>
      if a.Some? { AppendStamped(table, a.value, EventKind.Apply, fields, began, lsn); }
    case DeleteEntity(_) =>
      if a.Some? { AppendStamped(table, a.value, EventKind.Delete, map[], began, lsn); }
    case RetainEvents(_, count) =>
      if a.Some? { RetainStamped(a.value, table, count, began, lsn); }
    case TakeSnapshot(_) =>
  }

  /** The two views hold the same entity, with every event from before `began`. */
  predicate AgreeOn(a: View, b: View, key: Key, began: nat) {
    && (key in a.entities <==> key in b.entities)
    && (key in a.entities ==>
          && a.entities[key] == b.entities[key]
          && forall v :: v in a.entities[key].events ==> a.entities[key].events[v].transaction <= began)
  }

  predicate AgreeOnKeys(a: View, b: View, ops: seq<Operation>, began: nat) {
    forall i :: 0 <= i < |ops| && !ops[i].DefineTable? ==> AgreeOn(a, b, ops[i].key, began)
  }

  lemma OldEventsKeepTheirStamp(h: History, began: nat, lsn: nat)
    requires forall v :: v in h.events ==> h.events[v].transaction <= began
    ensures Stamp(h, began, lsn) == h
  {
    assert StampEvents(h.events, began, lsn) == h.events;
  }

  lemma LoadedStamped(a: View, b: View, x: Stage, key: Key, began: nat, lsn: nat)
    requires a.catalog == b.catalog && AgreeOn(a, b, key, began)
    ensures var found := Loaded(a, x, key);
            var other := Loaded(b, StampStage(x, began, lsn), key);
            found.Some? == other.Some? && (found.Some? ==> other.value == Stamp(found.value, began, lsn))
  {
    if key !in x.staged && key in a.entities {
      OldEventsKeepTheirStamp(a.entities[key], began, lsn);
    }
  }

  lemma StagedStamped(x: Stage, key: Key, h: History, began: nat, lsn: nat)
    ensures StampStage(Stage(x.catalog, x.staged[key := h]), began, lsn).staged
         == StampStage(x, began, lsn).staged[key := Stamp(h, began, lsn)]
  {
  }

  lemma ExecStamped(a: View, b: View, x: Stage, op: Operation, began: nat, lsn: nat)
    requires a.catalog == b.catalog && began < lsn <= U64_MAX
    requires op.DefineTable? || AgreeOn(a, b, op.key, began)
    ensures var r := Exec(a, x, op, began + 1);
            var s := Exec(b, StampStage(x, began, lsn), op, lsn);
            r.Ok? == s.Ok? && (r.Ok? ==> s.value == StampStage(r.value, began, lsn))
  {
    if !op.DefineTable? && op.key.0 in x.catalog && x.catalog[op.key.0].schemas != [] {
      var table := x.catalog[op.key.0];
      var found := Loaded(a, x, op.key);
      var other := Loaded(b, StampStage(x, began, lsn), op.key);
      LoadedStamped(a, b, x, op.key, began, lsn);
      ChangeStamped(table, op, found, other, began, lsn);
      if Change(table, op, found, began + 1).Ok? {
        StagedStamped(x, op.key, Change(table, op, found, began + 1).value, began, lsn);
      }
    }
  }

  lemma {:induction false} ExecAllStamped(a: View, b: View, ops: seq<Operation>, began: nat, lsn: nat)
    requires a.catalog == b.catalog && began < lsn <= U64_MAX
    requires AgreeOnKeys(a, b, ops, began)
    ensures var r := Run(a, ops, began + 1);
            var s := Run(b, ops, lsn);
            r.Ok? == s.Ok? && (r.Ok? ==> s.value == StampStage(r.value, began, lsn))
  {
    if ops == [] {
      assert StampStage(Fresh(a), began, lsn).staged == map[];
    } else {
      var rest := ops[..|ops| - 1];
      var op := ops[|ops| - 1];
      assert AgreeOnKeys(a, b, rest, began) by {
        forall i | 0 <= i < |rest| && !rest[i].DefineTable? ensures AgreeOn(a, b, rest[i].key, began) {
          assert rest[i] == ops[i];
        }
      }
      ExecAllStamped(a, b, rest, began, lsn);
      var r := Run(a, rest, began + 1);
      if r.Ok? {
        ExecStamped(a, b, r.value, op, began, lsn);
      }
    }
  }

  /**
   Publishing what was staged against the view of sequence `began`, with its events stamped `lsn`,
   equals running the operations on the current view -- whenever the catalog and every key the
   operations name are unchanged since.
   */
  lemma StagedPublicationIsSerial(
    snapshot: View, current: View, ops: seq<Operation>, stage: Stage, began: nat, lsn: nat)
    requires snapshot.catalog == current.catalog && began < lsn <= U64_MAX
    requires AgreeOnKeys(snapshot, current, ops, began)
    requires RunsTo(snapshot, ops, began + 1, stage)
    ensures RunsTo(current, ops, lsn, StampStage(stage, began, lsn))
  {
    assert Run(snapshot, ops, began + 1) == Ok(stage);
    ExecAllStamped(snapshot, current, ops, began, lsn);
  }

  predicate Names(ops: seq<Operation>, key: Key) {
    exists i :: 0 <= i < |ops| && !ops[i].DefineTable? && ops[i].key == key
  }

  /** A transaction stages exactly the keys it names; only table operations change the catalog. */
  lemma {:induction false} StagedKeys(base: View, ops: seq<Operation>, lsn: nat)
    requires Run(base, ops, lsn).Ok?
    ensures forall key :: key in Run(base, ops, lsn).value.staged <==> Names(ops, key)
    ensures !ChangesCatalog(ops) ==> Run(base, ops, lsn).value.catalog == base.catalog
    ensures (forall i :: 0 <= i < |ops| ==> !ops[i].DefineTable?) <==> !ChangesCatalog(ops)
  {
    if ops != [] {
      var n := |ops| - 1;
      StagedKeys(base, ops[..n], lsn);
      forall key ensures Names(ops, key) <==> Names(ops[..n], key) || (!ops[n].DefineTable? && ops[n].key == key) {
        if Names(ops, key) {
          var i :| 0 <= i < |ops| && !ops[i].DefineTable? && ops[i].key == key;
          if i < n { assert ops[..n][i] == ops[i]; }
        }
        if Names(ops[..n], key) {
          var i :| 0 <= i < n && !ops[..n][i].DefineTable? && ops[..n][i].key == key;
          assert ops[i] == ops[..n][i];
        }
      }
      if !ChangesCatalog(ops) {
        assert !ChangesCatalog(ops[..n]);
      }
    }
  }
}
