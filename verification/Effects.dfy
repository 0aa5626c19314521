/**
 What events and operations do to an entity, field by field (model.rs, apply_event; database.rs,
 Staging::execute).
 */
module Effects {
  import opened Results
  import opened Model
  import opened Histories
  import opened Transactions

  // ----- types -----

  /** A value of the field's type, or null where the field allows it; floats are finite. */
  ghost predicate HasType(value: Value, field: Field) {
    (value == Null && field.nullable)
    || match field.dataType
       case BoolType => value.Bool?
       case Int64Type => value.Int64?
       case UInt64Type => value.UInt64?
       case Float64Type => value.Float64? && Magnitude(value.bits) < INFINITY
       case TextType => value.Text?
       case BytesType => value.Bytes?
  }

  /** The bits of an infinite double, and those of a double without its sign. */
  const INFINITY: nat := 0x7FF0_0000_0000_0000

  ghost function Magnitude(bits: nat): nat {
    bits % 0x8000_0000_0000_0000
  }

  /** Exactly the declared fields, each with a value of its type. */
  ghost predicate Typed(fields: seq<Field>, row: Fields) {
    && (forall i :: 0 <= i < |fields| ==> fields[i].id in row && HasType(row[fields[i].id], fields[i]))
    && forall id :: id in row ==> exists i :: 0 <= i < |fields| && fields[i].id == id
  }

  lemma FiniteMeans(bits: nat)
    ensures Finite(bits) <==> Magnitude(bits) < INFINITY
  {
    var high, low := bits / 0x10_0000_0000_0000, bits % 0x10_0000_0000_0000;
    assert bits == high * 0x10_0000_0000_0000 + low;
    assert high == high / 2048 * 2048 + high % 2048;
    assert bits == high / 2048 * 0x8000_0000_0000_0000 + (high % 2048 * 0x10_0000_0000_0000 + low);
  }

  lemma MatchesMeans(value: Value, field: Field)
    ensures Matches(value, field) <==> HasType(value, field)
  {
    if value.Float64? {
      FiniteMeans(value.bits);
    }
  }

  /** A complete row has exactly the declared fields, each of its type. */
  lemma CompleteIsTyped(fields: seq<Field>, row: Fields)
    requires UniqueIds(fields)
    ensures CompleteRow(fields, row) <==> Typed(fields, row)
  {
    forall i | 0 <= i < |fields| ensures fields[i].id in row ==>
      (HasType(row[fields[i].id], fields[i]) <==> Matches(row[fields[i].id], fields[i]))
    {
      if fields[i].id in row {
        MatchesMeans(row[fields[i].id], fields[i]);
      }
    }
    if CompleteRow(fields, row) {
      forall i | 0 <= i < |fields| ensures Matches(row[fields[i].id], fields[i]) {
        assert Declares(fields, fields[i].id, row[fields[i].id]);
      }
      forall id | id in row ensures exists i :: 0 <= i < |fields| && fields[i].id == id {
        assert Declares(fields, id, row[id]);
      }
    }
    if Typed(fields, row) {
      forall id | id in row ensures Declares(fields, id, row[id]) {
        var i :| 0 <= i < |fields| && fields[i].id == id;
        assert Matches(row[fields[i].id], fields[i]);
      }
    }
  }

  // ----- one assignment -----

  /** `after` has the assigned values, keeps every other one, and is null where neither says anything. */
  ghost predicate Assigned(before: Fields, change: Fields, schema: Schema, after: Fields) {
    && (forall id :: id in change ==> id in after && after[id] == change[id])
    && (forall id :: id in before && id !in change ==> id in after && after[id] == before[id])
    && (forall id :: id in after && id !in change && id !in before ==> after[id] == Null && MayBeNull(schema, id))
    && (forall i :: 0 <= i < |schema.fields| ==> schema.fields[i].id in after)
  }

  ghost predicate MayBeNull(schema: Schema, id: nat) {
    exists i :: 0 <= i < |schema.fields| && schema.fields[i].id == id && schema.fields[i].nullable
  }

  /** The assignment gives a row of the schema that is small enough. */
  ghost predicate Assignable(before: Fields, change: Fields, schema: Schema, after: Fields) {
    Assigned(before, change, schema, after) && Typed(schema.fields, after)
    && 8 + RowLength(schema.fields, after) <= MAX_ROW
  }

  lemma {:induction false} FilledMeans(fields: seq<Field>, row: Fields, after: Fields)
    requires UniqueIds(fields) && forall id :: id in row ==> id in after && after[id] == row[id]
    requires forall i :: 0 <= i < |fields| ==> fields[i].id in after
    requires forall id :: id in after && id !in row ==>
               after[id] == Null && exists i :: 0 <= i < |fields| && fields[i].id == id && fields[i].nullable
    ensures Fill(fields, row) == Some(after)
  {
    if fields == [] {
      assert after == row;
    } else {
      var rest, next := fields[1..], if fields[0].id in row then row else row[fields[0].id := Null];
      forall id | id in after && id !in next
        ensures after[id] == Null && exists i :: 0 <= i < |rest| && rest[i].id == id && rest[i].nullable
      {
        var i :| 0 <= i < |fields| && fields[i].id == id && fields[i].nullable;
        assert rest[i - 1] == fields[i];
      }
      forall i | 0 <= i < |rest| ensures rest[i] == fields[i + 1] {}
      if fields[0].id !in row {
        var i :| 0 <= i < |fields| && fields[i].id == fields[0].id && fields[i].nullable;
      }
      FilledMeans(rest, next, after);
    }
  }

  lemma NormalizedIsAssigned(schema: Schema, before: Fields, change: Fields, after: Fields)
    requires UniqueIds(schema.fields) && Normalize(schema, before + change, true) == Ok(after)
    ensures Assigned(before, change, schema, after) && CompleteRow(schema.fields, after)
    ensures 8 + RowLength(schema.fields, after) <= MAX_ROW
  {
    NormalizeMeaning(schema, before + change);
    FillMeaning(schema.fields, before + change);
  }

  lemma AssignedIsTyped(schema: Schema, before: Fields, change: Fields, after: Fields)
    requires Assigned(before, change, schema, after) && CompleteRow(schema.fields, after)
    ensures WellTyped(schema.fields, before + change)
  {
    var merged := before + change;
    forall id | id in merged ensures Declares(schema.fields, id, merged[id]) {
      assert Declares(schema.fields, id, after[id]);
    }
  }

  /** A complete row is accepted exactly when it can be assigned, and is then that row. */
  lemma NormalizedMeans(schema: Schema, before: Fields, change: Fields, after: Fields)
    requires UniqueIds(schema.fields)
    ensures Normalize(schema, before + change, true) == Ok(after) <==> Assignable(before, change, schema, after)
  {
    CompleteIsTyped(schema.fields, after);
    if Normalize(schema, before + change, true) == Ok(after) {
      NormalizedIsAssigned(schema, before, change, after);
    }
    if Assignable(before, change, schema, after) {
      FilledMeans(schema.fields, before + change, after);
      AssignedIsTyped(schema, before, change, after);
    }
  }

  // ----- one event -----

  /** The state after an event: the next version, and what the event assigns. */
  ghost predicate Succeeds(before: Entity, event: Event, schema: Schema, after: Entity) {
    && !before.deleted && after.id == before.id
    && after.version == event.version == before.version + 1 <= U64_MAX
    && after.schemaVersion == event.schemaVersion == schema.version
    && (after.deleted <==> event.kind.Delete?)
    && Assignable(before.fields, event.fields, schema, after.fields)
  }

  /** The same, folded until it is asked for. */
  ghost predicate Follows(before: Entity, event: Event, schema: Schema, after: Entity) {
    forall same: Entity :: same == before ==> Succeeds(same, event, schema, after)
  }

  lemma ChainIds(schemas: seq<Schema>, version: nat)
    requires SchemaChain(schemas)
    ensures 1 <= version <= |schemas| ==>
              FindSchema(schemas, version) == Some(schemas[version - 1]) && UniqueIds(schemas[version - 1].fields)
    ensures !(1 <= version <= |schemas|) ==> FindSchema(schemas, version).None?
  {
    if 1 <= version <= |schemas| {
      FindSchemaByVersion(schemas, version, 0);
      assert ValidSchema(schemas[version - 1]);
    } else {
      NoSuchSchema(schemas, version);
    }
  }

  lemma {:induction false} NoSuchSchema(schemas: seq<Schema>, version: nat)
    requires forall i :: 0 <= i < |schemas| ==> schemas[i].version != version
    ensures FindSchema(schemas, version).None?
  {
    if schemas != [] {
      NoSuchSchema(schemas[1..], version);
    }
  }

  /** Applying an event gives exactly the state that has what it assigns and keeps the rest. */
  lemma AppliedMeans(before: Entity, event: Event, table: Table, after: Entity)
    requires SchemaChain(table.schemas)
    ensures ApplyEvent(before, event, table) == Ok(after) <==>
            && 1 <= event.schemaVersion <= |table.schemas|
            && Succeeds(before, event, table.schemas[event.schemaVersion - 1], after)
  {
    ChainIds(table.schemas, event.schemaVersion);
    if 1 <= event.schemaVersion <= |table.schemas| {
      NormalizedMeans(table.schemas[event.schemaVersion - 1], before.fields, event.fields, after.fields);
    }
  }

  // ----- any number of events -----

  /** The value the last event up to `version` gave a field, or the one it had in the base. */
  function LastValue(base: Entity, events: map<nat, Event>, version: nat, id: nat): Option<Value> {
    if version <= base.version then if id in base.fields then Some(base.fields[id]) else None
    else if version in events && id in events[version].fields then Some(events[version].fields[id])
    else LastValue(base, events, version - 1, id)
  }

  /** A field reads as the last value assigned to it, or as null when it never had one. */
  lemma {:induction false} ReadsLastValue(
    base: Entity, events: map<nat, Event>, table: Table, version: nat, id: nat)
    requires SchemaChain(table.schemas) && StateAt(base, events, table, version).Ok?
    ensures var fields, value := StateAt(base, events, table, version).value.fields,
                LastValue(base, events, version, id);
            if value.Some? then id in fields && fields[id] == value.value
            else id in fields ==> fields[id] == Null
  {
    if base.version < version {
      ReadsLastValue(base, events, table, version - 1, id);
      AppliedMeans(StateAt(base, events, table, version - 1).value, events[version], table,
                   StateAt(base, events, table, version).value);
    }
  }

  /** Each version is one event after the one before, and a deleted entity has no later version. */
  lemma EachVersionSucceeds(base: Entity, events: map<nat, Event>, table: Table, version: nat, last: nat)
    requires SchemaChain(table.schemas) && StateAt(base, events, table, last).Ok?
    requires base.version < version <= last
    ensures StateAt(base, events, table, version - 1).Ok? && StateAt(base, events, table, version).Ok?
    ensures version in events && 1 <= events[version].schemaVersion <= |table.schemas|
    ensures Succeeds(StateAt(base, events, table, version - 1).value, events[version],
                     table.schemas[events[version].schemaVersion - 1], StateAt(base, events, table, version).value)
  {
    EarlierStates(base, events, table, version, last);
    EarlierStates(base, events, table, version - 1, last);
    AppliedMeans(StateAt(base, events, table, version - 1).value, events[version], table,
                 StateAt(base, events, table, version).value);
  }

  // ----- one operation on an entity -----

  /** A new entity: version zero, no events, and the given values. */
  ghost predicate Creates(schema: Schema, id: nat, fields: Fields, later: History) {
    && later.base == later.current && later.events == map[]
    && later.current.id == id && later.current.version == 0 && !later.current.deleted
    && later.current.schemaVersion == schema.version
    && Assignable(map[], fields, schema, later.current.fields)
  }

  /** One more event, of the newest schema version and the transaction's sequence. */
  ghost predicate Appends(
    schema: Schema, h: History, kind: EventKind, fields: Fields, lsn: nat, later: History)
  {
    var version := h.current.version + 1;
    && later.base == h.base && later.events.Keys == h.events.Keys + {version} && lsn <= U64_MAX
    && (forall v :: v in h.events && v != version ==> later.events[v] == h.events[v])
    && later.events[version] == Event(version, lsn, schema.version, kind, fields)
    && Follows(h.current, later.events[version], schema, later.current)
  }

  /** The last `count` events and the state before them; nothing when there are not more. */
  ghost predicate Retains(table: Table, h: History, count: nat, later: History) {
    && later.current == h.current
    && if h.current.version <= h.base.version + count then later == h
       else
         && later.base.version == h.current.version - count
         && StateAt(h.base, h.events, table, later.base.version) == Ok(later.base)
         && (forall v :: v in later.events <==> v in h.events && later.base.version < v)
         && forall v :: v in later.events ==> later.events[v] == h.events[v]
  }

  /** What each operation makes of the entity it found. */
  ghost predicate Makes(table: Table, op: Operation, found: Option<History>, lsn: nat, later: History)
    requires table.schemas != []
  {
    var schema := table.schemas[|table.schemas| - 1];
    match op
    case DefineTable(_) => false
    case CreateEntity(key, fields) => found.None? && Creates(schema, key.1, fields, later)
    case ApplyFields(_, fields) =>
      found.Some? && fields != map[] && Appends(schema, found.value, EventKind.Apply, fields, lsn, later)
    case DeleteEntity(_) => found.Some? && Appends(schema, found.value, EventKind.Delete, map[], lsn, later)
    case RetainEvents(_, count) => found.Some? && Retains(table, found.value, count, later)
    case TakeSnapshot(_) => found.Some? && later == found.value
  }

  /** A part of a row is not longer than the row. */
  lemma {:induction false} PartOfRow(fields: seq<Field>, part: Fields, row: Fields)
    requires forall id :: id in part ==> id in row && row[id] == part[id]
    ensures RowLength(fields, part) <= RowLength(fields, row)
  {
    if fields != [] {
      PartOfRow(fields[1..], part, row);
    }
  }

  lemma LatestIds(table: Table)
    requires SchemaChain(table.schemas)
    ensures UniqueIds(Latest(table).fields) && Latest(table).version == |table.schemas|
    ensures FindSchema(table.schemas, Latest(table).version) == Some(Latest(table))
  {
    ChainIds(table.schemas, |table.schemas|);
  }

  lemma CreateMakes(table: Table, id: nat, fields: Fields, later: History)
    requires SchemaChain(table.schemas)
    ensures NewEntity(table, id, fields) == Ok(later) <==> Creates(Latest(table), id, fields, later)
  {
    LatestIds(table);
    assert map[] + fields == fields;
    NormalizedMeans(Latest(table), map[], fields, later.current.fields);
  }

  /** An assignment that is accepted is well typed on its own. */
  lemma ChangeIsTyped(schema: Schema, before: Fields, change: Fields, after: Fields)
    requires Assignable(before, change, schema, after) && UniqueIds(schema.fields)
    ensures Normalize(schema, change, false) == Ok(change)
  {
    CompleteIsTyped(schema.fields, after);
    forall id | id in change ensures Declares(schema.fields, id, change[id]) {
      assert Declares(schema.fields, id, after[id]);
    }
    PartOfRow(schema.fields, change, after);
  }

  /** The event of the newest schema version leads to exactly the states that follow it. */
  lemma LatestApplied(table: Table, before: Entity, event: Event, after: Entity)
    requires SchemaChain(table.schemas) && event.schemaVersion == Latest(table).version
    ensures ApplyEvent(before, event, table) == Ok(after) <==> Follows(before, event, Latest(table), after)
  {
    LatestIds(table);
    AppliedMeans(before, event, table, after);
    assert Follows(before, event, Latest(table), after) ==> Succeeds(before, event, Latest(table), after);
  }

  lemma AppendMakes(table: Table, h: History, kind: EventKind, fields: Fields, lsn: nat)
    requires SchemaChain(table.schemas) && (kind.Delete? ==> fields == map[])
    requires AppendEvent(table, h, kind, fields, lsn).Ok?
    ensures Appends(Latest(table), h, kind, fields, lsn, AppendEvent(table, h, kind, fields, lsn).value)
  {
    var event := NextEvent(table, h.current, kind, fields, lsn).value;
    LatestApplied(table, h.current, event, ApplyEvent(h.current, event, table).value);
  }

  /** The event that was made is the one staging makes. */
  lemma NextIsMade(
    table: Table, before: Entity, kind: EventKind, fields: Fields, lsn: nat, event: Event, after: Entity)
    requires table.schemas != [] && UniqueIds(Latest(table).fields) && lsn <= U64_MAX
    requires if kind.Apply? then fields != map[] else fields == map[]
    requires event == Event(before.version + 1, lsn, Latest(table).version, kind, fields)
    requires Follows(before, event, Latest(table), after)
    ensures NextEvent(table, before, kind, fields, lsn) == Ok(event)
  {
    assert Succeeds(before, event, Latest(table), after);
    ChangeIsTyped(Latest(table), before.fields, fields, after.fields);
  }

  lemma MadeByAppend(table: Table, h: History, kind: EventKind, fields: Fields, lsn: nat, later: History)
    requires SchemaChain(table.schemas) && (if kind.Apply? then fields != map[] else fields == map[])
    requires Appends(Latest(table), h, kind, fields, lsn, later)
    ensures AppendEvent(table, h, kind, fields, lsn) == Ok(later)
  {
    var event := later.events[h.current.version + 1];
    LatestIds(table);
    NextIsMade(table, h.current, kind, fields, lsn, event, later.current);
    LatestApplied(table, h.current, event, later.current);
    assert later.events == h.events[event.version := event];
  }

  lemma EventMakes(table: Table, h: History, kind: EventKind, fields: Fields, lsn: nat, later: History)
    requires SchemaChain(table.schemas) && (if kind.Apply? then fields != map[] else fields == map[])
    ensures AppendEvent(table, h, kind, fields, lsn) == Ok(later) <==>
            Appends(Latest(table), h, kind, fields, lsn, later)
  {
    if AppendEvent(table, h, kind, fields, lsn).Ok? {
      AppendMakes(table, h, kind, fields, lsn);
    }
    if Appends(Latest(table), h, kind, fields, lsn, later) {
      MadeByAppend(table, h, kind, fields, lsn, later);
    }
  }

  lemma RetainMakes(table: Table, h: History, count: nat, later: History)
    requires ValidHistory(h, table)
    ensures RetainHistory(h, table, count) == later <==> Retains(table, h, count, later)
  {
    var version := RetainedFrom(h.current, count);
    if h.base.version < version {
      EarlierStates(h.base, h.events, table, version, h.current.version);
      StateAtVersion(h.base, h.events, table, version);
      if Retains(table, h, count, later) {
        assert later.events == From(h.events, version + 1);
      }
    }
  }

  /** An operation on an entity succeeds with exactly the history it should make. */
  lemma ChangeMakes(table: Table, op: Operation, found: Option<History>, lsn: nat, later: History)
    requires SchemaChain(table.schemas) && !op.DefineTable?
    requires found.Some? ==> ValidHistory(found.value, table)
    ensures Change(table, op, found, lsn) == Ok(later) <==> Makes(table, op, found, lsn, later)
  {
    match op
    case CreateEntity(key, fields) => CreateMakes(table, key.1, fields, later);
    case ApplyFields(_, fields) =>
      if found.Some? && fields != map[] {
        EventMakes(table, found.value, EventKind.Apply, fields, lsn, later);
      }
    case DeleteEntity(_) =>
      if found.Some? {
        EventMakes(table, found.value, EventKind.Delete, map[], lsn, later);
      }
    case RetainEvents(_, count) =>
      if found.Some? {
        RetainMakes(table, found.value, count, later);
      }
    case TakeSnapshot(_) =>
  }

  // ----- table definitions -----

  /** At most 255 printable bytes, not all of them blank. */
  ghost predicate GoodName(name: seq<byte>) {
    && |name| < 256 && (exists i :: 0 <= i < |name| && name[i] != 32)
    && forall i :: 0 <= i < |name| ==> !(name[i] < 32 || name[i] == 127)
  }

  /** Numbered from one, with 1 to 4096 fields that differ in id and in name. */
  ghost predicate GoodSchema(schema: Schema) {
    && schema.version > 0 && 1 <= |schema.fields| <= 4096
    && (forall i :: 0 <= i < |schema.fields| ==> schema.fields[i].id > 0 && GoodName(schema.fields[i].name))
    && forall i, j :: 0 <= i < |schema.fields| && 0 <= j < |schema.fields| && i != j ==>
         schema.fields[i].id != schema.fields[j].id && schema.fields[i].name != schema.fields[j].name
  }

  /** Every field of the earlier schema is still there as it was, and every other one may be null. */
  ghost predicate Evolves(prior: Schema, later: Schema) {
    && later.version == prior.version + 1
    && (forall i :: 0 <= i < |prior.fields| ==> Keeps(later, prior.fields[i]))
    && forall j :: 0 <= j < |later.fields| && !later.fields[j].nullable ==>
         exists i :: 0 <= i < |prior.fields| && prior.fields[i].id == later.fields[j].id
  }

  ghost predicate Keeps(later: Schema, field: Field) {
    exists j :: 0 <= j < |later.fields| && later.fields[j].id == field.id
      && later.fields[j].dataType == field.dataType && later.fields[j].nullable == field.nullable
  }

  /**
   A table may be defined under a name that is free: a new one with the next number and one schema, an
   existing one with the schemas it has or one that evolves from its last.
   */
  ghost predicate MayDefine(catalog: Catalog, table: Table) {
    && GoodName(table.name) && table.schemas != []
    && (forall i :: 0 <= i < |table.schemas| ==> GoodSchema(table.schemas[i]))
    && (forall k :: k in catalog && k != table.id ==> catalog[k].name != table.name)
    && if table.id in catalog then
         var prior := catalog[table.id].schemas;
         table.schemas == prior
         || (prior != [] && |table.schemas| == |prior| + 1 && prior <= table.schemas
             && Evolves(prior[|prior| - 1], table.schemas[|prior|]))
       else
         && |table.schemas| == 1 && table.schemas[0].version == 1 && table.id > 0
         && (forall k :: k in catalog ==> k < table.id) && (table.id == 1 || table.id - 1 in catalog)
  }

  lemma NameMeans(name: seq<byte>)
    ensures ValidName(name) <==> GoodName(name)
  {
    if GoodName(name) {
      var i :| 0 <= i < |name| && name[i] != 32;
      assert name[i] > 32;
    }
  }

  lemma SchemaMeans(schema: Schema)
    ensures ValidSchema(schema) <==> GoodSchema(schema)
  {
    forall i | 0 <= i < |schema.fields|
      ensures ValidName(schema.fields[i].name) <==> GoodName(schema.fields[i].name)
    {
      NameMeans(schema.fields[i].name);
    }
  }

  lemma KeepsMeans(later: Schema, field: Field)
    ensures Keeps(later, field) <==> KeptIn(field, later)
  {
    if Keeps(later, field) {
      var j :| 0 <= j < |later.fields| && later.fields[j].id == field.id
               && later.fields[j].dataType == field.dataType && later.fields[j].nullable == field.nullable;
      assert SameShape(field, later.fields[j]);
    }
  }

  lemma EvolvesMeans(prior: Schema, later: Schema)
    ensures later.version == prior.version + 1 && Compatible(prior, later) <==> Evolves(prior, later)
  {
    forall i | 0 <= i < |prior.fields| ensures Keeps(later, prior.fields[i]) <==> KeptIn(prior.fields[i], later) {
      KeepsMeans(later, prior.fields[i]);
    }
  }

  /** Exactly the definitions that may be made are accepted. */
  lemma DefineMeans(catalog: Catalog, table: Table)
    requires CatalogOk(catalog)
    ensures ValidateTableChange(catalog, table).Ok? <==> MayDefine(catalog, table)
  {
    NameMeans(table.name);
    forall i | 0 <= i < |table.schemas| ensures ValidSchema(table.schemas[i]) <==> GoodSchema(table.schemas[i]) {
      SchemaMeans(table.schemas[i]);
    }
    if table.schemas != [] && table.id in catalog && catalog[table.id].schemas != [] {
      EvolvesMeans(Latest(catalog[table.id]), Latest(table));
    }
  }

  // ----- one operation of a transaction -----

  /** The entity an operation works on: what the transaction staged, else what its view has. */
  ghost predicate WorksOn(view: View, stage: Stage, key: Key, found: Option<History>) {
    if key in stage.staged then found == Some(stage.staged[key])
    else if key.0 in view.catalog && key in view.entities then found == Some(view.entities[key])
    else found.None?
  }

  /** At most this entity was changed. */
  ghost predicate PutsOnly(before: Stage, key: Key, after: Stage) {
    && after.catalog == before.catalog && after.staged.Keys == before.staged.Keys + {key}
    && forall other :: other in before.staged && other != key ==> after.staged[other] == before.staged[other]
  }

  /** Makes, folded until it is asked for. */
  ghost predicate MakesOf(table: Table, op: Operation, found: Option<History>, lsn: nat, later: History) {
    table.schemas != [] && forall same: History :: same == later ==> Makes(table, op, found, lsn, same)
  }

  /** The operation changes its table or its entity as it should, and nothing else. */
  ghost predicate Effect(view: View, before: Stage, op: Operation, lsn: nat, after: Stage) {
    if op.DefineTable? then
      && MayDefine(before.catalog, op.table)
      && after == Stage(before.catalog[op.table.id := op.table], before.staged)
    else
      && op.key.0 in before.catalog && PutsOnly(before, op.key, after)
      && exists found ::
           WorksOn(view, before, op.key, found)
           && MakesOf(before.catalog[op.key.0], op, found, lsn, after.staged[op.key])
  }

  /** The history an operation works on replays under the newest definition of its table. */
  ghost predicate WorksOnValid(view: View, stage: Stage, key: Key) {
    key.0 in stage.catalog && Loaded(view, stage, key).Some? ==>
      ValidHistory(Loaded(view, stage, key).value, stage.catalog[key.0])
  }

  lemma ExecPuts(view: View, before: Stage, op: Operation, lsn: nat, after: Stage, changed: Result<History>)
    requires !op.DefineTable? && op.key.0 in before.catalog && before.catalog[op.key.0].schemas != []
    requires changed == Change(before.catalog[op.key.0], op, Loaded(view, before, op.key), lsn)
    ensures Exec(view, before, op, lsn) == Ok(after) <==>
            PutsOnly(before, op.key, after) && changed == Ok(after.staged[op.key])
  {
    if PutsOnly(before, op.key, after) {
      assert after.staged == before.staged[op.key := after.staged[op.key]];
    }
  }

  lemma WorksOnLoaded(view: View, stage: Stage, key: Key, found: Option<History>)
    ensures WorksOn(view, stage, key, found) <==> found == Loaded(view, stage, key)
  {
  }

  lemma ChangeMakesOf(table: Table, op: Operation, found: Option<History>, lsn: nat, later: History)
    requires SchemaChain(table.schemas) && !op.DefineTable?
    requires found.Some? ==> ValidHistory(found.value, table)
    ensures Change(table, op, found, lsn) == Ok(later) <==> MakesOf(table, op, found, lsn, later)
  {
    ChangeMakes(table, op, found, lsn, later);
    assert MakesOf(table, op, found, lsn, later) <==> Makes(table, op, found, lsn, later);
  }

  lemma EntityMakes(
    view: View, before: Stage, op: Operation, lsn: nat, after: Stage, found: Option<History>, changed: Result<History>)
    requires !op.DefineTable? && op.key.0 in before.catalog && found == Loaded(view, before, op.key)
    requires Exec(view, before, op, lsn) == Ok(after) <==>
             PutsOnly(before, op.key, after) && changed == Ok(after.staged[op.key])
    requires forall later ::
               changed == Ok(later) <==> MakesOf(before.catalog[op.key.0], op, found, lsn, later)
    ensures Exec(view, before, op, lsn) == Ok(after) <==> Effect(view, before, op, lsn, after)
  {
    WorksOnLoaded(view, before, op.key, found);
    if Effect(view, before, op, lsn, after) {
      var other :| WorksOn(view, before, op.key, other)
                   && MakesOf(before.catalog[op.key.0], op, other, lsn, after.staged[op.key]);
      WorksOnLoaded(view, before, op.key, other);
    }
  }

  /** Executing an operation succeeds with exactly the stage that shows its effect. */
  lemma ExecMakes(view: View, before: Stage, op: Operation, lsn: nat, after: Stage)
    requires CatalogOk(before.catalog) && (!op.DefineTable? ==> WorksOnValid(view, before, op.key))
    ensures Exec(view, before, op, lsn) == Ok(after) <==> Effect(view, before, op, lsn, after)
  {
    if op.DefineTable? {
      DefineMeans(before.catalog, op.table);
    } else if op.key.0 in before.catalog {
      var table, found := before.catalog[op.key.0], Loaded(view, before, op.key);
      assert SchemaChain(table.schemas);
      var changed := Change(table, op, found, lsn);
      ExecPuts(view, before, op, lsn, after, changed);
      forall later ensures changed == Ok(later) <==> MakesOf(table, op, found, lsn, later) {
        ChangeMakesOf(table, op, found, lsn, later);
      }
      EntityMakes(view, before, op, lsn, after, found, changed);
    }
  }

  /** The same, folded until it is asked for. */
  ghost predicate Shows(view: View, before: Stage, op: Operation, lsn: nat, after: Stage) {
    forall same: Operation :: same == op ==> Effect(view, before, same, lsn, after)
  }

  // ----- a whole transaction -----

  /** Each operation had its effect on what the ones before it left. */
  ghost predicate Effects(view: View, ops: seq<Operation>, lsn: nat, stages: seq<Stage>) {
    && |stages| == |ops| + 1 && stages[0] == Stage(view.catalog, map[])
    && forall i :: 0 <= i < |ops| ==> Shows(view, stages[i], ops[i], lsn, stages[i + 1])
  }

  ghost predicate EffectsLeadTo(view: View, ops: seq<Operation>, lsn: nat, after: Stage) {
    exists stages :: Effects(view, ops, lsn, stages) && stages[|ops|] == after
  }

  lemma StagedIsValid(view: View, stage: Stage, key: Key, lsn: nat)
    requires ViewOk(view, lsn) && StageOk(view, stage, lsn)
    ensures WorksOnValid(view, stage, key)
  {
    if key.0 in stage.catalog && key !in stage.staged && key.0 in view.catalog && key in view.entities {
      assert HistoryOk(view.entities[key], key, view.catalog, lsn);
      HistoryUnderExtension(view.entities[key], key, view.catalog, stage.catalog, lsn);
    }
  }

  /** One more operation of a run. */
  lemma StepShows(view: View, ops: seq<Operation>, lsn: nat, before: Stage, op: Operation, after: Stage)
    requires ViewOk(view, lsn) && Run(view, ops, lsn) == Ok(before)
    ensures Exec(view, before, op, lsn) == Ok(after) <==> Shows(view, before, op, lsn, after)
  {
    ExecAllOk(view, Fresh(view), ops, lsn);
    if !op.DefineTable? {
      StagedIsValid(view, before, op.key, lsn);
    }
    ExecMakes(view, before, op, lsn, after);
    assert Shows(view, before, op, lsn, after) <==> Effect(view, before, op, lsn, after);
  }

  lemma {:induction false} RunToEffects(view: View, ops: seq<Operation>, lsn: nat) returns (stages: seq<Stage>)
    requires ViewOk(view, lsn) && Run(view, ops, lsn).Ok?
    ensures Effects(view, ops, lsn, stages) && stages[|ops|] == Run(view, ops, lsn).value
  {
    if ops == [] {
      return [Fresh(view)];
    }
    var n := |ops| - 1;
    var before := RunToEffects(view, ops[..n], lsn);
    var after := Run(view, ops, lsn).value;
    StepShows(view, ops[..n], lsn, before[n], ops[n], after);
    stages := before + [after];
    forall i | 0 <= i < |ops| ensures Shows(view, stages[i], ops[i], lsn, stages[i + 1]) {
      assert i < n ==> Shows(view, before[i], ops[..n][i], lsn, before[i + 1]);
    }
  }

  lemma {:induction false} EffectsRun(view: View, ops: seq<Operation>, lsn: nat, stages: seq<Stage>)
    requires ViewOk(view, lsn) && Effects(view, ops, lsn, stages)
    ensures Run(view, ops, lsn) == Ok(stages[|ops|])
  {
    if ops != [] {
      var n := |ops| - 1;
      EffectsRun(view, ops[..n], lsn, stages[..n + 1]);
      StepShows(view, ops[..n], lsn, stages[n], ops[n], stages[n + 1]);
    }
  }

  /** Running a transaction on a view is exactly having the effects of its operations, one after the other. */
  lemma RunMakes(view: View, ops: seq<Operation>, lsn: nat, after: Stage)
    requires ViewOk(view, lsn)
    ensures Run(view, ops, lsn) == Ok(after) <==> EffectsLeadTo(view, ops, lsn, after)
  {
    if Run(view, ops, lsn) == Ok(after) {
      var stages := RunToEffects(view, ops, lsn);
    }
    if EffectsLeadTo(view, ops, lsn, after) {
      var stages :| Effects(view, ops, lsn, stages) && stages[|ops|] == after;
      EffectsRun(view, ops, lsn, stages);
    }
  }
}
