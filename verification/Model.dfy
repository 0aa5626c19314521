/**
 Typed rows, schema versions, tables and events (model.rs, and the catalog rules of database.rs).

 Text and names are byte strings; the UTF-8 rules are not part of this model.
 */
module Model {
  import opened Results

  datatype DataType = BoolType | Int64Type | UInt64Type | Float64Type | TextType | BytesType

  datatype Value =
    | Null
    | Bool(b: bool)
    | Int64(i: int)
    | UInt64(u: nat)
    | Float64(bits: nat)
    | Text(text: seq<byte>)
    | Bytes(bytes: seq<byte>)

  type Fields = map<nat, Value>

  datatype Field = Field(id: nat, name: seq<byte>, dataType: DataType, nullable: bool)
  datatype Schema = Schema(version: nat, fields: seq<Field>)
  datatype Table = Table(id: nat, name: seq<byte>, schemas: seq<Schema>)
  datatype Entity = Entity(id: nat, version: nat, schemaVersion: nat, deleted: bool, fields: Fields)
  datatype EventKind = Apply | Delete
  datatype Event = Event(version: nat, transaction: nat, schemaVersion: nat, kind: EventKind, fields: Fields)

  type Catalog = map<nat, Table>

  /** MAX_RECORD / 2: the largest encoded field collection. */
  const MAX_ROW: nat := 8 * 1024 * 1024

  /** An IEEE 754 double is finite when its exponent bits are not all ones. */
  predicate Finite(bits: nat) {
    bits / 0x10_0000_0000_0000 % 2048 != 2047
  }

  predicate Matches(value: Value, field: Field) {
    match value
    case Null => field.nullable
    case Bool(_) => field.dataType.BoolType?
    case Int64(_) => field.dataType.Int64Type?
    case UInt64(_) => field.dataType.UInt64Type?
    case Float64(bits) => field.dataType.Float64Type? && Finite(bits)
    case Text(_) => field.dataType.TextType?
    case Bytes(_) => field.dataType.BytesType?
  }

  predicate ValidName(name: seq<byte>) {
    && |name| <= 255
    && (exists i :: 0 <= i < |name| && name[i] > 32)
    && (forall i :: 0 <= i < |name| ==> name[i] >= 32 && name[i] != 127)
  }

  predicate ValidSchema(schema: Schema) {
    && schema.version != 0
    && 0 < |schema.fields| <= 4096
    && (forall i :: 0 <= i < |schema.fields| ==> schema.fields[i].id != 0 && ValidName(schema.fields[i].name))
    && (forall i, j :: 0 <= i < j < |schema.fields| ==>
          schema.fields[i].id != schema.fields[j].id && schema.fields[i].name != schema.fields[j].name)
  }

  predicate Declares(fields: seq<Field>, id: nat, value: Value) {
    exists i :: 0 <= i < |fields| && fields[i].id == id && Matches(value, fields[i])
  }

  /** Every assignment names a declared field and has its type; null only where declared. */
  predicate WellTyped(fields: seq<Field>, row: Fields) {
    forall id :: id in row ==> Declares(fields, id, row[id])
  }

  /** A full row: well typed and with a value for every declared field. */
  predicate CompleteRow(fields: seq<Field>, row: Fields) {
    && WellTyped(fields, row)
    && forall i :: 0 <= i < |fields| ==> fields[i].id in row
  }

  /** Fills omitted nullable fields with null; an omitted required field is an error. */
  function Fill(fields: seq<Field>, row: Fields): Option<Fields> {
    if fields == [] then Some(row)
    else if fields[0].id in row then Fill(fields[1..], row)
    else if fields[0].nullable then Fill(fields[1..], row[fields[0].id := Null])
    else None
  }

  function ValueLength(value: Value): nat {
    match value
    case Null => 0
    case Bool(_) => 1
    case Text(text) => 8 + |text|
    case Bytes(bytes) => 8 + |bytes|
    case _ => 8
  }

  /** Encoded length of the row's entries, taken in schema order. */
  function RowLength(fields: seq<Field>, row: Fields): nat {
    if fields == [] then 0
    else (if fields[0].id in row then 5 + ValueLength(row[fields[0].id]) else 0) + RowLength(fields[1..], row)
  }

  function Normalize(schema: Schema, row: Fields, complete: bool): Result<Fields> {
    if !WellTyped(schema.fields, row) then Err(Invalid)
    else
      match (if complete then Fill(schema.fields, row) else Some(row))
      case None => Err(Invalid)
      case Some(full) => if 8 + RowLength(schema.fields, full) > MAX_ROW then Err(Invalid) else Ok(full)
  }

  function FindSchema(schemas: seq<Schema>, version: nat): Option<Schema> {
    if schemas == [] then None
    else if schemas[0].version == version then Some(schemas[0])
    else FindSchema(schemas[1..], version)
  }

  /** The state an event produces, or the reason it cannot follow this state. */
  function ApplyEvent(state: Entity, event: Event, table: Table): Result<Entity> {
    if state.deleted || state.version >= U64_MAX || event.version != state.version + 1 then Err(Corrupt)
    else
      match FindSchema(table.schemas, event.schemaVersion)
      case None => Err(Corrupt)
      case Some(schema) =>
        match Normalize(schema, state.fields + event.fields, true)
        case Err(e) => Err(e)
        case Ok(fields) => Ok(Entity(state.id, event.version, event.schemaVersion, event.kind.Delete?, fields))
  }

  function Latest(table: Table): Schema
    requires table.schemas != []
  {
    table.schemas[|table.schemas| - 1]
  }

  /** Fields keep identifier, type and nullability; a new field must accept null. */
  predicate Compatible(prior: Schema, later: Schema) {
    && (forall i :: 0 <= i < |prior.fields| ==> KeptIn(prior.fields[i], later))
    && (forall j :: 0 <= j < |later.fields| ==>
          later.fields[j].nullable || exists i :: 0 <= i < |prior.fields| && prior.fields[i].id == later.fields[j].id)
  }

  predicate KeptIn(field: Field, later: Schema) {
    exists j :: 0 <= j < |later.fields| && SameShape(field, later.fields[j])
  }

  predicate SameShape(a: Field, b: Field) {
    a.id == b.id && a.dataType == b.dataType && a.nullable == b.nullable
  }

  /** One past the greatest table identifier, or one for an empty catalog. */
  predicate NextTableId(catalog: Catalog, id: nat) {
    && id > 0
    && (forall k :: k in catalog ==> k < id)
    && (id == 1 || id - 1 in catalog)
  }

  function ValidateTableChange(catalog: Catalog, table: Table): Result<()> {
    if !ValidName(table.name) then Err(Invalid)
    else if exists k :: k in catalog && catalog[k].id != table.id && catalog[k].name == table.name
        then Err(AlreadyExists)
    else if table.schemas == [] then Err(Invalid)
    else if exists i :: 0 <= i < |table.schemas| && !ValidSchema(table.schemas[i]) then Err(Invalid)
    else if table.id in catalog then
      var prior := catalog[table.id];
      if table.schemas == prior.schemas then Ok(())
      else if |table.schemas| != |prior.schemas| + 1 || prior.schemas == []
          || table.schemas[..|prior.schemas|] != prior.schemas
              || Latest(table).version != Latest(prior).version + 1 then Err(Invalid)
      else if !Compatible(Latest(prior), Latest(table)) then Err(Invalid)
      else Ok(())
    else if !NextTableId(catalog, table.id) || |table.schemas| != 1 || table.schemas[0].version != 1 then Err(Invalid)
    else Ok(())
  }

  // ----- what an accepted chain of schemas guarantees -----

  /** Versions are 1, 2, ... and each schema is compatible with its predecessor. */
  predicate SchemaChain(schemas: seq<Schema>) {
    && schemas != []
    && (forall i :: 0 <= i < |schemas| ==> ValidSchema(schemas[i]) && schemas[i].version == i + 1)
    && (forall i :: 0 < i < |schemas| ==> Compatible(schemas[i - 1], schemas[i]))
  }

  predicate CatalogOk(catalog: Catalog) {
    && (forall k :: k in catalog ==> catalog[k].id == k && SchemaChain(catalog[k].schemas))
    && NamesDiffer(catalog)
  }

  /** No two tables have one name. */
  predicate NamesDiffer(catalog: Catalog) {
    forall j, k :: j in catalog && k in catalog && j != k ==> catalog[j].name != catalog[k].name
  }

  /** Tables are numbered one after another from one. */
  ghost predicate NumberedFromOne(catalog: Catalog) {
    forall k :: k in catalog <==> 1 <= k <= |catalog|
  }

  /** A later definition of a table: every earlier schema version is still there. */
  predicate Extends(prior: Table, later: Table) {
    prior.id == later.id && prior.schemas <= later.schemas
  }

  lemma ExtendsThrough(a: Table, b: Table, c: Table)
    requires Extends(a, b) && Extends(b, c)
    ensures Extends(a, c)
  {
    assert c.schemas[..|b.schemas|] == b.schemas;
  }

  predicate CatalogExtends(prior: Catalog, later: Catalog) {
    forall k :: k in prior ==> k in later && Extends(prior[k], later[k])
  }

  /** An accepted change keeps the catalog well formed and keeps every schema version it had. */
  lemma AcceptedChangeExtends(catalog: Catalog, table: Table)
    requires CatalogOk(catalog)
    requires ValidateTableChange(catalog, table).Ok?
    ensures CatalogOk(catalog[table.id := table])
    ensures CatalogExtends(catalog, catalog[table.id := table])
  {
    if table.id in catalog && table.schemas != catalog[table.id].schemas {
      ChainGrows(catalog[table.id].schemas, table.schemas);
    }
  }

  lemma ChainGrows(prior: seq<Schema>, later: seq<Schema>)
    requires SchemaChain(prior) && |later| == |prior| + 1 && later[..|prior|] == prior
    requires ValidSchema(later[|prior|]) && later[|prior|].version == prior[|prior| - 1].version + 1
    requires Compatible(prior[|prior| - 1], later[|prior|])
    ensures SchemaChain(later) && prior <= later
  {
    forall i | 0 <= i < |prior| ensures later[i] == prior[i] {
      assert later[..|prior|][i] == prior[i];
    }
  }

  /** A name that another table has is refused, and so is a name that is not valid. */
  lemma TakenNameIsRefused(catalog: Catalog, table: Table, other: nat)
    requires CatalogOk(catalog) && other in catalog && other != table.id
    ensures catalog[other].name == table.name && ValidName(table.name) ==>
              ValidateTableChange(catalog, table) == Err(AlreadyExists)
    ensures ValidateTableChange(catalog, table).Ok? ==> catalog[other].name != table.name
    ensures ValidateTableChange(catalog, table) == Err(AlreadyExists) ==>
              exists taken :: taken in catalog && taken != table.id && catalog[taken].name == table.name
  {
    assert catalog[other].id == other;
  }

  /** Tables are numbered in the order they are defined: a new one takes the next number. */
  lemma AcceptedTableIsNext(catalog: Catalog, table: Table)
    requires NumberedFromOne(catalog) && ValidateTableChange(catalog, table).Ok?
    ensures table.id in catalog || table.id == |catalog| + 1
    ensures NumberedFromOne(catalog[table.id := table])
  {
    if table.id !in catalog && |catalog| > 0 {
      assert |catalog| in catalog;
    }
  }

  lemma {:induction false} FindSchemaInPrefix(schemas: seq<Schema>, more: seq<Schema>, version: nat)
    requires schemas <= more
    requires FindSchema(schemas, version).Some?
    ensures FindSchema(more, version) == FindSchema(schemas, version)
  {
    if schemas[0].version != version {
      FindSchemaInPrefix(schemas[1..], more[1..], version);
    }
  }

  lemma {:induction false} FindSchemaByVersion(schemas: seq<Schema>, version: nat, offset: nat)
    requires forall i :: 0 <= i < |schemas| ==> schemas[i].version == offset + i + 1
    requires offset < version <= offset + |schemas|
    ensures FindSchema(schemas, version) == Some(schemas[version - offset - 1])
  {
    if schemas[0].version != version {
      FindSchemaByVersion(schemas[1..], version, offset + 1);
    }
  }

  /** Later schema versions never change what a stored event means. */
  lemma ApplyUnderExtension(state: Entity, event: Event, prior: Table, later: Table)
    requires Extends(prior, later)
    requires ApplyEvent(state, event, prior).Ok?
    ensures ApplyEvent(state, event, later) == ApplyEvent(state, event, prior)
  {
    FindSchemaInPrefix(prior.schemas, later.schemas, event.schemaVersion);
  }

  predicate UniqueIds(fields: seq<Field>) {
    forall i, j :: 0 <= i < j < |fields| ==> fields[i].id != fields[j].id
  }

  /** Filling succeeds exactly when no required field is omitted, and adds only declared nulls. */
  lemma {:induction false} FillMeaning(fields: seq<Field>, row: Fields)
    requires UniqueIds(fields)
    ensures Fill(fields, row).Some? <==> forall i :: 0 <= i < |fields| ==> fields[i].id in row || fields[i].nullable
    ensures Fill(fields, row).Some? ==>
              var full := Fill(fields, row).value;
              && (forall i :: 0 <= i < |fields| ==> fields[i].id in full)
              && (forall id :: id in row ==> id in full && full[id] == row[id])
              && (forall id :: id in full && id !in row ==>
                    full[id] == Null && exists i :: 0 <= i < |fields| && fields[i].id == id && fields[i].nullable)
  {
    if fields != [] {
      var rest := fields[1..];
      var head := fields[0];
      var next := if head.id in row then row else row[head.id := Null];
      FillMeaning(rest, next);
      forall i | 0 < i < |fields| ensures (fields[i].id in row <==> fields[i].id in next) && fields[i] == rest[i - 1] {}
      forall i | 0 <= i < |rest| ensures rest[i] == fields[i + 1] {}
    }
  }

  /** Normalising a row accepts exactly the typed, completable rows that fit, and yields a complete row. */
  lemma NormalizeMeaning(schema: Schema, row: Fields)
    requires UniqueIds(schema.fields)
    ensures var full := Fill(schema.fields, row);
            Normalize(schema, row, true).Ok? <==>
              && WellTyped(schema.fields, row)
              && (forall i :: 0 <= i < |schema.fields| ==> schema.fields[i].id in row || schema.fields[i].nullable)
              && full.Some? && 8 + RowLength(schema.fields, full.value) <= MAX_ROW
    ensures Normalize(schema, row, true).Ok? ==> CompleteRow(schema.fields, Normalize(schema, row, true).value)
  {
    FillMeaning(schema.fields, row);
    if Normalize(schema, row, true).Ok? {
      var full := Normalize(schema, row, true).value;
      forall id | id in full ensures Declares(schema.fields, id, full[id]) {
        if id in row {
          assert Declares(schema.fields, id, row[id]);
        }
      }
    }
  }

  lemma ShapeKept(prior: Schema, later: Schema, k: nat) returns (j: nat)
    requires Compatible(prior, later) && k < |prior.fields|
    ensures j < |later.fields| && SameShape(prior.fields[k], later.fields[j])
  {
    assert KeptIn(prior.fields[k], later);
    j :| 0 <= j < |later.fields| && SameShape(prior.fields[k], later.fields[j]);
  }

  lemma {:induction false} ShapeSurvives(schemas: seq<Schema>, lo: nat, hi: nat, i: nat) returns (j: nat)
    requires SchemaChain(schemas)
    requires lo <= hi < |schemas| && i < |schemas[lo].fields|
    ensures j < |schemas[hi].fields| && SameShape(schemas[lo].fields[i], schemas[hi].fields[j])
    decreases hi
  {
    if lo == hi {
      j := i;
    } else {
      var k := ShapeSurvives(schemas, lo, hi - 1, i);
      j := ShapeKept(schemas[hi - 1], schemas[hi], k);
    }
  }

  /** A field that may not be null was there one schema earlier. */
  lemma FieldBefore(prior: Schema, later: Schema, j: nat) returns (k: nat)
    requires Compatible(prior, later) && ValidSchema(later) && j < |later.fields| && !later.fields[j].nullable
    ensures k < |prior.fields| && SameShape(prior.fields[k], later.fields[j])
  {
    k :| 0 <= k < |prior.fields| && prior.fields[k].id == later.fields[j].id;
    var m := ShapeKept(prior, later, k);
    assert m == j;
  }

  lemma {:induction false} NewFieldsAreNullable(schemas: seq<Schema>, lo: nat, hi: nat, j: nat)
    requires SchemaChain(schemas)
    requires lo <= hi < |schemas| && j < |schemas[hi].fields|
    ensures schemas[hi].fields[j].nullable ||
            (exists i :: 0 <= i < |schemas[lo].fields| && schemas[lo].fields[i].id == schemas[hi].fields[j].id)
    decreases hi
  {
    if lo < hi && !schemas[hi].fields[j].nullable {
      var k := FieldBefore(schemas[hi - 1], schemas[hi], j);
      NewFieldsAreNullable(schemas, lo, hi - 1, k);
    }
  }

  /**
   An accepted chain of schemas never invalidates stored data: a complete row of any earlier
   schema, updated by an assignment that is typed for any later one, can fail to normalise
   under that later schema only by its size.
   */
  lemma EvolutionKeepsRowsValid(schemas: seq<Schema>, lo: nat, hi: nat, row: Fields, change: Fields)
    requires SchemaChain(schemas) && lo <= hi < |schemas|
    requires CompleteRow(schemas[lo].fields, row)
    requires WellTyped(schemas[hi].fields, change)
    ensures var full := Fill(schemas[hi].fields, row + change);
            full.Some? &&
            (Normalize(schemas[hi], row + change, true).Ok? <==>
                8 + RowLength(schemas[hi].fields, full.value) <= MAX_ROW)
  {
    var merged := row + change;
    forall id | id in merged ensures Declares(schemas[hi].fields, id, merged[id]) {
      if id in change {
        assert Declares(schemas[hi].fields, id, change[id]);
      } else {
        assert Declares(schemas[lo].fields, id, row[id]);
        StillDeclared(schemas, lo, hi, id, row[id]);
      }
    }
    forall j | 0 <= j < |schemas[hi].fields|
      ensures schemas[hi].fields[j].id in merged || schemas[hi].fields[j].nullable
    {
      NewFieldsAreNullable(schemas, lo, hi, j);
    }
    assert ValidSchema(schemas[hi]);
    FillMeaning(schemas[hi].fields, merged);
    NormalizeMeaning(schemas[hi], merged);
  }

  lemma StillDeclared(schemas: seq<Schema>, lo: nat, hi: nat, id: nat, value: Value)
    requires SchemaChain(schemas) && lo <= hi < |schemas| && Declares(schemas[lo].fields, id, value)
    ensures Declares(schemas[hi].fields, id, value)
  {
    var i :| 0 <= i < |schemas[lo].fields| && schemas[lo].fields[i].id == id
             && Matches(value, schemas[lo].fields[i]);
    var j := ShapeSurvives(schemas, lo, hi, i);
  }
}
