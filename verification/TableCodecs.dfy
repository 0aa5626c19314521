/** The tables whose encodings are read back: the widths of the types, and what validation guarantees. */
module TableLimits {
  import opened Results
  import opened Model

  ghost predicate EncodableFields(fields: seq<Field>) {
    forall i :: 0 <= i < |fields| ==> fields[i].id < 0x1_0000_0000 && |fields[i].name| <= U64_MAX
  }

  ghost predicate EncodableSchema(schema: Schema, i: nat) {
    ValidSchema(schema) && schema.version == i + 1 && EncodableFields(schema.fields)
  }

  ghost predicate EncodableSchemas(schemas: seq<Schema>) {
    |schemas| <= U64_MAX && forall i :: 0 <= i < |schemas| ==> EncodableSchema(schemas[i], i)
  }

  /** What decode_table accepts: the widths of the types, and a table that was validated. */
  ghost predicate EncodableTable(table: Table) {
    && 0 < table.id <= U64_MAX && ValidName(table.name)
    && table.schemas != [] && EncodableSchemas(table.schemas)
  }
}

/**
 The encoding of a table with its schema versions (model.rs).
 */
module TableCodecs {
  import opened Results
  import opened LittleEndian
  import opened ByteStreams
  import opened ItemLists
  import opened RowCodecs
  import opened Model
  import opened TableLimits

  // ----- fields -----

  function TypeTag(dataType: DataType): byte {
    match dataType
    case BoolType => 0
    case Int64Type => 1
    case UInt64Type => 2
    case Float64Type => 3
    case TextType => 4
    case BytesType => 5
  }

  function ParseType(data: seq<byte>, at: nat): Result<Parsed<DataType>> {
    var tag :- ParseLe(data, at, 1);
    match tag.value
    case 0 => Ok(Parsed(BoolType, tag.next))
    case 1 => Ok(Parsed(Int64Type, tag.next))
    case 2 => Ok(Parsed(UInt64Type, tag.next))
    case 3 => Ok(Parsed(Float64Type, tag.next))
    case 4 => Ok(Parsed(TextType, tag.next))
    case 5 => Ok(Parsed(BytesType, tag.next))
    case _ => Err(Corrupt)
  }

  function FieldBytes(field: Field): (r: seq<byte>)
    ensures |r| == FieldLength(field)
  {
    Le(field.id, 4) + (LengthPrefixed(field.name)
        + ([TypeTag(field.dataType)] + ([if field.nullable then 1 else 0] + [])))
  }

  function FieldLength(field: Field): nat {
    14 + |field.name|
  }

  function ParseField(data: seq<byte>, acc: seq<Field>, at: nat): Result<Parsed<seq<Field>>> {
    var id :- ParseLe(data, at, 4);
    var name :- ParseBytes(data, id.next);
    var dataType :- ParseType(data, name.next);
    var nullable :- ParseFlag(data, dataType.next);
    Ok(Parsed(acc + [Field(id.value, name.value, dataType.value, nullable.value)], nullable.next))
  }

  function FieldItem(data: seq<byte>): (seq<Field>, nat) -> Result<Parsed<seq<Field>>> {
    (acc: seq<Field>, at: nat) => ParseField(data, acc, at)
  }

  ghost predicate IsFieldItem(item: (seq<Field>, nat) -> Result<Parsed<seq<Field>>>, data: seq<byte>) {
    forall same: seq<byte> :: same == data ==> item == FieldItem(same)
  }

  lemma FieldParses(data: seq<byte>, acc: seq<Field>, at: nat, field: Field)
    requires Holds(data, at, FieldBytes(field)) && field.id < 0x1_0000_0000 && |field.name| <= U64_MAX
    ensures ParseField(data, acc, at) == Ok(Parsed(acc + [field], at + FieldLength(field)))
  {
    Widths();
    var flag := [if field.nullable then 1 else 0] + [];
    var tail := [TypeTag(field.dataType)] + flag;
    HoldsSplit(data, at, Le(field.id, 4), LengthPrefixed(field.name) + tail);
    HoldsSplit(data, at + 4, LengthPrefixed(field.name), tail);
    LeParses(data, at, field.id, 4);
    BytesParse(data, at + 4, field.name);
    TagParses(data, at + 12 + |field.name|, TypeTag(field.dataType), flag);
    FlagParses(data, at + 13 + |field.name|, field.nullable, []);
  }

  lemma FieldTakes(data: seq<byte>, acc: seq<Field>, at: nat)
    ensures TakesItem(FieldItem(data), FieldLength, acc, at)
  {
  }

  // ----- schemas -----

  lemma FieldsRead(data: seq<byte>, fields: seq<Field>)
    requires EncodableFields(fields)
    ensures ReadsAll(FieldItem(data), FieldBytes, data, fields)
  {
    forall k: nat, at: nat ensures ReadsItem(FieldItem(data), FieldBytes, data, fields, k, at) {
      if k < |fields| && Holds(data, at, FieldBytes(fields[k])) {
        FieldParses(data, fields[..k], at, fields[k]);
      }
    }
  }

  function FieldsBytes(fields: seq<Field>): seq<byte> {
    Counted(FieldBytes, fields)
  }

  function SchemaBytes(schema: Schema): (r: seq<byte>)
    ensures |r| == SchemaLength(schema)
  {
    ManySized(FieldBytes, FieldLength, 14, schema.fields);
    Le(schema.version, 8) + FieldsBytes(schema.fields)
  }

  function SchemaLength(schema: Schema): nat {
    16 + Sum(FieldLength, schema.fields)
  }

  /** One schema version; it must be valid and the next in sequence. */
  function ParseSchema(data: seq<byte>, acc: seq<Schema>, at: nat): Result<Parsed<seq<Schema>>> {
    var version :- ParseLe(data, at, 8);
    var fields :- ParseFields(data, version.next);
    var schema := Schema(version.value, fields.value);
    if !ValidSchema(schema) || version.value != |acc| + 1 then Err(Corrupt) else Ok(Parsed(acc + [schema], fields.next))
  }

  function SchemaItem(data: seq<byte>): (seq<Schema>, nat) -> Result<Parsed<seq<Schema>>> {
    (acc: seq<Schema>, at: nat) => ParseSchema(data, acc, at)
  }

  ghost predicate IsSchemaItem(item: (seq<Schema>, nat) -> Result<Parsed<seq<Schema>>>, data: seq<byte>) {
    forall same: seq<byte> :: same == data ==> item == SchemaItem(same)
  }

  function ParseFields(data: seq<byte>, at: nat): Result<Parsed<seq<Field>>> {
    ParseCounted(FieldItem(data), 14, data, at)
  }

  lemma FieldsSized()
    ensures Sized(FieldBytes, FieldLength, 14)
  {
  }

  lemma FieldsListed(data: seq<byte>, at: nat, fields: seq<Field>, next: nat)
    requires Holds(data, at, FieldsBytes(fields)) && EncodableFields(fields) && |fields| <= U64_MAX
             && next == at + 8 + Sum(FieldLength, fields)
    ensures Listed(FieldItem(data), FieldBytes, FieldLength, 14, data, at, fields, next)
  {
    FieldsRead(data, fields);
    FieldsSized();
  }

  lemma FieldsYield(data: seq<byte>, at: nat, fields: seq<Field>, next: nat)
    requires Listed(FieldItem(data), FieldBytes, FieldLength, 14, data, at, fields, next)
    ensures Yields<seq<Field>>(ParseFields(data, at), fields, next)
  {
    ListParses(FieldItem(data), FieldBytes, FieldLength, 14, data, at, fields, next);
  }

  lemma FieldsParse(data: seq<byte>, at: nat, fields: seq<Field>, next: nat)
    requires Holds(data, at, FieldsBytes(fields)) && EncodableFields(fields) && |fields| <= U64_MAX
             && next == at + 8 + Sum(FieldLength, fields)
    ensures Yields<seq<Field>>(ParseFields(data, at), fields, next)
  {
    FieldsListed(data, at, fields, next);
    FieldsYield(data, at, fields, next);
  }

  lemma SchemaStands(data: seq<byte>, at: nat, schema: Schema)
    requires Holds(data, at, SchemaBytes(schema)) && schema.version <= U64_MAX
    ensures ParseLe(data, at, 8) == Ok(Parsed(schema.version, at + 8))
            && Holds(data, at + 8, FieldsBytes(schema.fields))
  {
    Widths();
    HoldsSplit(data, at, Le(schema.version, 8), FieldsBytes(schema.fields));
    LeParses(data, at, schema.version, 8);
  }

  lemma SchemaYields(data: seq<byte>, acc: seq<Schema>, at: nat, schema: Schema, next: nat)
    requires ParseLe(data, at, 8) == Ok(Parsed(schema.version, at + 8)) && schema.version == |acc| + 1
             && ValidSchema(schema)
    requires Yields<seq<Field>>(ParseFields(data, at + 8), schema.fields, next)
    ensures Yields<seq<Schema>>(ParseSchema(data, acc, at), acc + [schema], next)
  {
  }

  lemma SchemaParses(data: seq<byte>, acc: seq<Schema>, at: nat, schema: Schema, next: nat)
    requires Holds(data, at, SchemaBytes(schema)) && EncodableSchema(schema, |acc|) && |acc| < U64_MAX
             && next == at + SchemaLength(schema)
    ensures Yields<seq<Schema>>(ParseSchema(data, acc, at), acc + [schema], next)
  {
    SchemaStands(data, at, schema);
    FieldsParse(data, at + 8, schema.fields, next);
    SchemaYields(data, acc, at, schema, next);
  }

  lemma SchemaTakes(data: seq<byte>, acc: seq<Schema>, at: nat)
    ensures TakesItem(SchemaItem(data), SchemaLength, acc, at)
  {
    if ParseSchema(data, acc, at).Ok? {
      var n := ParseCount(data, at + 8, 14).value;
      forall before: seq<Field>, x: nat ensures TakesItem(FieldItem(data), FieldLength, before, x) {
        FieldTakes(data, before, x);
      }
      ManyTake(FieldItem(data), FieldLength, n.next, n.value, []);
      var fields := ParseMany<seq<Field>>(FieldItem(data), n.next, n.value, []).value;
      assert fields.value[0..] == fields.value;
    }
  }

  // ----- tables -----

  lemma SchemaGives(
    item: (seq<Schema>, nat) -> Result<Parsed<seq<Schema>>>, data: seq<byte>, acc: seq<Schema>, at: nat, schema: Schema,
    next: nat)
    requires IsSchemaItem(item, data) && EncodableSchema(schema, |acc|) && |acc| < U64_MAX
    requires Holds(data, at, SchemaBytes(schema)) && next == at + SchemaLength(schema)
    ensures Gives<seq<Schema>>(item, at, acc, Parsed(acc + [schema], next))
  {
    SchemaParses(data, acc, at, schema, next);
    assert item == SchemaItem(data);
  }

  lemma SchemaRead(
    item: (seq<Schema>, nat) -> Result<Parsed<seq<Schema>>>, data: seq<byte>, schemas: seq<Schema>, k: nat, at: nat)
    requires IsSchemaItem(item, data) && k < |schemas| <= U64_MAX && EncodableSchema(schemas[k], k)
    ensures ReadsItem(item, SchemaBytes, data, schemas, k, at)
  {
    var bytes := SchemaBytes(schemas[k]);
    if Holds(data, at, bytes) {
      SchemaGives(item, data, schemas[..k], at, schemas[k], at + |bytes|);
    }
    ReadsGiven(item, SchemaBytes, data, schemas, k, at, bytes);
  }

  lemma SchemasRead(item: (seq<Schema>, nat) -> Result<Parsed<seq<Schema>>>, data: seq<byte>, schemas: seq<Schema>)
    requires IsSchemaItem(item, data) && EncodableSchemas(schemas)
    ensures ReadsAll(item, SchemaBytes, data, schemas)
  {
    forall k: nat, at: nat ensures ReadsItem(item, SchemaBytes, data, schemas, k, at) {
      if k < |schemas| {
        SchemaRead(item, data, schemas, k, at);
      }
    }
  }

  function SchemasBytes(schemas: seq<Schema>): seq<byte> {
    Counted(SchemaBytes, schemas)
  }

  function TableBytes(table: Table): (r: seq<byte>)
    ensures |r| == TableLength(table)
  {
    ManySized(SchemaBytes, SchemaLength, 16, table.schemas);
    Le(table.id, 8) + (LengthPrefixed(table.name) + SchemasBytes(table.schemas))
  }

  function TableLength(table: Table): nat {
    24 + |table.name| + Sum(SchemaLength, table.schemas)
  }

  function ParseSchemas(data: seq<byte>, at: nat): Result<Parsed<seq<Schema>>> {
    ParseCounted(SchemaItem(data), 16, data, at)
  }

  function ParseTable(data: seq<byte>, at: nat): Result<Parsed<Table>> {
    var id :- ParseLe(data, at, 8);
    var name :- ParseBytes(data, id.next);
    var schemas :- ParseSchemas(data, name.next);
    if id.value == 0 || schemas.value == [] || !ValidName(name.value) then Err(Corrupt)
    else Ok(Parsed(Table(id.value, name.value, schemas.value), schemas.next))
  }

  lemma SchemasSized()
    ensures Sized(SchemaBytes, SchemaLength, 16)
  {
  }

  lemma SchemasListed(data: seq<byte>, at: nat, schemas: seq<Schema>, next: nat)
    requires Holds(data, at, SchemasBytes(schemas)) && EncodableSchemas(schemas)
             && next == at + 8 + Sum(SchemaLength, schemas)
    ensures Listed(SchemaItem(data), SchemaBytes, SchemaLength, 16, data, at, schemas, next)
  {
    SchemasRead(SchemaItem(data), data, schemas);
    SchemasSized();
  }

  lemma SchemasYield(data: seq<byte>, at: nat, schemas: seq<Schema>, next: nat)
    requires Listed(SchemaItem(data), SchemaBytes, SchemaLength, 16, data, at, schemas, next)
    ensures Yields<seq<Schema>>(ParseSchemas(data, at), schemas, next)
  {
    ListParses(SchemaItem(data), SchemaBytes, SchemaLength, 16, data, at, schemas, next);
  }

  lemma SchemasParse(data: seq<byte>, at: nat, schemas: seq<Schema>, next: nat)
    requires Holds(data, at, SchemasBytes(schemas)) && EncodableSchemas(schemas)
             && next == at + 8 + Sum(SchemaLength, schemas)
    ensures Yields<seq<Schema>>(ParseSchemas(data, at), schemas, next)
  {
    SchemasListed(data, at, schemas, next);
    SchemasYield(data, at, schemas, next);
  }

  lemma TableStands(data: seq<byte>, at: nat, table: Table, name: nat, schemas: nat)
    requires Holds(data, at, TableBytes(table)) && name == at + 8 && schemas == name + 8 + |table.name|
    ensures Holds(data, at, Le(table.id, 8)) && Holds(data, name, LengthPrefixed(table.name))
    ensures Holds(data, schemas, SchemasBytes(table.schemas))
  {
    HoldsSplit(data, at, Le(table.id, 8), LengthPrefixed(table.name) + SchemasBytes(table.schemas));
    HoldsSplit(data, name, LengthPrefixed(table.name), SchemasBytes(table.schemas));
  }

  lemma TableYields(data: seq<byte>, at: nat, table: Table, name: nat, schemas: nat, next: nat)
    requires Yields<nat>(ParseLe(data, at, 8), table.id, name) && table.id > 0
    requires Yields<seq<byte>>(ParseBytes(data, name), table.name, schemas) && ValidName(table.name)
    requires Yields<seq<Schema>>(ParseSchemas(data, schemas), table.schemas, next) && table.schemas != []
    ensures Yields<Table>(ParseTable(data, at), table, next)
  {
  }

  lemma TablePartsParse(data: seq<byte>, at: nat, table: Table, name: nat, schemas: nat, next: nat)
    requires Holds(data, at, Le(table.id, 8)) && Holds(data, name, LengthPrefixed(table.name))
    requires Holds(data, schemas, SchemasBytes(table.schemas)) && EncodableTable(table)
    requires name == at + 8 && schemas == name + 8 + |table.name|
    requires next == schemas + 8 + Sum(SchemaLength, table.schemas)
    ensures Yields<Table>(ParseTable(data, at), table, next)
  {
    WordParses(data, at, table.id, name);
    StringParses(data, name, table.name, schemas);
    SchemasParse(data, schemas, table.schemas, next);
    TableYields(data, at, table, name, schemas, next);
  }

  /** Decoding an encoded table gives it back. */
  lemma TableParses(data: seq<byte>, at: nat, table: Table, next: nat)
    requires Holds(data, at, TableBytes(table)) && EncodableTable(table) && next == at + TableLength(table)
    ensures Yields<Table>(ParseTable(data, at), table, next)
  {
    var name, schemas := at + 8, at + 16 + |table.name|;
    TableStands(data, at, table, name, schemas);
    TablePartsParse(data, at, table, name, schemas, next);
  }

  /** A decoded table took exactly its encoded length. */
  lemma TableTakes(data: seq<byte>, at: nat)
    requires ParseTable(data, at).Ok?
    ensures ParseTable(data, at).value.next == at + TableLength(ParseTable(data, at).value.value)
  {
    var name := ParseBytes(data, at + 8).value;
    var n := ParseCount(data, name.next, 16).value;
    forall before: seq<Schema>, x: nat ensures TakesItem(SchemaItem(data), SchemaLength, before, x) {
      SchemaTakes(data, before, x);
    }
    ManyTake(SchemaItem(data), SchemaLength, n.next, n.value, []);
    var schemas := ParseMany<seq<Schema>>(SchemaItem(data), n.next, n.value, []).value;
    assert schemas.value[0..] == schemas.value;
  }

  // ----- the program's loops -----

  method EncodeField(field: Field, e: Encoder)
    modifies e
    ensures e.bytes == old(e.bytes) + FieldBytes(field)
  {
    e.Unsigned(field.id, 4);
    e.Bytes(field.name);
    e.U8(TypeTag(field.dataType));
    e.U8(if field.nullable then 1 else 0);
  }

  method EncodeSchema(schema: Schema, e: Encoder)
    modifies e
    ensures e.bytes == old(e.bytes) + SchemaBytes(schema)
  {
    e.Unsigned(schema.version, 8);
    EncodeSchemaFields(schema.fields, e);
    Appended(old(e.bytes), Le(schema.version, 8), FieldsBytes(schema.fields));
  }

  method EncodeSchemaFields(fields: seq<Field>, e: Encoder)
    modifies e
    ensures e.bytes == old(e.bytes) + FieldsBytes(fields)
  {
    e.Unsigned(|fields|, 8);
    ghost var before := e.bytes;
    for i := 0 to |fields|
      invariant e.bytes + ManyBytes(FieldBytes, fields[i..]) == before + ManyBytes(FieldBytes, fields)
    {
      ghost var so := e.bytes;
      EncodeField(fields[i], e);
      assert fields[i..][1..] == fields[i + 1..];
      Appended(so, FieldBytes(fields[i]), ManyBytes(FieldBytes, fields[i + 1..]));
    }
    Appended(old(e.bytes), Le(|fields|, 8), ManyBytes(FieldBytes, fields));
  }

  method EncodeTable(table: Table, e: Encoder)
    modifies e
    ensures e.bytes == old(e.bytes) + TableBytes(table)
  {
    e.Unsigned(table.id, 8);
    e.Bytes(table.name);
    EncodeSchemas(table.schemas, e);
    Appended(old(e.bytes), Le(table.id, 8), LengthPrefixed(table.name));
    Appended(old(e.bytes), Le(table.id, 8) + LengthPrefixed(table.name), SchemasBytes(table.schemas));
    Appended(Le(table.id, 8), LengthPrefixed(table.name), SchemasBytes(table.schemas));
  }

  method EncodeSchemas(schemas: seq<Schema>, e: Encoder)
    modifies e
    ensures e.bytes == old(e.bytes) + SchemasBytes(schemas)
  {
    e.Unsigned(|schemas|, 8);
    ghost var before := e.bytes;
    for i := 0 to |schemas|
      invariant e.bytes + ManyBytes(SchemaBytes, schemas[i..]) == before + ManyBytes(SchemaBytes, schemas)
    {
      ghost var so := e.bytes;
      EncodeSchema(schemas[i], e);
      assert schemas[i..][1..] == schemas[i + 1..];
      Appended(so, SchemaBytes(schemas[i]), ManyBytes(SchemaBytes, schemas[i + 1..]));
    }
    Appended(old(e.bytes), Le(|schemas|, 8), ManyBytes(SchemaBytes, schemas));
  }

  method DecodeType(d: Decoder) returns (r: Result<DataType>)
    requires d.Valid()
    modifies d
    ensures d.Valid() && d.Reads(old(d.offset), ParseType(d.data, old(d.offset)), r)
  {
    var tag :- d.Unsigned(1);
    match tag {
      case 0 => return Ok(BoolType);
      case 1 => return Ok(Int64Type);
      case 2 => return Ok(UInt64Type);
      case 3 => return Ok(Float64Type);
      case 4 => return Ok(TextType);
      case 5 => return Ok(BytesType);
      case _ => return Err(Corrupt);
    }
  }

  method DecodeField(d: Decoder, acc: seq<Field>, ghost item: (seq<Field>, nat) -> Result<Parsed<seq<Field>>>)
    returns (r: Result<seq<Field>>)
    requires d.Valid() && IsFieldItem(item, d.data)
    modifies d
    ensures d.Valid() && d.Reads(old(d.offset), item(acc, old(d.offset)), r)
  {
    assert item == FieldItem(d.data);
    var id :- d.Unsigned(4);
    var name :- d.Bytes();
    var dataType :- DecodeType(d);
    var nullable :- DecodeFlag(d);
    return Ok(acc + [Field(id, name, dataType, nullable)]);
  }

  method DecodeSchema(d: Decoder, acc: seq<Schema>, ghost item: (seq<Schema>, nat) -> Result<Parsed<seq<Schema>>>)
    returns (r: Result<seq<Schema>>)
    requires d.Valid() && IsSchemaItem(item, d.data)
    modifies d
    ensures d.Valid() && d.Reads(old(d.offset), item(acc, old(d.offset)), r)
  {
    assert item == SchemaItem(d.data);
    var version :- d.Unsigned(8);
    var fields :- DecodeSchemaFields(d);
    if !ValidSchema(Schema(version, fields)) || version != |acc| + 1 {
      return Err(Corrupt);
    }
    return Ok(acc + [Schema(version, fields)]);
  }

  method DecodeSchemaFields(d: Decoder) returns (r: Result<seq<Field>>)
    requires d.Valid()
    modifies d
    ensures d.Valid() && d.Reads(old(d.offset), ParseFields(d.data, old(d.offset)), r)
  {
    var n :- d.Count(14);
    r := FieldLoop(d, n, FieldItem(d.data));
  }

  method FieldLoop(d: Decoder, n: nat, ghost item: (seq<Field>, nat) -> Result<Parsed<seq<Field>>>)
    returns (r: Result<seq<Field>>)
    requires d.Valid() && IsFieldItem(item, d.data)
    modifies d
    ensures d.Valid() && d.Reads(old(d.offset), ParseMany<seq<Field>>(item, old(d.offset), n, []), r)
  {
    var fields := [];
    for i := 0 to n
      invariant d.Valid()
      invariant Same<seq<Field>>(ParseMany<seq<Field>>(item, d.offset, n - i, fields),
                ParseMany<seq<Field>>(item, old(d.offset), n, []))
    {
      ManyNext<seq<Field>>(item, d.offset, n - i, fields);
      fields :- DecodeField(d, fields, item);
    }
    return Ok(fields);
  }

  method DecodeTable(d: Decoder) returns (r: Result<Table>)
    requires d.Valid()
    modifies d
    ensures d.Valid() && d.Reads(old(d.offset), ParseTable(d.data, old(d.offset)), r)
  {
    var id :- d.Unsigned(8);
    var name :- d.Bytes();
    var schemas :- DecodeSchemas(d);
    if id == 0 || schemas == [] || !ValidName(name) {
      return Err(Corrupt);
    }
    return Ok(Table(id, name, schemas));
  }

  method DecodeSchemas(d: Decoder) returns (r: Result<seq<Schema>>)
    requires d.Valid()
    modifies d
    ensures d.Valid() && d.Reads(old(d.offset), ParseSchemas(d.data, old(d.offset)), r)
  {
    var n :- d.Count(16);
    r := SchemaLoop(d, n, SchemaItem(d.data));
  }

  method SchemaLoop(d: Decoder, n: nat, ghost item: (seq<Schema>, nat) -> Result<Parsed<seq<Schema>>>)
    returns (r: Result<seq<Schema>>)
    requires d.Valid() && IsSchemaItem(item, d.data)
    modifies d
    ensures d.Valid() && d.Reads(old(d.offset), ParseMany<seq<Schema>>(item, old(d.offset), n, []), r)
  {
    var schemas := [];
    for i := 0 to n
      invariant d.Valid()
      invariant Same<seq<Schema>>(ParseMany<seq<Schema>>(item, d.offset, n - i, schemas),
                ParseMany<seq<Schema>>(item, old(d.offset), n, []))
    {
      ManyNext<seq<Schema>>(item, d.offset, n - i, schemas);
      schemas :- DecodeSchema(d, schemas, item);
    }
    return Ok(schemas);
  }
}
