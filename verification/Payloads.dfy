/**
 What a transaction accepted, its frame can carry: every operation that executes encodes to a payload
 that decodes to the same operations (database.rs, model.rs).
 */
module Payloads {
  import opened Results
  import opened Model
  import opened Transactions
  import opened Listings
  import opened RowCodecs
  import opened TableCodecs
  import opened TableLimits
  import opened OperationCodecs

  // ----- the widths of the program's types -----

  predicate ValueWidths(value: Value) {
    match value
    case Int64(i) => -TWO63 <= i < TWO63
    case UInt64(u) => u <= U64_MAX
    case Float64(bits) => bits <= U64_MAX
    case Text(text) => |text| <= U64_MAX
    case Bytes(bytes) => |bytes| <= U64_MAX
    case _ => true
  }

  predicate RowWidths(row: Fields) {
    forall id :: id in row ==> id < 0x1_0000_0000 && ValueWidths(row[id])
  }

  predicate TableWidths(table: Table) {
    && table.id <= U64_MAX && |table.schemas| <= U64_MAX
    && forall i, j :: 0 <= i < |table.schemas| && 0 <= j < |table.schemas[i].fields| ==>
       table.schemas[i].fields[j].id < 0x1_0000_0000
  }

  predicate OperationWidths(op: Operation) {
    match op
    case DefineTable(table) => TableWidths(table)
    case CreateEntity(key, fields) => EncodableKey(key) && RowWidths(fields)
    case ApplyFields(key, fields) => EncodableKey(key) && RowWidths(fields)
    case RetainEvents(key, count) => EncodableKey(key) && count <= U64_MAX
    case _ => EncodableKey(op.key)
  }

  // ----- accepted operations -----

  lemma {:induction false} KeysBound(fields: seq<Field>, keys: set<nat>)
    requires forall id :: id in keys ==> exists i :: 0 <= i < |fields| && fields[i].id == id
    ensures |keys| <= |fields|
  {
    if fields == [] {
      assert keys == {};
    } else {
      var others := keys - {fields[0].id};
      forall id | id in others ensures exists i :: 0 <= i < |fields[1..]| && fields[1..][i].id == id {
        var i :| 0 <= i < |fields| && fields[i].id == id;
        assert fields[1..][i - 1].id == id;
      }
      KeysBound(fields[1..], others);
      assert keys <= others + {fields[0].id};
    }
  }

  lemma WellTypedEncodes(schema: Schema, row: Fields)
    requires ValidSchema(schema) && WellTyped(schema.fields, row) && RowWidths(row)
    ensures EncodableRow(row)
  {
    forall id | id in row ensures EncodableValue(row[id]) {
      assert Declares(schema.fields, id, row[id]);
    }
    forall id | id in row.Keys ensures exists i :: 0 <= i < |schema.fields| && schema.fields[i].id == id {
      assert Declares(schema.fields, id, row[id]);
    }
    KeysBound(schema.fields, row.Keys);
    assert Encodable(row);
  }

  lemma AcceptedTable(catalog: Catalog, table: Table)
    requires CatalogOk(catalog) && 0 !in catalog && ValidateTableChange(catalog, table).Ok? && TableWidths(table)
    ensures EncodableTable(table)
  {
    AcceptedChangeExtends(catalog, table);
    assert catalog[table.id := table][table.id] == table;
    assert SchemaChain(table.schemas);
    forall i | 0 <= i < |table.schemas| ensures EncodableSchema(table.schemas[i], i) {
      forall j | 0 <= j < |table.schemas[i].fields| ensures |table.schemas[i].fields[j].name| <= U64_MAX {
        assert ValidName(table.schemas[i].fields[j].name);
      }
    }
  }

  /** A catalog as the program keeps it: every table was accepted, and 0 is no table. */
  ghost predicate Sane(catalog: Catalog) {
    0 !in catalog && forall same: Catalog :: same == catalog ==> CatalogOk(same)
  }

  lemma AcceptedOperation(base: View, stage: Stage, op: Operation, lsn: nat)
    requires Sane(stage.catalog) && OperationWidths(op) && Exec(base, stage, op, lsn).Ok?
    ensures EncodableOperation(op) && Sane(Exec(base, stage, op, lsn).value.catalog)
  {
    assert CatalogOk(stage.catalog);
    if op.DefineTable? {
      AcceptedTable(stage.catalog, op.table);
      AcceptedChangeExtends(stage.catalog, op.table);
    } else {
      var table := stage.catalog[op.key.0];
      assert SchemaChain(table.schemas);
      if op.CreateEntity? || op.ApplyFields? {
        assert Normalize(Latest(table), op.fields, op.CreateEntity?).Ok?;
        WellTypedEncodes(Latest(table), op.fields);
      }
    }
    assert WithinWidths(op);
  }

  predicate AllWidths(ops: seq<Operation>) {
    forall i :: 0 <= i < |ops| ==> OperationWidths(ops[i])
  }

  ghost predicate AllEncodable(ops: seq<Operation>) {
    forall i :: 0 <= i < |ops| ==> EncodableOperation(ops[i])
  }

  lemma AllEncodableMore(ops: seq<Operation>, n: nat)
    requires |ops| == n + 1 && AllEncodable(ops[..n]) && EncodableOperation(ops[n])
    ensures AllEncodable(ops)
  {
    forall i | 0 <= i < |ops| ensures EncodableOperation(ops[i]) {
      assert i < n ==> ops[..n][i] == ops[i];
    }
  }

  lemma {:induction false} AcceptedOperations(base: View, stage: Stage, ops: seq<Operation>, lsn: nat)
    requires Sane(stage.catalog) && AllWidths(ops) && ExecAll(base, stage, ops, lsn).Ok?
    ensures AllEncodable(ops) && Sane(ExecAll(base, stage, ops, lsn).value.catalog)
  {
    if ops != [] {
      var n := |ops| - 1;
      AcceptedOperations(base, stage, ops[..n], lsn);
      AcceptedOperation(base, ExecAll(base, stage, ops[..n], lsn).value, ops[n], lsn);
      AllEncodableMore(ops, n);
    }
  }

  /** What a transaction accepted reads back from its frame, operation by operation. */
  lemma AcceptedPayloadReadsBack(view: View, ops: seq<Operation>, lsn: nat)
    requires Sane(view.catalog) && 0 < |ops| <= U64_MAX && AllWidths(ops)
    requires Run(view, ops, lsn).Ok?
    ensures ParsePayload(Payload(ops)) == Ok(ops)
  {
    AcceptedOperations(view, Fresh(view), ops, lsn);
    PayloadRoundTrip(ops);
  }

  // ----- the row limit -----

  /** The identifiers of a row's entries in schema order. */
  function Present(fields: seq<Field>, row: Fields): (ids: seq<nat>)
    ensures Within(ids, row)
  {
    if fields == [] then [] else (if fields[0].id in row then [fields[0].id] else []) + Present(fields[1..], row)
  }

  predicate Named(fields: seq<Field>, id: nat) {
    exists i :: 0 <= i < |fields| && fields[i].id == id
  }

  lemma NamedSplit(fields: seq<Field>, id: nat)
    requires fields != []
    ensures Named(fields, id) <==> id == fields[0].id || Named(fields[1..], id)
  {
    if Named(fields, id) && id != fields[0].id {
      var i :| 0 <= i < |fields| && fields[i].id == id;
      assert fields[1..][i - 1].id == id;
    }
  }

  lemma {:induction false} PresentMeans(fields: seq<Field>, row: Fields)
    requires UniqueIds(fields)
    ensures Distinct(Present(fields, row)) && RowLength(fields, row) == EntriesLength(Present(fields, row), row)
    ensures forall id: nat :: id in Present(fields, row) <==> id in row && Named(fields, id)
  {
    if fields != [] {
      var rest := Present(fields[1..], row);
      PresentMeans(fields[1..], row);
      assert Present(fields, row)[if fields[0].id in row then 1 else 0..] == rest;
      forall id: nat ensures Named(fields, id) <==> id == fields[0].id || Named(fields[1..], id) {
        NamedSplit(fields, id);
      }
      assert !Named(fields[1..], fields[0].id);
    }
  }

  /** The length a schema counts for a row is the length of the row's encoding. */
  lemma RowLengthIsEncoded(fields: seq<Field>, row: Fields)
    requires UniqueIds(fields) && WellTyped(fields, row)
    ensures |RowBytes(row)| == 8 + RowLength(fields, row)
  {
    var ids := Present(fields, row);
    PresentMeans(fields, row);
    forall id | id in row ensures id in ids {
      assert Declares(fields, id, row[id]);
      assert Named(fields, id);
    }
    ListsFrom(ids, row.Keys);
    SameLength(ids, Sorted(row.Keys), row.Keys, row);
  }

  lemma ListsFrom(ids: seq<nat>, s: set<nat>)
    requires Distinct(ids) && forall id :: id in s <==> id in ids
    ensures Lists(ids, s)
  {
    forall id ensures multiset(ids)[id] == multiset(s)[id] {
      Occurrences(ids, id);
    }
    assert Permutes(ids, s);
  }

  lemma {:induction false} Occurrences(ids: seq<nat>, id: nat)
    requires Distinct(ids)
    ensures multiset(ids)[id] == if id in ids then 1 else 0
  {
    if ids != [] {
      assert ids == [ids[0]] + ids[1..];
      Occurrences(ids[1..], id);
    }
  }

  /** A row that normalises fits the record limit as it is stored. */
  lemma NormalizedRowFits(schema: Schema, row: Fields)
    requires ValidSchema(schema) && Normalize(schema, row, true).Ok?
    ensures |RowBytes(Normalize(schema, row, true).value)| <= MAX_ROW
  {
    NormalizeMeaning(schema, row);
    RowLengthIsEncoded(schema.fields, Normalize(schema, row, true).value);
  }
}
