/**
 The payload of a transaction frame (database.rs): its operations, one after the other.
 */
module OperationCodecs {
  import opened Results
  import opened LittleEndian
  import opened ByteStreams
  import opened ItemLists
  import opened RowCodecs
  import opened TableCodecs
  import opened TableLimits
  import opened Model
  import opened Transactions

  function KeyBytes(key: Key): (r: seq<byte>)
    ensures |r| == 16
  {
    Le(key.0, 8) + Le(key.1, 8)
  }

  function ParseKey(data: seq<byte>, at: nat): (r: Result<Parsed<Key>>)
    ensures r.Ok? ==> r.value.next == at + 16
  {
    var table :- ParseLe(data, at, 8);
    var id :- ParseLe(data, table.next, 8);
    Ok(Parsed((table.value, id.value), id.next))
  }

  predicate EncodableKey(key: Key) {
    key.0 <= U64_MAX && key.1 <= U64_MAX
  }

  lemma KeyParses(data: seq<byte>, at: nat, key: Key)
    requires Holds(data, at, KeyBytes(key)) && EncodableKey(key)
    ensures ParseKey(data, at) == Ok(Parsed(key, at + 16))
  {
    Widths();
    HoldsSplit(data, at, Le(key.0, 8), Le(key.1, 8));
    LeParses(data, at, key.0, 8);
    LeParses(data, at + 8, key.1, 8);
  }

  // ----- one operation -----

  function Tag(op: Operation): byte {
    match op
    case DefineTable(_) => 0
    case CreateEntity(_, _) => 1
    case ApplyFields(_, _) => 2
    case DeleteEntity(_) => 3
    case RetainEvents(_, _) => 4
    case TakeSnapshot(_) => 5
  }

  /** Operation::encoded_len. */
  function OperationLength(op: Operation): nat {
    match op
    case DefineTable(table) => 1 + TableLength(table)
    case CreateEntity(_, fields) => 17 + |RowBytes(fields)|
    case ApplyFields(_, fields) => 17 + |RowBytes(fields)|
    case RetainEvents(_, _) => 25
    case _ => 17
  }

  function BodyBytes(op: Operation): (r: seq<byte>)
    ensures 1 + |r| == OperationLength(op)
  {
    match op
    case DefineTable(table) => TableBytes(table)
    case CreateEntity(key, fields) => KeyBytes(key) + RowBytes(fields)
    case ApplyFields(key, fields) => KeyBytes(key) + RowBytes(fields)
    case DeleteEntity(key) => KeyBytes(key)
    case RetainEvents(key, count) => KeyBytes(key) + Le(count, 8)
    case TakeSnapshot(key) => KeyBytes(key)
  }

  function OperationBytes(op: Operation): (r: seq<byte>)
    ensures |r| == OperationLength(op)
  {
    [Tag(op)] + BodyBytes(op)
  }

  function ParseKeyRow(data: seq<byte>, at: nat): Result<Parsed<(Key, Fields)>> {
    var key :- ParseKey(data, at);
    var row :- ParseRow(data, key.next);
    Ok(Parsed((key.value, row.value), row.next))
  }

  function ParseBody(tag: nat, data: seq<byte>, at: nat): Result<Parsed<Operation>> {
    match tag
    case 0 => var table :- ParseTable(data, at); Ok(Parsed(DefineTable(table.value), table.next))
    case 1 => var both :- ParseKeyRow(data, at); Ok(Parsed(CreateEntity(both.value.0, both.value.1), both.next))
    case 2 => var both :- ParseKeyRow(data, at); Ok(Parsed(ApplyFields(both.value.0, both.value.1), both.next))
    case 3 => var key :- ParseKey(data, at); Ok(Parsed(DeleteEntity(key.value), key.next))
    case 4 =>
      var key :- ParseKey(data, at);
      var count :- ParseLe(data, key.next, 8);
      Ok(Parsed(RetainEvents(key.value, count.value), count.next))
    case 5 => var key :- ParseKey(data, at); Ok(Parsed(TakeSnapshot(key.value), key.next))
    case _ => Err(Corrupt)
  }

  function ParseOperation(data: seq<byte>, acc: seq<Operation>, at: nat): Result<Parsed<seq<Operation>>> {
    var tag :- ParseLe(data, at, 1);
    var op :- ParseBody(tag.value, data, tag.next);
    Ok(Parsed(acc + [op.value], op.next))
  }

  ghost predicate EncodableOperation(op: Operation) {
    forall same: Operation :: same == op ==> WithinWidths(same)
  }

  ghost predicate WithinWidths(op: Operation) {
    match op
    case DefineTable(table) => EncodableTable(table)
    case CreateEntity(key, fields) => EncodableKey(key) && EncodableRow(fields)
    case ApplyFields(key, fields) => EncodableKey(key) && EncodableRow(fields)
    case DeleteEntity(key) => EncodableKey(key)
    case RetainEvents(key, count) => EncodableKey(key) && count <= U64_MAX
    case TakeSnapshot(key) => EncodableKey(key)
  }

  lemma KeyRowParses(data: seq<byte>, at: nat, key: Key, row: Fields, middle: nat, next: nat)
    requires Holds(data, at, KeyBytes(key) + RowBytes(row)) && EncodableKey(key) && EncodableRow(row)
    requires middle == at + 16 && next == middle + |RowBytes(row)|
    ensures Yields<(Key, Fields)>(ParseKeyRow(data, at), (key, row), next)
  {
    HoldsSplit(data, at, KeyBytes(key), RowBytes(row));
    KeyYields(data, at, key, middle);
    RowParses(data, middle, row, next);
    KeyRowYields(data, at, key, row, middle, next);
  }

  lemma KeyYields(data: seq<byte>, at: nat, key: Key, next: nat)
    requires Holds(data, at, KeyBytes(key)) && EncodableKey(key) && next == at + 16
    ensures Yields<Key>(ParseKey(data, at), key, next)
  {
    KeyParses(data, at, key);
  }

  lemma KeyRowYields(data: seq<byte>, at: nat, key: Key, row: Fields, middle: nat, next: nat)
    requires Yields<Key>(ParseKey(data, at), key, middle) && Yields<Fields>(ParseRow(data, middle), row, next)
    ensures Yields<(Key, Fields)>(ParseKeyRow(data, at), (key, row), next)
  {
  }

  lemma BodyParses(data: seq<byte>, at: nat, op: Operation, next: nat)
    requires Holds(data, at, BodyBytes(op)) && WithinWidths(op) && next == at + |BodyBytes(op)|
    ensures Yields<Operation>(ParseBody(Tag(op) as nat, data, at), op, next)
  {
    match op
    case DefineTable(table) => TableParses(data, at, table, next);
    case CreateEntity(key, fields) => KeyRowParses(data, at, key, fields, at + 16, next);
    case ApplyFields(key, fields) => KeyRowParses(data, at, key, fields, at + 16, next);
    case DeleteEntity(key) => KeyParses(data, at, key);
    case RetainEvents(key, count) =>
      Widths();
      HoldsSplit(data, at, KeyBytes(key), Le(count, 8));
      KeyParses(data, at, key);
      LeParses(data, at + 16, count, 8);
    case TakeSnapshot(key) => KeyParses(data, at, key);
  }

  lemma OperationYields(data: seq<byte>, acc: seq<Operation>, at: nat, op: Operation, next: nat)
    requires ParseLe(data, at, 1) == Ok(Parsed(Tag(op) as nat, at + 1))
    requires Yields<Operation>(ParseBody(Tag(op) as nat, data, at + 1), op, next)
    ensures Yields<seq<Operation>>(ParseOperation(data, acc, at), acc + [op], next)
  {
  }

  lemma OperationParses(data: seq<byte>, acc: seq<Operation>, at: nat, op: Operation, next: nat)
    requires Holds(data, at, OperationBytes(op)) && EncodableOperation(op) && next == at + OperationLength(op)
    ensures Yields<seq<Operation>>(ParseOperation(data, acc, at), acc + [op], next)
  {
    TagParses(data, at, Tag(op), BodyBytes(op));
    assert WithinWidths(op);
    BodyParses(data, at + 1, op, next);
    OperationYields(data, acc, at, op, next);
  }

  /** A decoded operation took exactly its encoded length. */
  lemma BodyTakes(tag: nat, data: seq<byte>, at: nat)
    requires ParseBody(tag, data, at).Ok?
    ensures ParseBody(tag, data, at).value.next + 1 == at + OperationLength(ParseBody(tag, data, at).value.value)
  {
    if tag == 0 {
      TableTakes(data, at);
    } else if tag == 1 || tag == 2 {
      RowTakes(data, at + 16);
    }
  }

  // ----- a payload -----

  function OperationItem(data: seq<byte>): (seq<Operation>, nat) -> Result<Parsed<seq<Operation>>> {
    (acc: seq<Operation>, at: nat) => ParseOperation(data, acc, at)
  }

  ghost predicate IsOperationItem(item: (seq<Operation>, nat) -> Result<Parsed<seq<Operation>>>, data: seq<byte>) {
    forall same: seq<byte> :: same == data ==> item == OperationItem(same)
  }

  /** encode_ops. */
  function Payload(ops: seq<Operation>): (r: seq<byte>)
    ensures |r| == 8 + Sum(OperationLength, ops)
  {
    OperationsSized();
    ManySized(OperationBytes, OperationLength, 1, ops);
    Counted(OperationBytes, ops)
  }

  /** The bytes reserved are the payload's; a quantifier keeps the payload folded. */
  ghost predicate Reserves(bytes: nat, ops: seq<Operation>) {
    forall same: seq<Operation> :: same == ops ==> bytes == |Payload(same)|
  }

  lemma ReservesNone()
    ensures Reserves(8, [])
  {
  }

  lemma ReservesMore(bytes: nat, ops: seq<Operation>, op: Operation)
    requires Reserves(bytes, ops)
    ensures Reserves(bytes + OperationLength(op), ops + [op])
  {
    assert bytes == |Payload(ops)|;
    SumOneMore(OperationLength, ops, op);
  }

  /** decode_ops. */
  function ParsePayload(data: seq<byte>): Result<seq<Operation>> {
    var ops :- ParseCounted(OperationItem(data), 1, data, 0);
    if ops.value == [] || ops.next != |data| then Err(Corrupt) else Ok(ops.value)
  }

  ghost predicate EncodableOperations(ops: seq<Operation>) {
    |ops| <= U64_MAX && forall i :: 0 <= i < |ops| ==> EncodableOperation(ops[i])
  }

  lemma OperationsSized()
    ensures Sized(OperationBytes, OperationLength, 1)
  {
  }

  lemma OperationsRead(
    item: (seq<Operation>, nat) -> Result<Parsed<seq<Operation>>>, data: seq<byte>, ops: seq<Operation>)
    requires IsOperationItem(item, data) && EncodableOperations(ops)
    ensures ReadsAll(item, OperationBytes, data, ops)
  {
    forall k: nat, at: nat ensures ReadsItem(item, OperationBytes, data, ops, k, at) {
      if k < |ops| {
        OperationRead(item, data, ops, k, at);
      }
    }
  }

  lemma OperationRead(
    item: (seq<Operation>, nat) -> Result<Parsed<seq<Operation>>>, data: seq<byte>, ops: seq<Operation>, k: nat,
    at: nat)
    requires k < |ops| && EncodableOperation(ops[k]) && IsOperationItem(item, data)
    ensures ReadsItem(item, OperationBytes, data, ops, k, at)
  {
    var bytes := OperationBytes(ops[k]);
    if Holds(data, at, bytes) {
      OperationGives(item, data, ops[..k], at, ops[k], at + |bytes|);
    }
    ReadsGiven(item, OperationBytes, data, ops, k, at, bytes);
  }

  lemma OperationGives(
    item: (seq<Operation>, nat) -> Result<Parsed<seq<Operation>>>, data: seq<byte>, acc: seq<Operation>, at: nat,
    op: Operation, next: nat)
    requires IsOperationItem(item, data)
    requires Holds(data, at, OperationBytes(op)) && EncodableOperation(op) && next == at + |OperationBytes(op)|
    ensures Gives<seq<Operation>>(item, at, acc, Parsed(acc + [op], next))
  {
    OperationParses(data, acc, at, op, next);
    ItemGives(item, data, acc, at, op, next);
  }

  lemma ItemGives(
    item: (seq<Operation>, nat) -> Result<Parsed<seq<Operation>>>, data: seq<byte>, acc: seq<Operation>, at: nat,
    op: Operation, next: nat)
    requires IsOperationItem(item, data) && Yields<seq<Operation>>(ParseOperation(data, acc, at), acc + [op], next)
    ensures Gives<seq<Operation>>(item, at, acc, Parsed(acc + [op], next))
  {
    assert item == OperationItem(data);
  }

  lemma OperationsListed(data: seq<byte>, ops: seq<Operation>)
    requires data == Payload(ops) && EncodableOperations(ops)
    ensures Listed(OperationItem(data), OperationBytes, OperationLength, 1, data, 0, ops, |data|)
  {
    assert Stands(data, 0, Counted(OperationBytes, ops)) by {
      assert data[0..0 + |data|] == data;
    }
    OperationsRead(OperationItem(data), data, ops);
    OperationsSized();
  }

  lemma OperationsYield(data: seq<byte>, ops: seq<Operation>)
    requires Listed(OperationItem(data), OperationBytes, OperationLength, 1, data, 0, ops, |data|) && ops != []
    ensures ParsePayload(data) == Ok(ops)
  {
    ListParses(OperationItem(data), OperationBytes, OperationLength, 1, data, 0, ops, |data|);
  }

  /** Recovery reads back exactly the operations a commit wrote. */
  lemma PayloadRoundTrip(ops: seq<Operation>)
    requires EncodableOperations(ops) && ops != []
    ensures ParsePayload(Payload(ops)) == Ok(ops)
  {
    OperationsListed(Payload(ops), ops);
    OperationsYield(Payload(ops), ops);
  }

  lemma OperationTakes(data: seq<byte>, acc: seq<Operation>, at: nat)
    ensures TakesItem(OperationItem(data), OperationLength, acc, at)
  {
    if ParseOperation(data, acc, at).Ok? {
      var tag := ParseLe(data, at, 1).value;
      BodyTakes(tag.value, data, tag.next);
    }
  }

  /** Whatever bytes are accepted as a payload are as long as the accounting of its operations says. */
  lemma PayloadTakes(data: seq<byte>)
    requires ParsePayload(data).Ok?
    ensures |data| == 8 + Sum(OperationLength, ParsePayload(data).value)
  {
    var n := ParseCount(data, 0, 1).value;
    forall before: seq<Operation>, x: nat ensures TakesItem(OperationItem(data), OperationLength, before, x) {
      OperationTakes(data, before, x);
    }
    ManyTake(OperationItem(data), OperationLength, n.next, n.value, []);
    var ops := ParsePayload(data).value;
    assert ops[0..] == ops;
  }

  // ----- the program's loops -----

  method EncodeKey(key: Key, e: Encoder)
    modifies e
    ensures e.bytes == old(e.bytes) + KeyBytes(key)
  {
    e.Unsigned(key.0, 8);
    e.Unsigned(key.1, 8);
    Appended(old(e.bytes), Le(key.0, 8), Le(key.1, 8));
  }

  method EncodeBody(op: Operation, e: Encoder)
    modifies e
    ensures e.bytes == old(e.bytes) + BodyBytes(op)
  {
    if op.DefineTable? {
      EncodeTable(op.table, e);
      return;
    }
    EncodeKey(op.key, e);
    match op {
      case CreateEntity(key, fields) =>
        EncodeFields(fields, e);
        Appended(old(e.bytes), KeyBytes(key), RowBytes(fields));
      case ApplyFields(key, fields) =>
        EncodeFields(fields, e);
        Appended(old(e.bytes), KeyBytes(key), RowBytes(fields));
      case RetainEvents(key, count) =>
        e.Unsigned(count, 8);
        Appended(old(e.bytes), KeyBytes(key), Le(count, 8));
      case _ =>
    }
  }

  method EncodeOperations(ops: seq<Operation>) returns (bytes: seq<byte>)
    ensures bytes == Payload(ops)
  {
    var e := new Encoder();
    e.Unsigned(|ops|, 8);
    assert e.bytes == Le(|ops|, 8);
    ghost var before := e.bytes;
    for i := 0 to |ops|
      invariant e.bytes + ManyBytes(OperationBytes, ops[i..]) == before + ManyBytes(OperationBytes, ops)
    {
      ghost var so := e.bytes;
      e.U8(Tag(ops[i]));
      EncodeBody(ops[i], e);
      Appended(so, [Tag(ops[i])], BodyBytes(ops[i]));
      assert ops[i..][1..] == ops[i + 1..];
      Appended(so, OperationBytes(ops[i]), ManyBytes(OperationBytes, ops[i + 1..]));
    }
    bytes := e.bytes;
  }

  method DecodeKey(d: Decoder) returns (r: Result<Key>)
    requires d.Valid()
    modifies d
    ensures d.Valid() && d.Reads(old(d.offset), ParseKey(d.data, old(d.offset)), r)
  {
    var table :- d.Unsigned(8);
    var id :- d.Unsigned(8);
    return Ok((table, id));
  }

  method DecodeKeyRow(d: Decoder) returns (r: Result<(Key, Fields)>)
    requires d.Valid()
    modifies d
    ensures d.Valid() && d.Reads(old(d.offset), ParseKeyRow(d.data, old(d.offset)), r)
  {
    var key :- DecodeKey(d);
    var row :- DecodeFields(d);
    return Ok((key, row));
  }

  method DecodeBody(tag: nat, d: Decoder) returns (r: Result<Operation>)
    requires d.Valid()
    modifies d
    ensures d.Valid() && d.Reads(old(d.offset), ParseBody(tag, d.data, old(d.offset)), r)
  {
    match tag {
      case 0 =>
        var table :- DecodeTable(d);
        return Ok(DefineTable(table));
      case 1 =>
        var both :- DecodeKeyRow(d);
        return Ok(CreateEntity(both.0, both.1));
      case 2 =>
        var both :- DecodeKeyRow(d);
        return Ok(ApplyFields(both.0, both.1));
      case 3 =>
        var key :- DecodeKey(d);
        return Ok(DeleteEntity(key));
      case 4 =>
        var key :- DecodeKey(d);
        var count :- d.Unsigned(8);
        return Ok(RetainEvents(key, count));
      case 5 =>
        var key :- DecodeKey(d);
        return Ok(TakeSnapshot(key));
      case _ => return Err(Corrupt);
    }
  }

  method DecodeOperation(
    d: Decoder, acc: seq<Operation>, ghost item: (seq<Operation>, nat) -> Result<Parsed<seq<Operation>>>)
    returns (r: Result<seq<Operation>>)
    requires d.Valid() && IsOperationItem(item, d.data)
    modifies d
    ensures d.Valid() && d.Reads(old(d.offset), item(acc, old(d.offset)), r)
  {
    assert item == OperationItem(d.data);
    var tag :- d.Unsigned(1);
    var op :- DecodeBody(tag, d);
    return Ok(acc + [op]);
  }

  method OperationLoop(d: Decoder, n: nat, ghost item: (seq<Operation>, nat) -> Result<Parsed<seq<Operation>>>)
    returns (r: Result<seq<Operation>>)
    requires d.Valid() && IsOperationItem(item, d.data)
    modifies d
    ensures d.Valid() && d.Reads(old(d.offset), ParseMany<seq<Operation>>(item, old(d.offset), n, []), r)
  {
    var ops := [];
    for i := 0 to n
      invariant d.Valid()
      invariant Same<seq<Operation>>(ParseMany<seq<Operation>>(item, d.offset, n - i, ops),
                ParseMany<seq<Operation>>(item, old(d.offset), n, []))
    {
      ManyNext<seq<Operation>>(item, d.offset, n - i, ops);
      ops :- DecodeOperation(d, ops, item);
    }
    return Ok(ops);
  }

  method DecodeOperations(bytes: seq<byte>) returns (r: Result<seq<Operation>>)
    ensures r == ParsePayload(bytes)
  {
    var d := new Decoder(bytes);
    var n :- d.Count(1);
    if n == 0 {
      return Err(Corrupt);
    }
    var ops :- OperationLoop(d, n, OperationItem(bytes));
    ManyCount(bytes, n, ops);
    if d.offset != |d.data| {
      return Err(Corrupt);
    }
    return Ok(ops);
  }

  /** As many operations as were announced. */
  lemma ManyCount(data: seq<byte>, n: nat, ops: seq<Operation>)
    requires ParseMany<seq<Operation>>(OperationItem(data), 8, n, []).Ok?
             && ParseMany<seq<Operation>>(OperationItem(data), 8, n, []).value.value == ops
    ensures |ops| == n
  {
    forall before: seq<Operation>, x: nat ensures TakesItem(OperationItem(data), OperationLength, before, x) {
      OperationTakes(data, before, x);
    }
    ManyTake(OperationItem(data), OperationLength, 8, n, []);
  }
}
