/**
 The records of entities and events (model.rs): three numbers, a one-byte tag and a row, and nothing after.
 */
module RecordCodecs {
  import opened Results
  import opened LittleEndian
  import opened ByteStreams
  import opened RowCodecs
  import opened Model

  /** What both kinds of record consist of. */
  datatype Parts = Parts(a: nat, b: nat, c: nat, tag: bool, row: Fields)

  ghost predicate EncodableParts(p: Parts) {
    p.a <= U64_MAX && p.b <= U64_MAX && p.c <= U64_MAX && EncodableRow(p.row)
  }

  function TailBytes(tag: bool, row: Fields): (r: seq<byte>)
    ensures |r| == 1 + |RowBytes(row)|
  {
    [if tag then 1 else 0] + RowBytes(row)
  }

  function PartsBytes(p: Parts): (r: seq<byte>)
    ensures |r| == 25 + |RowBytes(p.row)|
  {
    Le(p.a, 8) + (Le(p.b, 8) + (Le(p.c, 8) + TailBytes(p.tag, p.row)))
  }

  function ParseTail(data: seq<byte>, at: nat): Result<Parsed<(bool, Fields)>> {
    var tag :- ParseFlag(data, at);
    var row :- ParseRow(data, tag.next);
    Ok(Parsed((tag.value, row.value), row.next))
  }

  /** A whole record: nothing may follow the row. */
  function ParseParts(data: seq<byte>): Result<Parts> {
    var a :- ParseLe(data, 0, 8);
    var b :- ParseLe(data, a.next, 8);
    var c :- ParseLe(data, b.next, 8);
    var tail :- ParseTail(data, c.next);
    if tail.next != |data| then Err(Corrupt) else Ok(Parts(a.value, b.value, c.value, tail.value.0, tail.value.1))
  }

  lemma TailParses(data: seq<byte>, at: nat, tag: bool, row: Fields, next: nat)
    requires Holds(data, at, TailBytes(tag, row)) && EncodableRow(row) && next == at + 1 + |RowBytes(row)|
    ensures Yields<(bool, Fields)>(ParseTail(data, at), (tag, row), next)
  {
    FlagParses(data, at, tag, RowBytes(row));
    RowParses(data, at + 1, row, next);
  }

  /** Where the four parts stand. */
  lemma PartsStand(data: seq<byte>, p: Parts)
    requires Holds(data, 0, PartsBytes(p))
    ensures Holds(data, 0, Le(p.a, 8)) && Holds(data, 8, Le(p.b, 8)) && Holds(data, 16, Le(p.c, 8))
    ensures Holds(data, 24, TailBytes(p.tag, p.row))
  {
    var tail := TailBytes(p.tag, p.row);
    HoldsSplit(data, 0, Le(p.a, 8), Le(p.b, 8) + (Le(p.c, 8) + tail));
    HoldsSplit(data, 8, Le(p.b, 8), Le(p.c, 8) + tail);
    HoldsSplit(data, 16, Le(p.c, 8), tail);
  }

  lemma PartsYield(data: seq<byte>, p: Parts)
    requires Yields<nat>(ParseLe(data, 0, 8), p.a, 8) && Yields<nat>(ParseLe(data, 8, 8), p.b, 16)
    requires Yields<nat>(ParseLe(data, 16, 8), p.c, 24)
    requires Yields<(bool, Fields)>(ParseTail(data, 24), (p.tag, p.row), |data|)
    ensures ParseParts(data) == Ok(p)
  {
  }

  lemma PartsParse(data: seq<byte>, p: Parts)
    requires Holds(data, 0, PartsBytes(p)) && |data| == |PartsBytes(p)| && EncodableParts(p)
    ensures ParseParts(data) == Ok(p)
  {
    PartsStand(data, p);
    WordParses(data, 0, p.a, 8);
    WordParses(data, 8, p.b, 16);
    WordParses(data, 16, p.c, 24);
    TailParses(data, 24, p.tag, p.row, |data|);
    PartsYield(data, p);
  }

  lemma PartsTake(data: seq<byte>)
    requires ParseParts(data).Ok?
    ensures |data| == |PartsBytes(ParseParts(data).value)|
  {
    RowTakes(data, 25);
  }

  // ----- entities and events -----

  function OfEntity(e: Entity): Parts {
    Parts(e.id, e.version, e.schemaVersion, e.deleted, e.fields)
  }

  function ToEntity(p: Parts): Entity {
    Entity(p.a, p.b, p.c, p.tag, p.row)
  }

  function OfEvent(e: Event): Parts {
    Parts(e.version, e.transaction, e.schemaVersion, e.kind == EventKind.Delete, e.fields)
  }

  function ToEvent(p: Parts): Event {
    Event(p.a, p.b, p.c, if p.tag then EventKind.Delete else EventKind.Apply, p.row)
  }

  /** encode_entity and decode_entity. */
  function EntityBytes(e: Entity): seq<byte> {
    PartsBytes(OfEntity(e))
  }

  function ParseEntity(data: seq<byte>): Result<Entity> {
    var p :- ParseParts(data);
    Ok(ToEntity(p))
  }

  /** encode_event and decode_event. */
  function EventBytes(e: Event): seq<byte> {
    PartsBytes(OfEvent(e))
  }

  function ParseEvent(data: seq<byte>): Result<Event> {
    var p :- ParseParts(data);
    Ok(ToEvent(p))
  }

  lemma AllHolds(bytes: seq<byte>)
    ensures Holds(bytes, 0, bytes)
  {
    assert bytes[0..0 + |bytes|] == bytes;
    assert Stands(bytes, 0, bytes);
  }

  /** A stored entity reads back as itself. */
  lemma EntityRoundTrip(e: Entity)
    requires EncodableParts(OfEntity(e))
    ensures ParseEntity(EntityBytes(e)) == Ok(e)
  {
    AllHolds(EntityBytes(e));
    PartsParse(EntityBytes(e), OfEntity(e));
  }

  /** A stored event reads back as itself. */
  lemma EventRoundTrip(e: Event)
    requires EncodableParts(OfEvent(e))
    ensures ParseEvent(EventBytes(e)) == Ok(e)
  {
    AllHolds(EventBytes(e));
    PartsParse(EventBytes(e), OfEvent(e));
  }

  /** Whatever bytes are accepted as a record are as long as its encoding. */
  lemma RecordsTake(data: seq<byte>)
    ensures ParseEntity(data).Ok? ==> |data| == |EntityBytes(ParseEntity(data).value)|
    ensures ParseEvent(data).Ok? ==> |data| == |EventBytes(ParseEvent(data).value)|
  {
    if ParseParts(data).Ok? {
      PartsTake(data);
    }
  }

  // ----- the program's encoders and decoders -----

  method EncodeParts(p: Parts) returns (bytes: seq<byte>)
    ensures bytes == PartsBytes(p)
  {
    var e := new Encoder();
    e.Unsigned(p.a, 8);
    e.Unsigned(p.b, 8);
    e.Unsigned(p.c, 8);
    e.U8(if p.tag then 1 else 0);
    EncodeFields(p.row, e);
    Joined(Le(p.a, 8), Le(p.b, 8), Le(p.c, 8), [if p.tag then 1 else 0], RowBytes(p.row));
    return e.bytes;
  }

  lemma Joined(a: seq<byte>, b: seq<byte>, c: seq<byte>, d: seq<byte>, e: seq<byte>)
    ensures [] + a + b + c + d + e == a + (b + (c + (d + e)))
  {
  }

  method DecodeParts(data: seq<byte>) returns (r: Result<Parts>)
    ensures r == ParseParts(data)
  {
    var d := new Decoder(data);
    var a :- d.Unsigned(8);
    var b :- d.Unsigned(8);
    var c :- d.Unsigned(8);
    var tag :- DecodeFlag(d);
    var row :- DecodeFields(d);
    if d.offset != |data| {
      return Err(Corrupt);
    }
    return Ok(Parts(a, b, c, tag, row));
  }

  method EncodeEntity(e: Entity) returns (bytes: seq<byte>)
    ensures bytes == EntityBytes(e)
  {
    bytes := EncodeParts(OfEntity(e));
  }

  method DecodeEntity(data: seq<byte>) returns (r: Result<Entity>)
    ensures r == ParseEntity(data)
  {
    var p :- DecodeParts(data);
    return Ok(ToEntity(p));
  }

  method EncodeEvent(e: Event) returns (bytes: seq<byte>)
    ensures bytes == EventBytes(e)
  {
    bytes := EncodeParts(OfEvent(e));
  }

  method DecodeEvent(data: seq<byte>) returns (r: Result<Event>)
    ensures r == ParseEvent(data)
  {
    var p :- DecodeParts(data);
    return Ok(ToEvent(p));
  }
}
