/**
 Disjoint index partitions (partitions.rs).

 A key's bucket names the one partition that may hold it.  Partitions are immutable, so a manifest
 may reuse one whole; a reused primary partition keeps its original generation slots and carries a
 translation into the slots of the manifest that reuses it.
 */
module Partitions {
  import opened Results
  import opened Files

  type Pair = (nat, nat)

  const WIDTH: nat := 1024

  const PRIMARY: nat := 3
  const EVENTS: nat := 4
  const SNAPSHOTS: nat := 5

  predicate Less(a: Pair, b: Pair) {
    a.0 < b.0 || (a.0 == b.0 && a.1 < b.1)
  }

  predicate AtMost(a: Pair, b: Pair) {
    a == b || Less(a, b)
  }

  /** The partition a key belongs to. */
  function Bucket(kind: nat, key: Pair): (r: Pair)
    ensures AtMost(r, key)
  {
    if kind == PRIMARY then (key.0 / WIDTH * WIDTH, 0) else (key.0, key.1 / WIDTH * WIDTH)
  }

  /** Later keys are never in earlier partitions. */
  lemma BucketMonotone(kind: nat, a: Pair, b: Pair)
    requires AtMost(a, b)
    ensures AtMost(Bucket(kind, a), Bucket(kind, b))
  {
  }

  /** What an index entry points at: a record pair in a generation slot, or a place in a history file. */
  datatype Pointer = Locator(slot: nat, current: nat, base: nat) | Place(generation: nat, segment: nat, offset: nat)

  datatype Part = Part(
    file: FileId,
    first: Pair,
    last: Pair,
    entries: map<Pair, Pointer>,
    slots: map<nat, nat>,
    dependencies: set<FileId>)

  datatype Route = Route(kind: nat, at: Pair)

  /** Partition::translate. */
  function Translated(part: Part, value: Pointer): Result<Pointer> {
    match value
    case Place(_, _, _) => Ok(value)
    case Locator(slot, current, base) => if slot in part.slots then Ok(Locator(part.slots[slot], current, base))
        else Err(Corrupt)
  }

  /** Root::lookup_index: one partition, one entry. */
  function Lookup(parts: map<Route, Part>, kind: nat, key: Pair): Result<Option<Pointer>> {
    var route := Route(kind, Bucket(kind, key));
    if route !in parts || key !in parts[route].entries then Ok(None)
    else
      match Translated(parts[route], parts[route].entries[key])
      case Err(e) => Err(e)
      case Ok(value) => Ok(Some(value))
  }

  /** A partition holds keys of its own bucket only, between its first and last. */
  ghost predicate PartOk(route: Route, part: Part) {
    && part.first in part.entries && part.last in part.entries
    && (forall key :: key in part.entries ==>
          Bucket(route.kind, key) == route.at && AtMost(part.first, key) && AtMost(key, part.last))
    && (forall key :: key in part.entries ==>
          if route.kind == PRIMARY then part.entries[key].Locator? && part.entries[key].slot in part.slots && key.1 == 0
          else
            && part.slots == map[] && part.entries[key].Place?
            && FileOf(route.kind, part.file.table, part.entries[key]) in part.dependencies)
  }

  /** The history file a place is in. */
  function FileOf(kind: nat, table: nat, place: Pointer): FileId {
    match place
    case Place(generation, segment, _) => if kind == EVENTS then FileId(table, generation, 6, segment)
        else FileId(table, generation, 2, 0)
    case Locator(_, _, _) => FileId(table, 0, 0, 0)
  }

  /** Events and snapshots are in files of their own, and so are the segments and the generations. */
  lemma FilesDiffer(table: nat, kind: nat, a: Pointer, other: nat, b: Pointer)
    requires kind in {EVENTS, SNAPSHOTS} && other in {EVENTS, SNAPSHOTS} && a.Place? && b.Place?
    requires (kind == SNAPSHOTS ==> a.segment == 0) && (other == SNAPSHOTS ==> b.segment == 0)
    ensures FileOf(kind, table, a) == FileOf(other, table, b) <==>
            kind == other && a.generation == b.generation && a.segment == b.segment
    ensures FileOf(kind, table, a).table == table && FileOf(kind, table, a).generation == a.generation
  {
  }

  // ----- building -----

  /** The unsealed partition of one kind. */
  datatype Unsealed = Unsealed(route: Route, part: Part)

  datatype Built = Built(sealed: map<Route, Part>, pending: map<nat, Unsealed>)

  function PartAt(b: Built, route: Route): Option<Part> {
    if route.kind in b.pending && b.pending[route.kind].route == route then Some(b.pending[route.kind].part)
    else if route in b.sealed then Some(b.sealed[route])
    else None
  }

  /** A partition of this manifest's own uses its slots as they are. */
  ghost predicate OwnSlots(part: Part) {
    forall slot :: slot in part.slots ==> part.slots[slot] == slot
  }

  ghost predicate BuiltOk(b: Built) {
    && (forall kind :: kind in b.pending ==>
          b.pending[kind].route.kind == kind && b.pending[kind].route !in b.sealed
          && OwnSlots(b.pending[kind].part))
    && (forall route :: PartAt(b, route).Some? ==> PartOk(route, PartAt(b, route).value))
  }

  predicate IsOpen(b: Built, route: Route) {
    route.kind in b.pending && b.pending[route.kind].route == route
  }

  /** The two differ in one partition only. */
  ghost predicate With(before: Built, after: Built, route: Route, part: Part) {
    && PartAt(after, route) == Some(part)
    && forall other :: other != route ==> PartAt(after, other) == PartAt(before, other)
  }

  /** Every open partition is still the same one, except in one kind. */
  ghost predicate SameOpen(before: Built, after: Built, kind: nat) {
    && (forall k :: k in after.pending ==> after.pending[k].route.kind == k && after.pending[k].route !in after.sealed)
    && (forall k :: k != kind ==> (k in before.pending <==> k in after.pending))
    && (forall k :: k != kind && k in after.pending ==> after.pending[k] == before.pending[k])
  }

  /** Nothing at or after the key was built: its partition is new, or still open and ends before it. */
  ghost predicate Ready(b: Built, kind: nat, key: Pair) {
    forall at :: PartAt(b, Route(kind, at)).Some? ==>
      Less(at, Bucket(kind, key)) || (at == Bucket(kind, key) && IsOpen(b, Route(kind, at))
          && Less(PartAt(b, Route(kind, at)).value.last, key))
  }

  /** No partition at or after this one was built. */
  ghost predicate Clear(b: Built, kind: nat, at: Pair) {
    forall other :: PartAt(b, Route(kind, other)).Some? ==> Less(other, at)
  }

  lemma ClearIsReady(b: Built, kind: nat, at: Pair, key: Pair)
    requires Clear(b, kind, at) && AtMost(at, Bucket(kind, key))
    ensures Ready(b, kind, key)
  {
  }

  /** The partition after one more entry. */
  function Grown(part: Part, kind: nat, key: Pair, value: Pointer, dependency: set<FileId>): Part {
    Part(part.file, part.first, key, part.entries[key := value],
         if kind == PRIMARY && value.Locator? then part.slots[value.slot := value.slot] else part.slots,
         part.dependencies + dependency)
  }

  function Begun(file: FileId, key: Pair): Part {
    Part(file, key, key, map[], map[], {})
  }

  /** The key's partition is new, or open and ends before the key. */
  predicate CanAppend(b: Built, kind: nat, key: Pair) {
    var route := Route(kind, Bucket(kind, key));
    PartAt(b, route).None? || (IsOpen(b, route) && Less(PartAt(b, route).value.last, key))
  }

  /** Indexes::append, when it succeeds. */
  function Appended(b: Built, file: FileId, kind: nat, key: Pair, value: Pointer, dependency: set<FileId>): Part {
    var before := PartAt(b, Route(kind, Bucket(kind, key)));
    Grown(if before.Some? then before.value else Begun(file, key), kind, key, value, dependency)
  }

  /** Indexes: the partitions of one table under construction. */
  class Indexes {
    const table: nat
    const generation: nat
    var sealed: map<Route, Part>
    var pending: map<nat, Unsealed>
    var files: set<FileId>
    var created: set<nat>

    constructor (table: nat, generation: nat)
      ensures this.table == table && this.generation == generation
      ensures sealed == map[] && pending == map[] && files == {} && created == {}
    {
      this.table, this.generation := table, generation;
      sealed, pending, files, created := map[], map[], {}, {};
    }

    /** An open partition has its index file. */
    ghost predicate Handled()
      reads this
    {
      forall kind :: kind in pending ==> kind in created
    }

    function State(): Built
      reads this
    {
      Built(sealed, pending)
    }

    function File(kind: nat): FileId {
      FileId(table, generation, kind, 0)
    }

    /** Seals the open partition of a kind; fails when that partition was already built. */
    method Flush(kind: nat) returns (ok: bool)
      requires BuiltOk(State())
      modifies this`sealed, this`pending
      ensures ok && kind !in pending
      ensures BuiltOk(State()) && SameOpen(old(State()), State(), kind)
      ensures forall route :: PartAt(State(), route) == PartAt(old(State()), route)
    {
      if kind !in pending {
        return true;
      }
      var closing := pending[kind];
      if closing.route in sealed {
        return false;
      }
      ghost var before := State();
      pending := pending - {kind};
      sealed := sealed[closing.route := closing.part];
      assert forall route :: PartAt(State(), route) == PartAt(before, route);
      return true;
    }

    /** Fails exactly when the key is not after everything in its partition, or its partition is sealed. */
    method Append(kind: nat, key: Pair, value: Pointer, dependency: set<FileId>) returns (ok: bool)
      requires BuiltOk(State()) && Handled()
      modifies this`sealed, this`pending, this`created
      ensures Handled() && (ok ==> created == old(created) + {kind})
      ensures ok <==> CanAppend(old(State()), kind, key)
      ensures ok ==> With(old(State()), State(), Route(kind, Bucket(kind, key)),
              Appended(old(State()), File(kind), kind, key, value, dependency))
      ensures ok ==> SameOpen(old(State()), State(), kind) && IsOpen(State(), Route(kind, Bucket(kind, key)))
    {
      var route := Route(kind, Bucket(kind, key));
      if kind !in pending || pending[kind].route != route {
        var flushed := Flush(kind);
        if !flushed || route in sealed {
          return false;
        }
        created := created + {kind};
        pending := pending[kind := Unsealed(route, Grown(Begun(File(kind), key), kind, key, value, dependency))];
        return true;
      }
      var part := pending[kind].part;
      if !Less(part.last, key) {
        return false;
      }
      pending := pending[kind := Unsealed(route, Grown(part, kind, key, value, dependency))];
      return true;
    }

    /** Takes over a whole partition of an older manifest. */
    method Reuse(route: Route, part: Part, listed: set<FileId>) returns (ok: bool)
      requires BuiltOk(State()) && Handled()
      modifies this`sealed, this`pending, this`files
      ensures Handled()
      ensures ok <==> part.file in listed && PartAt(old(State()), route).None?
      ensures ok ==> With(old(State()), State(), route, part)
      ensures ok ==> SameOpen(old(State()), State(), route.kind) && route.kind !in pending
      ensures ok ==> files == old(files) + {part.file}
    {
      var flushed := Flush(route.kind);
      if !flushed || part.file !in listed || route in sealed {
        return false;
      }
      files := files + {part.file};
      sealed := sealed[route := part];
      return true;
    }

    /** Seals what is open; every partition built or taken over is in the result. */
    method Finish() returns (ok: bool)
      requires BuiltOk(State())
      modifies this`sealed, this`pending
      ensures ok && pending == map[]
      ensures BuiltOk(State()) && forall route :: PartAt(State(), route) == PartAt(old(State()), route)
    {
      while pending != map[]
        invariant BuiltOk(State()) && forall route :: PartAt(State(), route) == PartAt(old(State()), route)
        decreases |pending|
      {
        var kind :| kind in pending;
        ghost var rest := pending - {kind};
        ok := Flush(kind);
        if !ok {
          return false;
        }
        assert pending == rest;
      }
      return true;
    }
  }
}
