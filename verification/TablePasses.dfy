/**
 Writing one table of a checkpoint, entity by entity (database.rs, CheckpointJob::build).
 */
module TablePasses {
  import opened Results
  import opened Model
  import opened Histories
  import opened Partitions
  import opened Archives
  import opened Copying
  import opened Holding
  import opened SortedKeys
  import opened Counting
  import C = Checkpoints
  import opened TableWriters

  class TablePass {
    const writer: TableWriter
    const slots: seq<Option<nat>>
    var quotas: seq<nat>
    var dead: map<nat, nat>
    ghost const generations: seq<nat>
    ghost const initial: seq<nat>
    ghost const start: Archive
    const definition: Table
    ghost var placed: map<nat, nat>
    ghost var origin: map<nat, nat>
    ghost var moved: map<nat, nat>

    ghost function Work(): C.Setting {
      C.Setting(generations, slots, writer.slot, definition, initial)
    }

    ghost function Books(): C.Books
      reads this, writer
    {
      C.Books(placed, origin, moved, dead, quotas, writer.entities)
    }

    ghost predicate Going(f: C.Frozen)
      reads this, writer, writer.indexes
    {
      && writer.Valid() && Preserves(start, writer.archive) && C.FrozenGood(f, writer.table, writer.archive, definition)
      && C.SettingOk(f, Work()) && generations[writer.slot] == writer.generation
      && C.Written(f, writer.State(), writer.archive, Work(), placed)
      && C.BooksOk(f, Work(), Books())
      && writer.Lean() && OnlyOwn()
    }

    /** A pass that rewrites the history and keeps no generation takes no older file over. */
    ghost predicate OnlyOwn()
      reads this, writer, writer.indexes
    {
      writer.rewriteHistory && C.NoneKept(slots) ==>
        writer.reused == {} && writer.indexes.files == {}
    }

    /** The same, folded until it is asked for. */
    ghost predicate Steady(f: C.Frozen)
      reads this, writer, writer.indexes
    {
      forall x :: x == f ==> Going(x)
    }

    constructor (
      writer: TableWriter, slots: seq<Option<nat>>, quotas: seq<nat>, ghost generations: seq<nat>, definition: Table,
      ghost f: C.Frozen)
      requires writer.Valid() && C.FrozenGood(f, writer.table, writer.archive, definition)
      requires C.SlotsOk(f, slots, generations, writer.slot) && generations[writer.slot] == writer.generation
               && |generations| <= |quotas|
      requires writer.State() == Built(map[], map[]) && writer.entities == 0 && writer.Lean()
      requires writer.reused == {} && writer.indexes.files == {}
      ensures this.writer == writer && this.slots == slots && this.quotas == quotas && this.initial == quotas
              && this.start == writer.archive && this.generations == generations && this.definition == definition
      ensures dead == map[] && placed == map[] && origin == map[] && moved == map[]
      ensures Going(f)
    {
      this.writer, this.slots, this.quotas := writer, slots, quotas;
      this.generations, this.initial, this.definition, this.start := generations, quotas, definition, writer.archive;
      dead, placed, origin, moved := map[], map[], map[], map[];
      new;
      C.EmptyBooks(f, Work());
    }

    /** Everything this entity needs is still free. */
    ghost predicate Reached(id: nat)
      reads writer, writer.indexes
    {
      Ready(writer.State(), PRIMARY, (id, 0)) && Clear(writer.State(), EVENTS, (id, 0))
          && Clear(writer.State(), SNAPSHOTS, (id, 0))
    }

    /** The entity stays where it is; only its index entries are written. */
    method CarryEntity(id: nat, slot: nat, pointer: Pointer, f: C.Frozen) returns (ok: bool)
      requires Going(f) && Reached(id) && id !in placed && id in f.disk && id !in f.overlay
      requires slot < |quotas| && quotas[slot] == 0 && C.Below(placed, id)
      requires Located(Sealed(f.source.parts), id) == Some(pointer) && C.KeptSlot(f, slots, id) == Some(slot)
               && pointer.Locator?
      modifies this, writer, writer.indexes
      ensures ok && Going(f) && OnlyThis(old(writer.State()), writer.State(), id)
      ensures placed.Keys == old(placed.Keys) + {id}
      ensures Clear(writer.State(), EVENTS, (id + 1, 0)) && Clear(writer.State(), SNAPSHOTS, (id + 1, 0))
    {
      ghost var b, a, w, k := writer.State(), writer.archive, Work(), Books();
      ok := CarryRecord(id, slot, pointer, f);
      C.WrittenOneMore(f, b, a, writer.State(), writer.archive, w, k, id, slot);
      C.KeepsBooksCarried(f, w, k, id, slot);
      Place(id, slot, f);
    }

    /** The entity's index entries in the new slots; its records are those of the older manifest. */
    method CarryRecord(id: nat, slot: nat, pointer: Pointer, f: C.Frozen) returns (ok: bool)
      requires writer.Valid() && writer.Lean() && OnlyOwn()
               && C.FrozenGood(f, writer.table, writer.archive, definition) && C.SettingOk(f, Work())
      requires Reached(id) && id in f.disk && id !in f.overlay
      requires Located(Sealed(f.source.parts), id) == Some(pointer) && C.KeptSlot(f, slots, id) == Some(slot)
               && pointer.Locator?
      modifies writer, writer.indexes
      ensures ok && writer.Valid() && writer.Lean() && OnlyOwn()
              && C.FrozenGood(f, writer.table, writer.archive, definition)
      ensures writer.entities == old(writer.entities) && Preserves(old(writer.archive), writer.archive)
      ensures EntityHeld(writer.State(), writer.archive, generations, id, C.HistoryOf(f, id), definition)
      ensures OnlyThis(old(writer.State()), writer.State(), id) && C.At(writer.State(), id, slot)
      ensures Clear(writer.State(), EVENTS, (id + 1, 0)) && Clear(writer.State(), SNAPSHOTS, (id + 1, 0))
    {
      ghost var a := writer.archive;
      C.RecordOf(f, writer.table, a, definition, id);
      ok := writer.Carry(id, Locator(slot, pointer.current, pointer.base), f.source, DiskHistory(f.disk[id]),
          definition, generations);
      C.FrozenGoodStays(f, writer.table, a, writer.archive, definition);
    }

    /** Notes where an entity went and where it was. */
    method Place(id: nat, slot: nat, f: C.Frozen)
      modifies this`placed, this`origin
      ensures Books() == C.CarriedBooks(f, Work(), old(Books()), id, slot)
    {
      placed, origin := placed[id := slot], C.Traces(f, slots, origin, id);
    }

    /** Reads the entity's frozen state and writes it into the new generation. */
    method WriteEntity(id: nat, f: C.Frozen) returns (ok: bool)
      requires writer.Valid() && writer.Lean() && OnlyOwn() && C.FrozenGood(f, writer.table, writer.archive, definition)
      requires writer.slot < |generations| && generations[writer.slot] == writer.generation
      requires Reached(id) && C.Exists(f, id)
      modifies writer, writer.indexes
      ensures ok && writer.Valid() && writer.Lean() && OnlyOwn()
              && C.FrozenGood(f, writer.table, writer.archive, definition)
      ensures writer.entities == old(writer.entities) + 1 && Preserves(old(writer.archive), writer.archive)
      ensures EntityHeld(writer.State(), writer.archive, generations, id, C.HistoryOf(f, id), definition)
      ensures OnlyThis(old(writer.State()), writer.State(), id) && C.At(writer.State(), id, writer.slot)
      ensures Clear(writer.State(), EVENTS, (id + 1, 0)) && Clear(writer.State(), SNAPSHOTS, (id + 1, 0))
    {
      ghost var a := writer.archive;
      C.RecentOf(f, writer.table, a, definition, id);
      if id in f.overlay {
        ok := writer.AppendEntity(id, f.overlay[id].data, f.overlay[id].source, definition, generations);
      } else {
        var data := Load(f.disk[id], definition);
        C.LoadedMeaning(f.disk[id], data);
        ok := writer.AppendEntity(id, data, f.source, definition, generations);
      }
      C.FrozenGoodStays(f, writer.table, a, writer.archive, definition);
    }

    /** What moving an entity takes from its generation's quota, and leaves behind there. */
    method Account(id: nat, f: C.Frozen, ghost k: C.Books)
      requires C.Affordable(f, Work(), k, id) && Books() == k.(entities := writer.entities)
               && writer.entities == k.entities + 1
      modifies this
      ensures Books() == C.MovedBooks(f, Work(), k, id)
    {
      var kept := C.KeptSlot(f, slots, id);
      if kept.Some? {
        if id !in f.overlay {
          moved := moved[id := kept.value];
          quotas := quotas[kept.value := quotas[kept.value] - 1];
        }
        dead := dead[kept.value := C.DeadOf(dead, kept.value) + 1];
      }
      placed, origin := placed[id := writer.slot], C.Traces(f, slots, origin, id);
    }

    /** The entity is written into the new generation; what it leaves behind is counted. */
    method MoveEntity(id: nat, f: C.Frozen) returns (ok: bool)
      requires Going(f) && Reached(id) && id !in placed && C.Exists(f, id)
      requires C.Affordable(f, Work(), Books(), id)
      modifies this, writer, writer.indexes
      ensures ok && Going(f) && OnlyThis(old(writer.State()), writer.State(), id)
      ensures placed.Keys == old(placed.Keys) + {id}
      ensures Clear(writer.State(), EVENTS, (id + 1, 0)) && Clear(writer.State(), SNAPSHOTS, (id + 1, 0))
    {
      ghost var b, a, w, k := writer.State(), writer.archive, Work(), Books();
      C.KeepsBooksMoved(f, w, k, id);
      ok := WriteEntity(id, f);
      C.WrittenOneMore(f, b, a, writer.State(), writer.archive, w, k, id, writer.slot);
      Account(id, f, k);
    }

    /** One entity of the scan: carried when nothing touched it or drains its generation, written otherwise. */
    method VisitEntity(id: nat, f: C.Frozen) returns (ok: bool)
      requires Going(f) && Reached(id) && id !in placed && C.Exists(f, id) && C.Below(placed, id)
      modifies this, writer, writer.indexes
      ensures ok && Going(f) && OnlyThis(old(writer.State()), writer.State(), id)
      ensures placed.Keys == old(placed.Keys) + {id}
      ensures Clear(writer.State(), EVENTS, (id + 1, 0)) && Clear(writer.State(), SNAPSHOTS, (id + 1, 0))
    {
      var kept := C.KeptSlot(f, slots, id);
      if kept.Some? && id !in f.overlay && quotas[kept.value] == 0 {
        ok := CarryEntity(id, kept.value, Located(Sealed(f.source.parts), id).value, f);
      } else {
        C.IsAffordable(f, Work(), Books(), id);
        ok := MoveEntity(id, f);
      }
    }

    /** A partition nothing touches or drains is taken over with all its history. */
    method CarryBucket(lower: nat, f: C.Frozen) returns (ok: bool)
      requires Going(f) && C.Untouched(writer.State(), lower) && Route(PRIMARY, (lower, 0)) in f.source.parts
               && lower % WIDTH == 0
      requires SlotsKept(f.source.parts[Route(PRIMARY, (lower, 0))], slots)
      requires C.Below(placed, lower) && C.Untapped(f, slots, quotas, lower)
      modifies this`placed, this`origin, writer`reused, writer.indexes
      ensures ok && Going(f) && C.Untouched(writer.State(), lower + WIDTH)
      ensures forall id :: id in placed <==> id in old(placed) || (C.InBucket(id, lower) && id in f.disk)
    {
      ghost var b, w, k := writer.State(), Work(), Books();
      C.SomeSlotKept(f, writer.table, writer.archive, definition, slots, lower);
      ok := TakeParts(lower, f);
      C.WrittenBucket(f, b, writer.State(), writer.archive, writer.table, w, k, lower);
      C.TakenAll(f, b, writer.State(), writer.archive, writer.table, definition, slots, lower);
      placed, origin := placed + C.Taken(f, slots, lower), origin + C.Taken(f, slots, lower);
    }

    /** The primary partition and its event and snapshot partitions, as they are. */
    method TakeParts(lower: nat, f: C.Frozen) returns (ok: bool)
      requires writer.Valid() && writer.Lean() && C.FrozenGood(f, writer.table, writer.archive, definition)
               && lower % WIDTH == 0
      requires C.Untouched(writer.State(), lower) && Route(PRIMARY, (lower, 0)) in f.source.parts
      requires SlotsKept(f.source.parts[Route(PRIMARY, (lower, 0))], slots)
      modifies writer`reused, writer.indexes
      ensures ok && writer.Valid() && writer.Lean() && C.Untouched(writer.State(), lower + WIDTH)
      ensures C.BucketTaken(old(writer.State()), writer.State(), Sealed(f.source.parts), lower, slots)
    {
      var upper := lower + (WIDTH - 1);
      ghost var b, src := writer.State(), Sealed(f.source.parts);
      C.RecentOf(f, writer.table, writer.archive, definition, 0);
      ok := writer.CarryPrimary(lower, f.source, slots);
      ghost var b1 := writer.State();
      ok := writer.CarryRange(EVENTS, lower, upper, f.source);
      ghost var b2 := writer.State();
      ok := writer.CarryRange(SNAPSHOTS, lower, upper, f.source);
      C.TakenBucket(b, b1, b2, writer.State(), src, lower, slots);
      TookClear(b1, b2, src, EVENTS, lower, upper);
      TookClear(b2, writer.State(), src, SNAPSHOTS, lower, upper);
    }

    /** The next entity of a bucket. */
    method VisitNext(lower: nat, ghost next: nat, id: nat, f: C.Frozen) returns (ok: bool)
      requires Going(f) && lower % WIDTH == 0 && C.Visited(writer.State(), lower, next)
      requires next <= id && C.InBucket(id, lower) && C.Below(placed, id) && C.Exists(f, id)
      modifies this, writer, writer.indexes
      ensures ok && Going(f) && C.Visited(writer.State(), lower, id + 1)
      ensures placed.Keys == old(placed.Keys) + {id}
    {
      ghost var b := writer.State();
      C.SkipTo(b, lower, next, id);
      ok := VisitEntity(id, f);
      C.VisitOne(b, writer.State(), lower, id);
    }

    /** The entities of one bucket, in the order the merged scan yields them. */
    method VisitBucket(lower: nat, f: C.Frozen) returns (ok: bool)
      requires Going(f) && C.Untouched(writer.State(), lower) && lower % WIDTH == 0 && C.Below(placed, lower)
      modifies this, writer, writer.indexes
      ensures ok && Going(f) && C.Untouched(writer.State(), lower + WIDTH)
      ensures forall id :: id in placed <==> id in old(placed) || (C.InBucket(id, lower) && C.Exists(f, id))
    {
      var ids := C.BucketIds(f, lower, writer.table, writer.archive, definition);
      C.StartVisit(writer.State(), lower);
      ghost var next: nat := lower;
      assert ids[..0] == [];
      for i := 0 to |ids|
        invariant Steady(f) && C.Visited(writer.State(), lower, next) && next <= lower + WIDTH
        invariant next == if i == 0 then lower else ids[i - 1].0 + 1
        invariant C.PlacedTo(placed, old(placed), ids[..i])
      {
        ok := VisitStep(lower, next, ids, i, f, old(placed));
        next := ids[i].0 + 1;
      }
      assert ids[..|ids|] == ids;
      C.AllPlaced(f, placed, old(placed), ids, lower);
      C.EndVisit(writer.State(), lower, next);
      assert Going(f);
      return true;
    }

    /** One entity of a bucket's list. */
    method VisitStep(lower: nat, ghost next: nat, ids: seq<Pair>, i: nat, f: C.Frozen, ghost before: map<nat, nat>)
      returns (ok: bool)
      requires i < |ids| && C.Listed(f, ids, lower) && Steady(f) && lower % WIDTH == 0
      requires C.Visited(writer.State(), lower, next) && C.PlacedTo(placed, before, ids[..i])
               && next == (if i == 0 then lower else ids[i - 1].0 + 1)
      requires C.Below(before, lower)
      modifies this, writer, writer.indexes
      ensures ok && Steady(f) && C.Visited(writer.State(), lower, ids[i].0 + 1) && ids[i].0 + 1 <= lower + WIDTH
      ensures C.PlacedTo(placed, before, ids[..i + 1])
    {
      C.ListedAt(f, ids, lower, i);
      C.NotPlaced(placed, before, ids, i, lower);
      ghost var earlier := placed;
      assert Going(f);
      ok := VisitNext(lower, next, ids[i].0, f);
      C.PlaceOne(earlier, placed, before, ids, i);
    }

    /** One bucket: taken over whole, or visited. */
    method PassBucket(lower: nat, f: C.Frozen) returns (ok: bool)
      requires Going(f) && C.Untouched(writer.State(), lower) && lower % WIDTH == 0 && C.Below(placed, lower)
      modifies this, writer, writer.indexes
      ensures ok && Going(f) && C.Untouched(writer.State(), lower + WIDTH)
      ensures forall id :: id in placed <==> id in old(placed) || (C.InBucket(id, lower) && C.Exists(f, id))
    {
      var route := Route(PRIMARY, (lower, 0));
      if && route in f.source.parts
         && (forall id :: id in f.overlay ==> !C.InBucket(id, lower))
         && C.NoQuota(f.source.parts[route], slots, quotas)
      {
        C.PartUntapped(f, writer.table, writer.archive, definition, slots, quotas, lower);
        ok := CarryBucket(lower, f);
      } else {
        ok := VisitBucket(lower, f);
      }
    }

    /** The next bucket, however far away. */
    method PassNext(lows: seq<Pair>, i: nat, ghost next: nat, f: C.Frozen) returns (ok: bool)
      requires Steady(f) && C.Untouched(writer.State(), next) && C.PlacedBelow(f, placed, next)
      requires i < |lows| && C.AreBuckets(f, lows) && next == if i == 0 then 0 else lows[i - 1].0 + WIDTH
      modifies this, writer, writer.indexes
      ensures ok && Steady(f) && C.Untouched(writer.State(), lows[i].0 + WIDTH)
              && C.PlacedBelow(f, placed, lows[i].0 + WIDTH)
    {
      var lower := lows[i].0;
      Onward(f, lows, i, next);
      C.LaterBucket(writer.State(), next, lower);
      assert Going(f);
      C.BelowBucket(f, placed, next, lower);
      ghost var before := placed;
      ok := PassBucket(lower, f);
      C.BucketPlaced(f, before, placed, next, lower);
    }

    /** The whole table. */
    method Run(f: C.Frozen) returns (ok: bool)
      requires Going(f) && placed == map[] && writer.State() == Built(map[], map[])
      modifies this, writer, writer.indexes
      ensures ok && Going(f) && C.AllWritten(f, placed)
    {
      var lows := C.Buckets(f, writer.table, writer.archive, definition);
      C.NothingBelow(f);
      ok := PassAll(lows, f);
      assert Going(f);
    }

    /** All its buckets, in order. */
    method PassAll(lows: seq<Pair>, f: C.Frozen) returns (ok: bool)
      requires Steady(f) && C.Untouched(writer.State(), 0) && C.PlacedBelow(f, placed, 0) && C.AreBuckets(f, lows)
      modifies this, writer, writer.indexes
      ensures ok && Steady(f) && C.AllWritten(f, placed)
    {
      ghost var next: nat := 0;
      for i := 0 to |lows|
        invariant Steady(f) && C.Untouched(writer.State(), next) && C.PlacedBelow(f, placed, next)
        invariant next == if i == 0 then 0 else lows[i - 1].0 + WIDTH
      {
        ok := PassNext(lows, i, next, f);
        if !ok {
          return false;
        }
        next := lows[i].0 + WIDTH;
      }
      Onward(f, lows, |lows|, next);
      C.EverythingBelow(f, placed, next);
      return true;
    }

    lemma Onward(f: C.Frozen, lows: seq<Pair>, i: nat, next: nat)
      requires C.AreBuckets(f, lows) && i <= |lows| && next == if i == 0 then 0 else lows[i - 1].0 + WIDTH
      ensures i < |lows| ==> next <= lows[i].0 && lows[i].1 == 0 && lows[i].0 % WIDTH == 0
      ensures forall id: nat :: C.Exists(f, id) ==> id < next || (i < |lows| && lows[i].0 <= id)
    {
      assert C.BucketsOf(f, lows);
      assert i < |lows| ==> lows[i] in lows;
      if 0 < i < |lows| {
        assert lows[i - 1] in lows && lows[i] in lows && Less(lows[i - 1], lows[i]);
      }
      forall id: nat | C.Exists(f, id) ensures id < next || (i < |lows| && lows[i].0 <= id) {
        C.NoneBetween(lows, i, next, id);
      }
    }
  }
}
