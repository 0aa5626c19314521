/**
 The frozen state a checkpoint writes out and what it means to have written it
 (database.rs, CheckpointJob::build).
 */
module Checkpoints {
  import opened Results
  import Model
  import opened Histories
  import opened Partitions
  import opened Archives
  import opened Copying
  import opened Holding
  import opened Counting
  import opened SortedKeys

  /** An entity in the overlay, with the manifest its checkpointed history is read from, and that one's number. */
  datatype Recent = Recent(data: EntityData, source: Source, generation: nat)

  /** One table of the frozen state: the newest manifest, what it holds, and the overlay above it. */
  datatype Frozen = Frozen(source: Source, generations: seq<nat>, disk: map<nat, Persisted>, overlay: map<nat, Recent>)

  predicate Exists(f: Frozen, id: nat) {
    id in f.overlay || id in f.disk
  }

  /** The frozen meaning of an entity. */
  function HistoryOf(f: Frozen, id: nat): History
    requires Exists(f, id)
  {
    if id in f.overlay then Meaning(f.overlay[id].data) else DiskHistory(f.disk[id])
  }

  ghost predicate RecordOk(f: Frozen, archive: Archive, definition: Model.Table, id: nat) {
    id in f.disk ==>
      && PersistedOk(f.disk[id]) && (forall v :: v in f.disk[id].events ==>
         f.disk[id].base.version < v <= f.disk[id].current.version)
      && Model.Extends(f.disk[id].table, definition)
      && f.disk[id].base.id == id && f.disk[id].current.version <= U64_MAX
      && EntityHeld(Sealed(f.source.parts), archive, f.generations, id, DiskHistory(f.disk[id]), f.disk[id].table)
  }

  ghost predicate RecentOk(f: Frozen, table: nat, archive: Archive, definition: Model.Table, id: nat) {
    id in f.overlay ==> Recorded(f.overlay[id], table, archive, definition, id)
  }

  /** An entity whose checkpointed history, if it has one, can be read from its own manifest. */
  ghost predicate Recorded(r: Recent, table: nat, archive: Archive, definition: Model.Table, id: nat) {
    && Valid(r.data, definition) && r.data.base.id == id && r.data.current.version <= U64_MAX
    && (r.data.disk.Some? ==>
          && SourceOk(r.source, table, archive)
          && HistoryHeld(Sealed(r.source.parts), archive, id, DiskHistory(r.data.disk.value), r.data.disk.value.table))
  }

  ghost predicate FrozenOk(f: Frozen, table: nat, archive: Archive, definition: Model.Table) {
    && SourceOk(f.source, table, archive)
    && (forall id :: RecordOk(f, archive, definition, id))
    && (forall id :: RecentOk(f, table, archive, definition, id))
    && (forall id :: Located(Sealed(f.source.parts), id).Some? <==> id in f.disk)
  }

  /** Reading the frozen state does not depend on what is being written. */
  lemma FrozenStays(f: Frozen, table: nat, before: Archive, after: Archive, definition: Model.Table)
    requires FrozenOk(f, table, before, definition) && Preserves(before, after)
    ensures FrozenOk(f, table, after, definition)
  {
    StillSource(f.source, table, before, after);
    forall id: nat ensures RecordOk(f, after, definition, id) {
      assert RecordOk(f, before, definition, id);
      if id in f.disk {
        HeldStays(Sealed(f.source.parts), before, after, id, DiskHistory(f.disk[id]), f.disk[id].table);
      }
    }
    forall id: nat ensures RecentOk(f, table, after, definition, id) {
      assert RecentOk(f, table, before, definition, id);
      if id in f.overlay && f.overlay[id].data.disk.Some? {
        StillSource(f.overlay[id].source, table, before, after);
        HeldStays(Sealed(f.overlay[id].source.parts), before, after, id, DiskHistory(f.overlay[id].data.disk.value),
            f.overlay[id].data.disk.value.table);
      }
    }
  }

  /** The same, folded until it is asked for. */
  ghost predicate FrozenGood(f: Frozen, table: nat, archive: Archive, definition: Model.Table) {
    forall same: Frozen :: same == f ==> FrozenOk(same, table, archive, definition)
  }

  lemma FrozenGoodStays(f: Frozen, table: nat, before: Archive, after: Archive, definition: Model.Table)
    requires FrozenGood(f, table, before, definition) && Preserves(before, after)
    ensures FrozenGood(f, table, after, definition)
  {
    FrozenStays(f, table, before, after, definition);
  }

  /** The record of an entity the manifest has, under the newest definition. */
  lemma RecordOf(f: Frozen, table: nat, archive: Archive, definition: Model.Table, id: nat)
    requires FrozenGood(f, table, archive, definition) && id in f.disk
    ensures RecordOk(f, archive, definition, id) && SourceOk(f.source, table, archive)
    ensures HistoryHeld(Sealed(f.source.parts), archive, id, DiskHistory(f.disk[id]), definition)
  {
    assert FrozenOk(f, table, archive, definition);
    assert RecordOk(f, archive, definition, id);
    HeldUnderExtension(Sealed(f.source.parts), archive, id, DiskHistory(f.disk[id]), f.disk[id].table, definition);
  }

  /** What an overlaid entity is read from. */
  lemma RecentOf(f: Frozen, table: nat, archive: Archive, definition: Model.Table, id: nat)
    requires FrozenGood(f, table, archive, definition)
    ensures RecentOk(f, table, archive, definition, id) && RecordOk(f, archive, definition, id)
            && SourceOk(f.source, table, archive)
  {
    assert FrozenOk(f, table, archive, definition);
  }

  /** An entity may be frozen by the next checkpoint, whichever manifest its history is read from. */
  lemma CommittedIsRecent(f: Frozen, table: nat, archive: Archive, definition: Model.Table, id: nat, r: Recent)
    requires FrozenGood(f, table, archive, definition) && Recorded(r, table, archive, definition, id)
    ensures FrozenGood(f.(overlay := f.overlay[id := r]), table, archive, definition)
  {
    OverlayIsRecent(f, table, archive, definition, f.overlay[id := r]);
  }

  /** The overlay may be any entities that can be read. */
  lemma OverlayIsRecent(
    f: Frozen, table: nat, archive: Archive, definition: Model.Table, overlay: map<nat, Recent>)
    requires FrozenGood(f, table, archive, definition)
    requires forall id :: id in overlay ==>
               || Recorded(overlay[id], table, archive, definition, id)
               || (id in f.overlay && overlay[id] == f.overlay[id])
    ensures FrozenGood(f.(overlay := overlay), table, archive, definition)
  {
    var g := f.(overlay := overlay);
    assert FrozenOk(f, table, archive, definition);
    forall id: nat ensures RecordOk(g, archive, definition, id) && RecentOk(g, table, archive, definition, id) {
      assert RecordOk(f, archive, definition, id) && RecentOk(f, table, archive, definition, id);
    }
  }

  /** What a commit leaves of an entity: no record, the newest manifest's, or the one it was already read from. */
  predicate Bound(f: Frozen, id: nat, r: Recent) {
    || r.data.disk.None?
    || (id in f.disk && r.source == f.source && r.data.disk == Some(f.disk[id]))
    || (id in f.overlay && r.source == f.overlay[id].source && r.data.disk == f.overlay[id].data.disk)
  }

  lemma BoundIsRecorded(f: Frozen, table: nat, archive: Archive, definition: Model.Table, id: nat, r: Recent)
    requires FrozenGood(f, table, archive, definition) && Bound(f, id, r)
    requires Valid(r.data, definition) && r.data.base.id == id && r.data.current.version <= U64_MAX
    ensures Recorded(r, table, archive, definition, id)
  {
    RecentOf(f, table, archive, definition, id);
  }

  /** What can be read still can when the archive grows and the definition is extended. */
  lemma RecordedStays(
    r: Recent, table: nat, before: Archive, after: Archive, prior: Model.Table, later: Model.Table, id: nat)
    requires Recorded(r, table, before, prior, id) && Preserves(before, after) && Model.Extends(prior, later)
    ensures Recorded(r, table, after, later, id)
  {
    DataUnderExtension(r.data, prior, later);
    if r.data.disk.Some? {
      StillSource(r.source, table, before, after);
      HeldStays(Sealed(r.source.parts), before, after, id, DiskHistory(r.data.disk.value), r.data.disk.value.table);
    }
  }

  lemma FrozenExtended(f: Frozen, table: nat, archive: Archive, prior: Model.Table, later: Model.Table)
    requires FrozenGood(f, table, archive, prior) && Model.Extends(prior, later)
    ensures FrozenGood(f, table, archive, later)
  {
    assert FrozenOk(f, table, archive, prior);
    forall id: nat ensures RecordOk(f, archive, later, id) && RecentOk(f, table, archive, later, id) {
      assert RecordOk(f, archive, prior, id) && RecentOk(f, table, archive, prior, id);
      if id in f.disk {
        Model.ExtendsThrough(f.disk[id].table, prior, later);
      }
      if id in f.overlay {
        RecordedStays(f.overlay[id], table, archive, archive, prior, later, id);
      }
    }
  }

  /** Snapshots that are right under one definition are right under every later one. */
  lemma HeldUnderExtension(b: Built, archive: Archive, id: nat, h: History, prior: Model.Table, later: Model.Table)
    requires HistoryHeld(b, archive, id, h, prior) && Model.Extends(prior, later)
    ensures HistoryHeld(b, archive, id, h, later)
  {
    forall version: nat ensures SnapshotHeld(b, archive, id, h, later, version) {
      assert SnapshotHeld(b, archive, id, h, prior, version);
      if StateAt(h.base, h.events, prior, version).Ok? {
        StateAtUnderExtension(h.base, h.events, prior, later, version);
      }
    }
  }

  // ----- progress -----

  /** The slot an old entry is kept in, if its generation is kept. */
  function KeptSlot(f: Frozen, slots: seq<Option<nat>>, id: nat): Option<nat> {
    match Located(Sealed(f.source.parts), id)
    case Some(Locator(slot, _, _)) => if slot < |slots| then slots[slot] else None
    case _ => None
  }

  /** Slot translation keeps the generation. */
  ghost predicate SlotsOk(f: Frozen, slots: seq<Option<nat>>, generations: seq<nat>, newest: nat) {
    && |slots| == |f.generations|
    && newest < |generations|
    && forall slot :: 0 <= slot < |slots| && slots[slot].Some? ==>
         slots[slot].value < newest && generations[slots[slot].value] == f.generations[slot]
  }

  /** The entity's primary entry points into this slot. */
  predicate At(b: Built, id: nat, slot: nat) {
    Located(b, id).Some? && Located(b, id).value.Locator? && Located(b, id).value.slot == slot
  }

  /** An old entry is never kept in the slot of the new generation. */
  lemma NeverNewest(f: Frozen, slots: seq<Option<nat>>, generations: seq<nat>, newest: nat, id: nat)
    requires SlotsOk(f, slots, generations, newest)
    ensures KeptSlot(f, slots, id) != Some(newest)
  {
  }

  /** A written entity holds its frozen meaning at the slot recorded for it; an unwritten one is not there. */
  ghost predicate Progress(
    f: Frozen, b: Built, archive: Archive, generations: seq<nat>, definition: Model.Table, placed: map<nat, nat>,
    id: nat)
  {
    if id in placed then
      && Exists(f, id)
      && EntityHeld(b, archive, generations, id, HistoryOf(f, id), definition)
      && At(b, id, placed[id])
    else Located(b, id).None?
  }

  /** Where each written entity was before, when that generation is kept. */
  ghost predicate Traced(f: Frozen, slots: seq<Option<nat>>, placed: map<nat, nat>, origin: map<nat, nat>, id: nat) {
    if id in placed && KeptSlot(f, slots, id).Some? then id in origin && origin[id] == KeptSlot(f, slots, id).value
        else id !in origin
  }

  function DeadOf(dead: map<nat, nat>, slot: nat): nat {
    if slot in dead then dead[slot] else 0
  }

  /** Entities at a kept slot, plus those superseded there, are those that were there. */
  ghost predicate Balanced(
    placed: map<nat, nat>, origin: map<nat, nat>, dead: map<nat, nat>, newest: nat, entities: nat, slot: nat)
  {
    if slot == newest then CountAt(placed, slot) == entities && CountAt(origin, slot) == 0 && DeadOf(dead, slot) == 0
    else CountAt(placed, slot) + DeadOf(dead, slot) == CountAt(origin, slot)
  }

  /** What a quota has moved and what is left of it. */
  ghost predicate Drained(moved: map<nat, nat>, initial: seq<nat>, quotas: seq<nat>, slot: nat) {
    slot < |initial| == |quotas| ==> CountAt(moved, slot) + quotas[slot] == initial[slot]
  }

  ghost predicate AllProgress(
    f: Frozen, b: Built, archive: Archive, generations: seq<nat>, definition: Model.Table, placed: map<nat, nat>)
  {
    forall id :: Progress(f, b, archive, generations, definition, placed, id)
  }

  ghost predicate AllTraced(f: Frozen, slots: seq<Option<nat>>, placed: map<nat, nat>, origin: map<nat, nat>) {
    forall id :: Traced(f, slots, placed, origin, id)
  }

  ghost predicate AllBalanced(
    placed: map<nat, nat>, origin: map<nat, nat>, dead: map<nat, nat>, newest: nat, entities: nat)
  {
    forall slot :: Balanced(placed, origin, dead, newest, entities, slot)
  }

  ghost predicate AllDrained(moved: map<nat, nat>, initial: seq<nat>, quotas: seq<nat>) {
    forall slot :: Drained(moved, initial, quotas, slot)
  }

  // ----- the books of one pass over a table -----

  /** What a pass works with and does not change. */
  datatype Setting = Setting(generations: seq<nat>, slots: seq<Option<nat>>, newest: nat, definition: Model.Table,
      initial: seq<nat>)

  /** What it keeps: where each entity went, where it was, what its quotas moved and left, and what is dead where. */
  datatype Books = Books(
    placed: map<nat, nat>,
    origin: map<nat, nat>,
    moved: map<nat, nat>,
    dead: map<nat, nat>,
    quotas: seq<nat>,
    entities: nat)

  ghost predicate SettingOk(f: Frozen, w: Setting) {
    SlotsOk(f, w.slots, w.generations, w.newest) && |w.generations| <= |w.initial|
  }

  /** The books are right; the quantifier keeps the definition folded until it is asked for. */
  ghost predicate BooksOk(f: Frozen, w: Setting, k: Books) {
    |k.quotas| == |w.initial| && forall same: Books :: same == k ==> BooksRight(f, w, same)
  }

  ghost predicate BooksRight(f: Frozen, w: Setting, k: Books) {
    && |k.quotas| == |w.initial|
    && AllTraced(f, w.slots, k.placed, k.origin)
    && AllBalanced(k.placed, k.origin, k.dead, w.newest, k.entities)
    && AllDrained(k.moved, w.initial, k.quotas)
    && AllWent(f, w.slots, w.newest, k.placed, k.moved, k.quotas)
  }

  /**
   Where a written entity went. What was touched, or was in no kept generation, went to the newest one; so
   did what a quota moved. The rest stayed, and only once its generation's quota was used up by smaller ids.
   */
  ghost predicate Went(
    f: Frozen, slots: seq<Option<nat>>, newest: nat, placed: map<nat, nat>, moved: map<nat, nat>, quotas: seq<nat>,
    id: nat)
  {
    && (id in moved ==> id in placed && id !in f.overlay && KeptSlot(f, slots, id) == Some(moved[id]))
    && (id in placed ==>
          if id in moved || id in f.overlay || KeptSlot(f, slots, id).None? then placed[id] == newest
          else placed[id] == KeptSlot(f, slots, id).value && Spent(moved, quotas, placed[id], id))
  }

  /** The quota of this slot is used up, by ids below `id`. */
  ghost predicate Spent(moved: map<nat, nat>, quotas: seq<nat>, slot: nat, id: nat) {
    && slot < |quotas| && quotas[slot] == 0
    && forall other :: other in moved && moved[other] == slot ==> other < id
  }

  ghost predicate AllWent(
    f: Frozen, slots: seq<Option<nat>>, newest: nat, placed: map<nat, nat>, moved: map<nat, nat>, quotas: seq<nat>)
  {
    forall id :: Went(f, slots, newest, placed, moved, quotas, id)
  }

  /** Nothing at or above `next` was written. */
  ghost predicate Below(placed: map<nat, nat>, next: nat) {
    forall id :: id in placed ==> id < next
  }

  ghost predicate Written(f: Frozen, b: Built, archive: Archive, w: Setting, placed: map<nat, nat>) {
    forall same: map<nat, nat> :: same == placed ==> AllProgress(f, b, archive, w.generations, w.definition, same)
  }

  /** The books after an entity was carried to `slot`. */
  function CarriedBooks(f: Frozen, w: Setting, k: Books, id: nat, slot: nat): Books {
    k.(placed := k.placed[id := slot], origin := Traces(f, w.slots, k.origin, id))
  }

  /** The books after an entity was written into the newest generation. */
  function MovedBooks(f: Frozen, w: Setting, k: Books, id: nat): Books {
    var kept := KeptSlot(f, w.slots, id);
    var left := if kept.Some? then k.dead[kept.value := DeadOf(k.dead, kept.value) + 1] else k.dead;
    var drains := kept.Some? && id !in f.overlay && kept.value < |k.quotas| && k.quotas[kept.value] > 0;
    Books(k.placed[id := w.newest], Traces(f, w.slots, k.origin, id),
          if drains then k.moved[id := kept.value] else k.moved, left,
          if drains then k.quotas[kept.value := k.quotas[kept.value] - 1] else k.quotas, k.entities + 1)
  }

  /** The books after a whole partition was taken over. */
  function TakenBooks(f: Frozen, w: Setting, k: Books, lower: nat): Books {
    k.(placed := k.placed + Taken(f, w.slots, lower), origin := k.origin + Taken(f, w.slots, lower))
  }

  lemma EmptyBooks(f: Frozen, w: Setting)
    ensures BooksOk(f, w, Books(map[], map[], map[], map[], w.initial, 0))
  {
    forall slot: nat ensures Balanced(map[], map[], map[], w.newest, 0, slot)
        && Drained(map[], w.initial, w.initial, slot) {
      CountNone(slot);
    }
    assert AllWent(f, w.slots, w.newest, map[], map[], w.initial);
  }

  lemma KeepsBooksCarried(f: Frozen, w: Setting, k: Books, id: nat, slot: nat)
    requires SettingOk(f, w) && BooksOk(f, w, k) && id !in k.placed && KeptSlot(f, w.slots, id) == Some(slot)
    requires id !in f.overlay && k.quotas[slot] == 0 && Below(k.placed, id)
    ensures BooksOk(f, w, CarriedBooks(f, w, k, id, slot))
  {
    assert BooksRight(f, w, k);
    WentOne(f, w.slots, w.newest, k.placed, k.moved, k.quotas, id, slot);
    assert Traced(f, w.slots, k.placed, k.origin, id);
    NeverNewest(f, w.slots, w.generations, w.newest, id);
    CarriedBalance(f, w.slots, k.placed, k.origin, k.dead, w.newest, k.entities, id, slot);
    OneMoreTraced(f, w.slots, k.placed, k.origin, id, slot);
  }

  /** An entity that is carried: the quota is used up, and everything it moved came earlier. */
  lemma WentOne(
    f: Frozen, slots: seq<Option<nat>>, newest: nat, placed: map<nat, nat>, moved: map<nat, nat>, quotas: seq<nat>,
    id: nat, slot: nat)
    requires AllWent(f, slots, newest, placed, moved, quotas) && id !in placed && id !in f.overlay
    requires KeptSlot(f, slots, id) == Some(slot) && slot < |quotas| && quotas[slot] == 0 && Below(placed, id)
    ensures AllWent(f, slots, newest, placed[id := slot], moved, quotas)
  {
    var more := placed[id := slot];
    forall other | other in moved ensures other < id {
      assert Went(f, slots, newest, placed, moved, quotas, other);
    }
    forall other: nat ensures Went(f, slots, newest, more, moved, quotas, other) {
      assert Went(f, slots, newest, placed, moved, quotas, other);
    }
  }

  /** An entity that goes to the newest generation without any quota. */
  lemma WentNew(
    f: Frozen, slots: seq<Option<nat>>, newest: nat, placed: map<nat, nat>, moved: map<nat, nat>, quotas: seq<nat>,
    id: nat)
    requires AllWent(f, slots, newest, placed, moved, quotas) && id !in placed
    requires id in f.overlay || KeptSlot(f, slots, id).None?
    ensures AllWent(f, slots, newest, placed[id := newest], moved, quotas)
  {
    var more := placed[id := newest];
    forall other: nat ensures Went(f, slots, newest, more, moved, quotas, other) {
      assert Went(f, slots, newest, placed, moved, quotas, other);
    }
  }

  /** An entity that uses its generation's quota: nothing was left there so far. */
  lemma WentMoved(
    f: Frozen, slots: seq<Option<nat>>, newest: nat, placed: map<nat, nat>, moved: map<nat, nat>, quotas: seq<nat>,
    id: nat, slot: nat)
    requires AllWent(f, slots, newest, placed, moved, quotas) && id !in placed && id !in f.overlay
    requires KeptSlot(f, slots, id) == Some(slot) && slot < |quotas| && quotas[slot] > 0
    ensures AllWent(f, slots, newest, placed[id := newest], moved[id := slot], quotas[slot := quotas[slot] - 1])
  {
    var more, gone, spent := placed[id := newest], moved[id := slot], quotas[slot := quotas[slot] - 1];
    forall other: nat ensures Went(f, slots, newest, more, gone, spent, other) {
      assert Went(f, slots, newest, placed, moved, quotas, other);
    }
  }

  lemma OneMoreTraced(
    f: Frozen, slots: seq<Option<nat>>, placed: map<nat, nat>, origin: map<nat, nat>, id: nat, slot: nat)
    requires AllTraced(f, slots, placed, origin)
    ensures AllTraced(f, slots, placed[id := slot], Traces(f, slots, origin, id))
  {
    var more, traces := placed[id := slot], Traces(f, slots, origin, id);
    forall other: nat ensures Traced(f, slots, more, traces, other) {
      assert Traced(f, slots, placed, origin, other);
    }
  }

  /** The generation an entity is moved out of still has quota; a superseded entity needs none. */
  predicate Affordable(f: Frozen, w: Setting, k: Books, id: nat) {
    KeptSlot(f, w.slots, id).Some? ==>
      KeptSlot(f, w.slots, id).value < |k.quotas| && (id in f.overlay || k.quotas[KeptSlot(f, w.slots, id).value] > 0)
  }

  lemma IsAffordable(f: Frozen, w: Setting, k: Books, id: nat)
    requires SettingOk(f, w) && BooksOk(f, w, k)
    requires KeptSlot(f, w.slots, id).Some? && id !in f.overlay ==> k.quotas[KeptSlot(f, w.slots, id).value] != 0
    ensures Affordable(f, w, k, id)
  {
  }

  lemma KeepsBooksMoved(f: Frozen, w: Setting, k: Books, id: nat)
    requires SettingOk(f, w) && BooksOk(f, w, k) && id !in k.placed
    requires Affordable(f, w, k, id)
    ensures BooksOk(f, w, MovedBooks(f, w, k, id)) && MovedBooks(f, w, k, id).placed == k.placed[id := w.newest]
  {
    assert BooksRight(f, w, k);
    assert Traced(f, w.slots, k.placed, k.origin, id);
    NeverNewest(f, w.slots, w.generations, w.newest, id);
    MovedBalance(f, w.slots, k.placed, k.origin, k.dead, w.newest, k.entities, id);
    OneMoreTraced(f, w.slots, k.placed, k.origin, id, w.newest);
    var kept := KeptSlot(f, w.slots, id);
    if kept.Some? && id !in f.overlay {
      assert Went(f, w.slots, w.newest, k.placed, k.moved, k.quotas, id);
      QuotaUsed(k.moved, w.initial, k.quotas, id, kept.value);
      WentMoved(f, w.slots, w.newest, k.placed, k.moved, k.quotas, id, kept.value);
    } else {
      WentNew(f, w.slots, w.newest, k.placed, k.moved, k.quotas, id);
    }
  }

  lemma KeepsBooksTaken(f: Frozen, w: Setting, k: Books, lower: nat)
    requires SettingOk(f, w) && BooksOk(f, w, k)
    requires forall id :: InBucket(id, lower) ==> id !in k.placed
    requires AllTraced(f, w.slots, k.placed + Taken(f, w.slots, lower), k.origin + Taken(f, w.slots, lower))
    requires Untapped(f, w.slots, k.quotas, lower) && Below(k.placed, lower)
    ensures BooksOk(f, w, TakenBooks(f, w, k, lower))
  {
    assert BooksRight(f, w, k);
    WentTaken(f, w.slots, w.newest, k.placed, k.moved, k.quotas, lower);
    TakenDisjoint(f, w.slots, lower, k.placed, k.origin);
    TakenBalance(f, w.slots, w.generations, k.placed, k.origin, k.dead, w.newest, k.entities, lower);
  }

  /** One more entity stands in the manifest. */
  lemma WrittenOneMore(
    f: Frozen, before: Built, archive: Archive, after: Built, grown: Archive, w: Setting, k: Books, id: nat,
    slot: nat)
    requires Written(f, before, archive, w, k.placed) && BooksOk(f, w, k)
    requires id !in k.placed && Exists(f, id) && Stored(before, archive) && Preserves(archive, grown)
             && OnlyThis(before, after, id)
    requires EntityHeld(after, grown, w.generations, id, HistoryOf(f, id), w.definition) && At(after, id, slot)
    ensures Written(f, after, grown, w, k.placed[id := slot])
  {
    assert BooksRight(f, w, k) && AllProgress(f, before, archive, w.generations, w.definition, k.placed);
    Advanced(f, before, archive, after, grown, w.generations, w.definition, w.slots, k.placed, k.origin, id, slot);
  }

  /** A whole partition stands in the manifest. */
  lemma WrittenBucket(
    f: Frozen, before: Built, after: Built, archive: Archive, table: nat, w: Setting, k: Books, lower: nat)
    requires FrozenGood(f, table, archive, w.definition) && SettingOk(f, w) && BooksOk(f, w, k)
    requires BucketTaken(before, after, Sealed(f.source.parts), lower, w.slots) && lower % WIDTH == 0
             && Stored(before, archive)
    requires Written(f, before, archive, w, k.placed)
    requires Untapped(f, w.slots, k.quotas, lower) && Below(k.placed, lower)
    ensures Written(f, after, archive, w, TakenBooks(f, w, k, lower).placed)
            && BooksOk(f, w, TakenBooks(f, w, k, lower))
  {
    assert FrozenOk(f, table, archive, w.definition) && BooksRight(f, w, k)
        && AllProgress(f, before, archive, w.generations, w.definition, k.placed);
    BucketAdvanced(f, before, after, archive, table, w.generations, w.newest, w.definition, w.slots, lower, k.placed,
        k.origin);
    KeepsBooksTaken(f, w, k, lower);
  }

  lemma ProgressStays(
    f: Frozen, before: Built, archive: Archive, after: Built, grown: Archive, generations: seq<nat>,
    definition: Model.Table, placed: map<nat, nat>, id: nat, slot: nat, other: nat)
    requires Progress(f, before, archive, generations, definition, placed, other) && other != id && id !in placed
    requires Stored(before, archive) && Preserves(archive, grown) && OnlyThis(before, after, id)
    ensures Progress(f, after, grown, generations, definition, placed[id := slot], other)
  {
    if other in placed {
      EntityStays(before, archive, after, grown, generations, id, other, HistoryOf(f, other), definition);
    }
  }

  /** What Root::entity reads has exactly the record's meaning. */
  lemma LoadedMeaning(p: Persisted, data: EntityData)
    requires forall v :: v in p.events ==> p.base.version < v <= p.current.version
    requires Meaning(data) == History(p.base, p.current, map v | v in p.events
             && p.base.version < v <= p.current.version :: p.events[v])
    ensures Meaning(data) == DiskHistory(p)
  {
  }

  function Traces(f: Frozen, slots: seq<Option<nat>>, origin: map<nat, nat>, id: nat): map<nat, nat> {
    match KeptSlot(f, slots, id)
    case Some(slot) => origin[id := slot]
    case None => origin
  }

  /** One more entity written. */
  lemma Advanced(
    f: Frozen, before: Built, archive: Archive, after: Built, grown: Archive, generations: seq<nat>,
    definition: Model.Table, slots: seq<Option<nat>>, placed: map<nat, nat>, origin: map<nat, nat>, id: nat,
    slot: nat)
    requires AllProgress(f, before, archive, generations, definition, placed) && AllTraced(f, slots, placed, origin)
    requires id !in placed && Exists(f, id) && Stored(before, archive) && Preserves(archive, grown)
             && OnlyThis(before, after, id)
    requires EntityHeld(after, grown, generations, id, HistoryOf(f, id), definition)
    requires At(after, id, slot)
    ensures AllProgress(f, after, grown, generations, definition, placed[id := slot])
    ensures AllTraced(f, slots, placed[id := slot], Traces(f, slots, origin, id))
  {
    var more := placed[id := slot];
    var traces := Traces(f, slots, origin, id);
    forall other: nat ensures Progress(f, after, grown, generations, definition, more, other) {
      if other != id {
        assert Progress(f, before, archive, generations, definition, placed, other);
        ProgressStays(f, before, archive, after, grown, generations, definition, placed, id, slot, other);
      }
    }
    forall other: nat ensures Traced(f, slots, more, traces, other) {
      assert Traced(f, slots, placed, origin, other);
    }
  }

  lemma CarriedBalance(
    f: Frozen, slots: seq<Option<nat>>, placed: map<nat, nat>, origin: map<nat, nat>, dead: map<nat, nat>,
    newest: nat, entities: nat, id: nat, slot: nat)
    requires AllBalanced(placed, origin, dead, newest, entities)
    requires id !in placed && id !in origin && slot != newest && KeptSlot(f, slots, id) == Some(slot)
    ensures AllBalanced(placed[id := slot], Traces(f, slots, origin, id), dead, newest, entities)
  {
    var more, traces := placed[id := slot], Traces(f, slots, origin, id);
    forall other: nat ensures Balanced(more, traces, dead, newest, entities, other) {
      assert Balanced(placed, origin, dead, newest, entities, other);
      CountOneMore(placed, id, slot, other);
      CountOneMore(origin, id, slot, other);
    }
  }

  lemma MovedBalance(
    f: Frozen, slots: seq<Option<nat>>, placed: map<nat, nat>, origin: map<nat, nat>, dead: map<nat, nat>,
    newest: nat, entities: nat, id: nat)
    requires AllBalanced(placed, origin, dead, newest, entities)
    requires id !in placed && id !in origin && KeptSlot(f, slots, id) != Some(newest)
    ensures var slot := KeptSlot(f, slots, id);
            var left := if slot.Some? then dead[slot.value := DeadOf(dead, slot.value) + 1] else dead;
            AllBalanced(placed[id := newest], Traces(f, slots, origin, id), left, newest, entities + 1)
  {
    var slot := KeptSlot(f, slots, id);
    var left := if slot.Some? then dead[slot.value := DeadOf(dead, slot.value) + 1] else dead;
    var more, traces := placed[id := newest], Traces(f, slots, origin, id);
    var written := entities + 1;
    forall other: nat ensures Balanced(more, traces, left, newest, written, other) {
      assert Balanced(placed, origin, dead, newest, entities, other);
      CountOneMore(placed, id, newest, other);
      if slot.Some? {
        CountOneMore(origin, id, slot.value, other);
      }
    }
  }

  lemma QuotaUsed(moved: map<nat, nat>, initial: seq<nat>, quotas: seq<nat>, id: nat, slot: nat)
    requires AllDrained(moved, initial, quotas)
    requires id !in moved && slot < |quotas| == |initial| && quotas[slot] > 0
    ensures AllDrained(moved[id := slot], initial, quotas[slot := quotas[slot] - 1])
  {
    var more, left := moved[id := slot], quotas[slot := quotas[slot] - 1];
    forall other: nat ensures Drained(more, initial, left, other) {
      assert Drained(moved, initial, quotas, other);
      CountOneMore(moved, id, slot, other);
    }
  }

  // ----- a whole partition at once -----

  predicate InBucket(id: nat, lower: nat) {
    lower <= id <= lower + (WIDTH - 1)
  }

  lemma BucketOf(id: nat, lower: nat)
    requires lower % WIDTH == 0
    ensures Bucket(PRIMARY, (id, 0)) == (lower, 0) <==> InBucket(id, lower)
  {
  }

  /** The manifest after the primary partition of this bucket and all its history were taken over. */
  ghost predicate BucketTaken(before: Built, after: Built, src: Built, lower: nat, slots: seq<Option<nat>>) {
    var route := Route(PRIMARY, (lower, 0));
    && PartAt(src, route).Some? && SlotsKept(PartAt(src, route).value, slots)
    && PartAt(after, route) == Some(Retold(PartAt(src, route).value, slots))
    && (forall at: Pair :: at != (lower, 0) ==> PartAt(after, Route(PRIMARY, at)) == PartAt(before, Route(PRIMARY, at)))
    && (forall at: Pair :: HistoryTaken(before, after, src, lower, EVENTS, at))
    && (forall at: Pair :: HistoryTaken(before, after, src, lower, SNAPSHOTS, at))
  }

  ghost predicate HistoryTaken(before: Built, after: Built, src: Built, lower: nat, kind: nat, at: Pair) {
    PartAt(after, Route(kind, at)) == if InBucket(at.0, lower) then PartAt(src, Route(kind, at))
        else PartAt(before, Route(kind, at))
  }

  lemma TakenBucket(b: Built, b1: Built, b2: Built, b3: Built, src: Built, lower: nat, slots: seq<Option<nat>>)
    requires PartAt(src, Route(PRIMARY, (lower, 0))).Some?
             && SlotsKept(PartAt(src, Route(PRIMARY, (lower, 0))).value, slots)
    requires With(b, b1, Route(PRIMARY, (lower, 0)), Retold(PartAt(src, Route(PRIMARY, (lower, 0))).value, slots))
    requires TookRange(b1, b2, src, EVENTS, lower, lower + (WIDTH - 1))
             && TookRange(b2, b3, src, SNAPSHOTS, lower, lower + (WIDTH - 1))
    ensures BucketTaken(b, b3, src, lower, slots)
  {
    forall at: Pair ensures HistoryTaken(b, b3, src, lower, EVENTS, at) {
      assert RangeTaken(b1, b2, src, EVENTS, lower, lower + (WIDTH - 1), at);
    }
    forall at: Pair ensures HistoryTaken(b, b3, src, lower, SNAPSHOTS, at) {
      assert RangeTaken(b2, b3, src, SNAPSHOTS, lower, lower + (WIDTH - 1), at);
    }
  }

  /** Inside the bucket, entries resolve to the same generations and places as before. */
  lemma TakenLocated(before: Built, after: Built, src: Built, lower: nat, slots: seq<Option<nat>>, id: nat)
    requires BucketTaken(before, after, src, lower, slots) && BuiltOk(src) && lower % WIDTH == 0
    ensures InBucket(id, lower) && Located(src, id).None? ==> Located(after, id).None?
    ensures InBucket(id, lower) && Located(src, id).Some? ==>
              && Located(src, id).value.Locator? && Located(src, id).value.slot < |slots|
                 && slots[Located(src, id).value.slot].Some?
              && Located(after, id) == Some(Located(src, id).value.(slot := slots[Located(src, id).value.slot].value))
    ensures !InBucket(id, lower) ==> Located(after, id) == Located(before, id)
  {
    BucketOf(id, lower);
    if InBucket(id, lower) {
      assert PartOk(Route(PRIMARY, (lower, 0)), PartAt(src, Route(PRIMARY, (lower, 0))).value);
    }
  }

  lemma TakenHistory(
    before: Built, after: Built, src: Built, archive: Archive, lower: nat, slots: seq<Option<nat>>, id: nat,
    h: History, table: Model.Table)
    requires BucketTaken(before, after, src, lower, slots)
    requires Stored(src, archive) && Stored(before, archive)
    requires if InBucket(id, lower) then HistoryHeld(src, archive, id, h, table)
             else HistoryHeld(before, archive, id, h, table)
    ensures HistoryHeld(after, archive, id, h, table)
  {
    var from := if InBucket(id, lower) then src else before;
    forall route: Route | (route.kind == EVENTS || route.kind == SNAPSHOTS) && route.at.0 == id
      ensures PartAt(after, route) == PartAt(from, route)
    {
      assert HistoryTaken(before, after, src, lower, route.kind, route.at);
    }
    HistoryStays(from, archive, after, archive, id, h, table);
  }

  /** The entities of the bucket, at the slots their generations have in the next manifest. */
  function Taken(f: Frozen, slots: seq<Option<nat>>, lower: nat): map<nat, nat> {
    map id | id in f.disk && InBucket(id, lower) && KeptSlot(f, slots, id).Some? :: KeptSlot(f, slots, id).value
  }

  /** Nothing in the bucket was touched or has a quota. */
  ghost predicate Untapped(f: Frozen, slots: seq<Option<nat>>, quotas: seq<nat>, lower: nat) {
    forall id :: InBucket(id, lower) ==> id !in f.overlay && UntappedAt(f, slots, quotas, id)
  }

  ghost predicate UntappedAt(f: Frozen, slots: seq<Option<nat>>, quotas: seq<nat>, id: nat) {
    match KeptSlot(f, slots, id)
    case Some(slot) => slot < |quotas| && quotas[slot] == 0
    case None => true
  }

  lemma WentTaken(
    f: Frozen, slots: seq<Option<nat>>, newest: nat, placed: map<nat, nat>, moved: map<nat, nat>, quotas: seq<nat>,
    lower: nat)
    requires AllWent(f, slots, newest, placed, moved, quotas) && Untapped(f, slots, quotas, lower)
    requires Below(placed, lower)
    ensures AllWent(f, slots, newest, placed + Taken(f, slots, lower), moved, quotas)
  {
    var more := placed + Taken(f, slots, lower);
    forall id | id in moved ensures id < lower {
      assert Went(f, slots, newest, placed, moved, quotas, id);
    }
    forall id: nat ensures Went(f, slots, newest, more, moved, quotas, id) {
      assert Went(f, slots, newest, placed, moved, quotas, id);
      assert InBucket(id, lower) ==> UntappedAt(f, slots, quotas, id);
    }
  }

  /** The locators of a partition whose slots have no quota. */
  lemma PartUntapped(
    f: Frozen, table: nat, archive: Archive, definition: Model.Table, slots: seq<Option<nat>>, quotas: seq<nat>,
    lower: nat)
    requires FrozenGood(f, table, archive, definition) && Route(PRIMARY, (lower, 0)) in f.source.parts
    requires lower % WIDTH == 0 && SlotsKept(f.source.parts[Route(PRIMARY, (lower, 0))], slots)
    requires NoQuota(f.source.parts[Route(PRIMARY, (lower, 0))], slots, quotas)
    requires forall id :: InBucket(id, lower) ==> id !in f.overlay
    ensures Untapped(f, slots, quotas, lower)
  {
    assert FrozenOk(f, table, archive, definition);
    var route := Route(PRIMARY, (lower, 0));
    assert PartAt(Sealed(f.source.parts), route) == Some(f.source.parts[route]);
    assert PartOk(route, f.source.parts[route]);
    forall id: nat | InBucket(id, lower) ensures UntappedAt(f, slots, quotas, id) {
      BucketOf(id, lower);
    }
  }

  /** Every generation is drained whole. */
  ghost predicate NoneKept(slots: seq<Option<nat>>) {
    forall i :: 0 <= i < |slots| ==> slots[i].None?
  }

  /** A partition that is taken over has a kept generation. */
  lemma SomeSlotKept(
    f: Frozen, table: nat, archive: Archive, definition: Model.Table, slots: seq<Option<nat>>, lower: nat)
    requires FrozenGood(f, table, archive, definition) && Route(PRIMARY, (lower, 0)) in f.source.parts
    requires SlotsKept(f.source.parts[Route(PRIMARY, (lower, 0))], slots)
    ensures !NoneKept(slots)
  {
    assert FrozenOk(f, table, archive, definition);
    var route := Route(PRIMARY, (lower, 0));
    var part := f.source.parts[route];
    assert PartAt(Sealed(f.source.parts), route) == Some(part) && PartOk(route, part);
    var slot := part.entries[part.first].slot;
    assert slots[part.slots[slot]].Some?;
  }

  predicate NoQuota(part: Part, slots: seq<Option<nat>>, quotas: seq<nat>) {
    forall slot :: slot in part.slots ==>
      part.slots[slot] < |slots| && slots[part.slots[slot]].Some?
      && slots[part.slots[slot]].value < |quotas| && quotas[slots[part.slots[slot]].value] == 0
  }

  lemma TakenProgress(
    f: Frozen, before: Built, after: Built, archive: Archive, table: nat, generations: seq<nat>, newest: nat,
    definition: Model.Table, slots: seq<Option<nat>>, lower: nat, placed: map<nat, nat>, id: nat)
    requires FrozenOk(f, table, archive, definition) && SlotsOk(f, slots, generations, newest)
    requires BucketTaken(before, after, Sealed(f.source.parts), lower, slots) && lower % WIDTH == 0
             && Stored(before, archive)
    requires Progress(f, before, archive, generations, definition, placed, id)
    requires InBucket(id, lower) ==> id !in placed && id !in f.overlay
    ensures Progress(f, after, archive, generations, definition, placed + Taken(f, slots, lower), id)
  {
    TakenLocated(before, after, Sealed(f.source.parts), lower, slots, id);
    if InBucket(id, lower) {
      if id in f.disk {
        TakenEntity(f, before, after, archive, table, generations, newest, definition, slots, lower, id);
      }
    } else if id in placed {
      TakenHistory(before, after, Sealed(f.source.parts), archive, lower, slots, id, HistoryOf(f, id), definition);
    }
  }

  /** An entity of the bucket holds its history where its partition was taken to. */
  lemma TakenEntity(
    f: Frozen, before: Built, after: Built, archive: Archive, table: nat, generations: seq<nat>, newest: nat,
    definition: Model.Table, slots: seq<Option<nat>>, lower: nat, id: nat)
    requires FrozenOk(f, table, archive, definition) && SlotsOk(f, slots, generations, newest)
    requires BucketTaken(before, after, Sealed(f.source.parts), lower, slots) && lower % WIDTH == 0
             && Stored(before, archive)
    requires InBucket(id, lower) && id in f.disk && id !in f.overlay
    ensures id in Taken(f, slots, lower) && At(after, id, Taken(f, slots, lower)[id])
    ensures EntityHeld(after, archive, generations, id, HistoryOf(f, id), definition)
  {
    var src, h := Sealed(f.source.parts), DiskHistory(f.disk[id]);
    TakenLocated(before, after, src, lower, slots, id);
    assert RecordOk(f, archive, definition, id);
    TakenHistory(before, after, src, archive, lower, slots, id, h, f.disk[id].table);
    HeldUnderExtension(after, archive, id, h, f.disk[id].table, definition);
  }

  lemma BucketAdvanced(
    f: Frozen, before: Built, after: Built, archive: Archive, table: nat, generations: seq<nat>, newest: nat,
    definition: Model.Table, slots: seq<Option<nat>>, lower: nat, placed: map<nat, nat>, origin: map<nat, nat>)
    requires FrozenOk(f, table, archive, definition) && SlotsOk(f, slots, generations, newest)
    requires BucketTaken(before, after, Sealed(f.source.parts), lower, slots) && lower % WIDTH == 0
             && Stored(before, archive)
    requires AllProgress(f, before, archive, generations, definition, placed) && AllTraced(f, slots, placed, origin)
    requires forall id :: InBucket(id, lower) ==> id !in placed && id !in f.overlay
    ensures AllProgress(f, after, archive, generations, definition, placed + Taken(f, slots, lower))
    ensures AllTraced(f, slots, placed + Taken(f, slots, lower), origin + Taken(f, slots, lower))
  {
    var more, traces := placed + Taken(f, slots, lower), origin + Taken(f, slots, lower);
    forall id: nat ensures Progress(f, after, archive, generations, definition, more, id) {
      assert Progress(f, before, archive, generations, definition, placed, id);
      TakenProgress(f, before, after, archive, table, generations, newest, definition, slots, lower, placed, id);
    }
    forall id: nat ensures Traced(f, slots, more, traces, id) {
      assert Traced(f, slots, placed, origin, id);
    }
  }

  lemma TakenBalance(
    f: Frozen, slots: seq<Option<nat>>, generations: seq<nat>, placed: map<nat, nat>, origin: map<nat, nat>,
    dead: map<nat, nat>, newest: nat, entities: nat, lower: nat)
    requires AllBalanced(placed, origin, dead, newest, entities) && SlotsOk(f, slots, generations, newest)
    requires placed.Keys !! Taken(f, slots, lower).Keys && origin.Keys !! Taken(f, slots, lower).Keys
    ensures AllBalanced(placed + Taken(f, slots, lower), origin + Taken(f, slots, lower), dead, newest, entities)
  {
    var taken := Taken(f, slots, lower);
    var more, traces := placed + taken, origin + taken;
    forall slot: nat ensures Balanced(more, traces, dead, newest, entities, slot) {
      assert Balanced(placed, origin, dead, newest, entities, slot);
      CountUnion(placed, taken, slot);
      CountUnion(origin, taken, slot);
      if slot == newest {
        forall id | id in taken ensures taken[id] != newest {
          NeverNewest(f, slots, generations, newest, id);
        }
        assert Keys(taken, newest) == {};
      }
    }
  }

  lemma TakenDisjoint(f: Frozen, slots: seq<Option<nat>>, lower: nat, placed: map<nat, nat>, origin: map<nat, nat>)
    requires AllTraced(f, slots, placed, origin)
    requires forall id :: InBucket(id, lower) ==> id !in placed
    ensures placed.Keys !! Taken(f, slots, lower).Keys && origin.Keys !! Taken(f, slots, lower).Keys
  {
    forall id | id in Taken(f, slots, lower) ensures id !in origin {
      assert Traced(f, slots, placed, origin, id);
    }
  }

  /** Every entity of the bucket is taken. */
  lemma TakenAll(
    f: Frozen, before: Built, after: Built, archive: Archive, table: nat, definition: Model.Table,
    slots: seq<Option<nat>>, lower: nat)
    requires FrozenGood(f, table, archive, definition) && lower % WIDTH == 0
    requires BucketTaken(before, after, Sealed(f.source.parts), lower, slots)
    ensures forall id :: id in Taken(f, slots, lower) <==> InBucket(id, lower) && id in f.disk
  {
    assert FrozenOk(f, table, archive, definition);
    forall id: nat | InBucket(id, lower) && id in f.disk ensures id in Taken(f, slots, lower) {
      TakenLocated(before, after, Sealed(f.source.parts), lower, slots, id);
    }
  }

  // ----- the merged scan of one bucket -----

  /** Within the bucket, everything from `next` on is still free. */
  ghost predicate Visited(b: Built, lower: nat, next: nat) {
    && Clear(b, EVENTS, (next, 0)) && Clear(b, SNAPSHOTS, (next, 0)) && Clear(b, PRIMARY, (lower + WIDTH, 0))
    && (forall later :: next <= later ==> Ready(b, PRIMARY, (later, 0)))
  }

  /** Nothing of this bucket or later was written. */
  ghost predicate Untouched(b: Built, lower: nat) {
    Clear(b, PRIMARY, (lower, 0)) && Clear(b, EVENTS, (lower, 0)) && Clear(b, SNAPSHOTS, (lower, 0))
  }

  lemma StartVisit(b: Built, lower: nat)
    requires Untouched(b, lower) && lower % WIDTH == 0
    ensures Visited(b, lower, lower)
  {
    forall later: nat | lower <= later ensures Ready(b, PRIMARY, (later, 0)) {
      BucketMonotone(PRIMARY, (lower, 0), (later, 0));
      ClearIsReady(b, PRIMARY, (lower, 0), (later, 0));
    }
  }

  lemma SkipTo(b: Built, lower: nat, next: nat, id: nat)
    requires Visited(b, lower, next) && next <= id
    ensures Visited(b, lower, id)
  {
  }

  lemma VisitOne(before: Built, after: Built, lower: nat, id: nat)
    requires Visited(before, lower, id) && InBucket(id, lower) && lower % WIDTH == 0
    requires OnlyThis(before, after, id) && Clear(after, EVENTS, (id + 1, 0)) && Clear(after, SNAPSHOTS, (id + 1, 0))
    ensures Visited(after, lower, id + 1)
  {
    BucketOf(id, lower);
    forall at: Pair | PartAt(after, Route(PRIMARY, at)).Some? ensures Less(at, (lower + WIDTH, 0)) {
      if at != (lower, 0) {
        assert PartAt(before, Route(PRIMARY, at)).Some?;
      }
    }
  }

  lemma EndVisit(b: Built, lower: nat, next: nat)
    requires Visited(b, lower, next) && next <= lower + WIDTH
    ensures Untouched(b, lower + WIDTH)
  {
  }

  lemma LaterBucket(b: Built, lower: nat, later: nat)
    requires Untouched(b, lower) && lower <= later
    ensures Untouched(b, later)
  {
  }

  /** Exactly the entities of the bucket, in order. */
  ghost predicate Listed(f: Frozen, ids: seq<Pair>, lower: nat) {
    Ascending(ids) && forall key :: key in ids <==> key.1 == 0 && InBucket(key.0, lower) && Exists(f, key.0)
  }

  lemma ListedAt(f: Frozen, ids: seq<Pair>, lower: nat, i: nat)
    requires Listed(f, ids, lower) && i < |ids|
    ensures ids[i].1 == 0 && InBucket(ids[i].0, lower) && Exists(f, ids[i].0) && Ascending(ids)
    ensures i > 0 ==> ids[i - 1].0 + 1 <= ids[i].0
  {
    assert ids[i] in ids;
    if i > 0 {
      assert ids[i - 1] in ids && Less(ids[i - 1], ids[i]);
    }
  }

  /** visit_entries_range: the ids of the bucket that the manifest or the overlay has. */
  method BucketIds(f: Frozen, lower: nat, ghost table: nat, ghost archive: Archive, ghost definition: Model.Table)
    returns (ids: seq<Pair>)
    requires FrozenGood(f, table, archive, definition) && lower % WIDTH == 0
    ensures Listed(f, ids, lower)
  {
    assert FrozenOk(f, table, archive, definition);
    var route := Route(PRIMARY, (lower, 0));
    var disk := if route in f.source.parts then f.source.parts[route].entries.Keys else {};
    ids := Sorted(disk + set id | id in f.overlay && InBucket(id, lower) :: (id, 0));
    forall key ensures key in ids <==> key.1 == 0 && InBucket(key.0, lower) && Exists(f, key.0) {
      BucketOf(key.0, lower);
      if route in f.source.parts {
        assert PartAt(Sealed(f.source.parts), route) == Some(f.source.parts[route]);
        assert PartOk(route, f.source.parts[route]);
      }
    }
  }

  ghost predicate PlacedOne(placed: map<nat, nat>, before: map<nat, nat>, done: seq<Pair>, id: nat) {
    id in placed <==> id in before || (id, 0) in done
  }

  /** Exactly the entities in `done` were added. */
  ghost predicate PlacedTo(placed: map<nat, nat>, before: map<nat, nat>, done: seq<Pair>) {
    forall id :: PlacedOne(placed, before, done, id)
  }

  lemma PlaceOne(placed: map<nat, nat>, more: map<nat, nat>, before: map<nat, nat>, ids: seq<Pair>, i: nat)
    requires i < |ids| && PlacedTo(placed, before, ids[..i]) && ids[i].1 == 0
    requires more.Keys == placed.Keys + {ids[i].0}
    ensures PlacedTo(more, before, ids[..i + 1])
  {
    var done := ids[..i + 1];
    assert done == ids[..i] + [ids[i]];
    forall id: nat ensures PlacedOne(more, before, done, id) {
      assert PlacedOne(placed, before, ids[..i], id);
    }
  }

  /** Everything written so far comes before the next entity of the bucket. */
  lemma NotPlaced(placed: map<nat, nat>, before: map<nat, nat>, ids: seq<Pair>, i: nat, lower: nat)
    requires i < |ids| && PlacedTo(placed, before, ids[..i]) && Ascending(ids) && Below(before, lower)
    requires ids[i].1 == 0 && lower <= ids[i].0
    ensures Below(placed, ids[i].0)
  {
    forall id | id in placed ensures id < ids[i].0 {
      assert PlacedOne(placed, before, ids[..i], id);
      if (id, 0) in ids[..i] {
        var j :| 0 <= j < i && ids[j] == (id, 0);
        assert Less(ids[j], ids[i]);
      }
    }
  }

  lemma AllPlaced(f: Frozen, placed: map<nat, nat>, before: map<nat, nat>, ids: seq<Pair>, lower: nat)
    requires PlacedTo(placed, before, ids) && Listed(f, ids, lower)
    ensures forall id :: id in placed <==> id in before || (InBucket(id, lower) && Exists(f, id))
  {
    forall id: nat ensures id in placed <==> id in before || (InBucket(id, lower) && Exists(f, id)) {
      assert PlacedOne(placed, before, ids, id);
    }
  }

  // ----- the buckets of a table -----

  /** No entity lies between one bucket and the next. */
  lemma NoneBetween(lows: seq<Pair>, i: nat, next: nat, id: nat)
    requires Ascending(lows) && i <= |lows|
    requires forall low :: low in lows ==> low.1 == 0 && low.0 % WIDTH == 0
    requires Bucket(PRIMARY, (id, 0)) in lows
    requires next == if i == 0 then 0 else lows[i - 1].0 + WIDTH
    ensures id < next || (i < |lows| && lows[i].0 <= id)
  {
    var j :| 0 <= j < |lows| && lows[j] == Bucket(PRIMARY, (id, 0));
    BucketOf(id, lows[j].0);
    if j < i {
      assert j < i - 1 ==> Less(lows[j], lows[i - 1]);
    } else {
      assert i < j ==> Less(lows[i], lows[j]);
    }
  }

  /** Starts of buckets in order, and every entity's bucket among them. */
  ghost predicate BucketsOf(f: Frozen, lows: seq<Pair>) {
    && Ascending(lows) && (forall low :: low in lows ==> low.1 == 0 && low.0 % WIDTH == 0)
    && forall id :: Exists(f, id) ==> Bucket(PRIMARY, (id, 0)) in lows
  }

  /** The same, folded until it is asked for. */
  ghost predicate AreBuckets(f: Frozen, lows: seq<Pair>) {
    forall same: Frozen :: same == f ==> BucketsOf(same, lows)
  }

  /** The buckets build() walks: those of the manifest and those of the overlay. */
  method Buckets(f: Frozen, ghost table: nat, ghost archive: Archive, ghost definition: Model.Table)
    returns (lows: seq<Pair>)
    requires FrozenGood(f, table, archive, definition)
    ensures AreBuckets(f, lows)
  {
    var disk := set route | route in f.source.parts && route.kind == PRIMARY :: route.at;
    var overlay := set id | id in f.overlay :: Bucket(PRIMARY, (id, 0));
    lows := Sorted(disk + overlay);
    forall low | low in lows ensures low.1 == 0 && low.0 % WIDTH == 0 {
      if low in disk {
        DiskBucket(f, table, archive, definition, low);
      }
    }
    forall id | Exists(f, id) ensures Bucket(PRIMARY, (id, 0)) in lows {
      if id in f.disk {
        BucketOnDisk(f, table, archive, definition, id);
      } else {
        assert Bucket(PRIMARY, (id, 0)) in overlay;
      }
    }
  }

  lemma BucketOnDisk(f: Frozen, table: nat, archive: Archive, definition: Model.Table, id: nat)
    requires FrozenGood(f, table, archive, definition) && id in f.disk
    ensures Route(PRIMARY, Bucket(PRIMARY, (id, 0))) in f.source.parts
  {
    assert FrozenOk(f, table, archive, definition);
    assert Located(Sealed(f.source.parts), id).Some?;
  }

  lemma DiskBucket(f: Frozen, table: nat, archive: Archive, definition: Model.Table, low: Pair)
    requires FrozenGood(f, table, archive, definition) && Route(PRIMARY, low) in f.source.parts
    ensures low.1 == 0 && low.0 % WIDTH == 0
  {
    assert FrozenOk(f, table, archive, definition);
    assert PartAt(Sealed(f.source.parts), Route(PRIMARY, low)) == Some(f.source.parts[Route(PRIMARY, low)]);
    assert PartOk(Route(PRIMARY, low), f.source.parts[Route(PRIMARY, low)]);
  }

  /** Exactly the entities below `next` were written. */
  ghost predicate PlacedBelow(f: Frozen, placed: map<nat, nat>, next: nat) {
    forall id: nat :: id in placed <==> Exists(f, id) && id < next
  }

  lemma NothingBelow(f: Frozen)
    ensures PlacedBelow(f, map[], 0)
  {
  }

  lemma EverythingBelow(f: Frozen, placed: map<nat, nat>, next: nat)
    requires PlacedBelow(f, placed, next) && forall id: nat :: Exists(f, id) ==> id < next
    ensures AllWritten(f, placed)
  {
  }

  /** Exactly the frozen entities were written. */
  ghost predicate AllWritten(f: Frozen, placed: map<nat, nat>) {
    forall id :: id in placed <==> Exists(f, id)
  }

  lemma BelowBucket(f: Frozen, placed: map<nat, nat>, next: nat, lower: nat)
    requires PlacedBelow(f, placed, next) && next <= lower
    ensures Below(placed, lower)
  {
  }

  lemma BucketPlaced(f: Frozen, before: map<nat, nat>, placed: map<nat, nat>, next: nat, lower: nat)
    requires PlacedBelow(f, before, next) && next <= lower
    requires forall id :: id in placed <==> id in before || (InBucket(id, lower) && Exists(f, id))
    requires forall id: nat :: Exists(f, id) ==> id < next || lower <= id
    ensures PlacedBelow(f, placed, lower + WIDTH)
  {
  }
}
