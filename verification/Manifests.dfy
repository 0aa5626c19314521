/**
 How a checkpoint numbers its generations (database.rs, rebuild_slots): kept ones keep their order
 and move down, drained ones lose their slot, and the new generation comes last.
 */
module Numberings {
  import opened Results

  const MAX_SLOTS: nat := 256

  /** Kept generations keep their order and move down; absorbed ones have no slot. */
  ghost predicate Translates(
    prior: seq<nat>, absorb: set<nat>, upTo: nat, slots: seq<Option<nat>>, generations: seq<nat>)
    requires upTo <= |prior|
  {
    && |slots| == upTo
    && (forall i :: 0 <= i < upTo ==> (slots[i].Some? <==> prior[i] !in absorb))
    && (forall i :: 0 <= i < upTo && slots[i].Some? ==>
          slots[i].value < |generations| && generations[slots[i].value] == prior[i])
    && (forall i, j :: 0 <= i < j < upTo && slots[i].Some? && slots[j].Some? ==> slots[i].value < slots[j].value)
    && (forall slot :: 0 <= slot < |generations| ==> HasSlot(slots, slot))
  }

  /** Some kept generation has this slot. */
  ghost predicate HasSlot(slots: seq<Option<nat>>, slot: nat) {
    exists i :: 0 <= i < |slots| && slots[i] == Some(slot)
  }

  /** No kept generation has this slot. */
  ghost predicate NoSlot(slots: seq<Option<nat>>, slot: nat) {
    forall i :: 0 <= i < |slots| ==> slots[i] != Some(slot)
  }

  /** The generations of the next manifest, and the new slot of each old one. */
  datatype Numbering = Numbering(prior: seq<nat>, absorb: set<nat>, generations: seq<nat>, slots: seq<Option<nat>>)
  {
    function Newest(): nat
      requires |generations| > 0
    {
      |generations| - 1
    }

    ghost predicate Right() {
      && |slots| == |prior| && |generations| > 0
      && Translates(prior, absorb, |slots|, slots, generations[..|generations| - 1])
    }
  }

  /** How many generations stay. */
  function KeptCount(prior: seq<nat>, absorb: set<nat>): nat {
    if prior == [] then 0
    else KeptCount(prior[..|prior| - 1], absorb) + if prior[|prior| - 1] in absorb then 0 else 1
  }

  lemma KeptMore(prior: seq<nat>, absorb: set<nat>, i: nat)
    requires i < |prior|
    ensures KeptCount(prior[..i + 1], absorb) == KeptCount(prior[..i], absorb) + if prior[i] in absorb then 0 else 1
  {
    assert prior[..i + 1][..i] == prior[..i];
  }

  /** rebuild_slots. It fails exactly when the kept generations and the new one do not fit. */
  method RebuildSlots(prior: seq<nat>, absorb: set<nat>, generation: nat) returns (ok: bool, n: Numbering)
    ensures n.Right() && n.prior == prior && n.absorb == absorb && n.generations[n.Newest()] == generation
    ensures ok <==> |n.generations| <= MAX_SLOTS
    ensures |n.generations| == KeptCount(prior, absorb) + 1
  {
    var slots: seq<Option<nat>>, generations: seq<nat> := [], [];
    for i := 0 to |prior|
      invariant Translates(prior, absorb, i, slots, generations) && |generations| == KeptCount(prior[..i], absorb)
    {
      ghost var before, kept := slots, generations;
      KeptMore(prior, absorb, i);
      if prior[i] !in absorb {
        slots, generations := slots + [Some(|generations|)], generations + [prior[i]];
        assert slots[i] == Some(|kept|);
      } else {
        slots := slots + [None];
      }
      forall slot | 0 <= slot < |generations| ensures HasSlot(slots, slot) {
        if slot < |kept| {
          assert HasSlot(before, slot);
          var j :| 0 <= j < i && before[j] == Some(slot);
          assert slots[j] == Some(slot);
        }
      }
    }
    assert prior[..|prior|] == prior;
    n := Numbering(prior, absorb, generations + [generation], slots);
    assert n.generations[..|n.generations| - 1] == generations;
    ok := |n.generations| <= MAX_SLOTS;
  }

  ghost predicate Rising(generations: seq<nat>) {
    forall i, j :: 0 <= i < j < |generations| ==> generations[i] < generations[j]
  }

  /** Generations that are numbered in rising order still are. */
  lemma StillRising(n: Numbering)
    requires n.Right() && Rising(n.prior) && forall prior :: prior in n.prior ==> prior < n.generations[n.Newest()]
    ensures Rising(n.generations)
  {
    forall a, b | 0 <= a < b < |n.generations| ensures n.generations[a] < n.generations[b] {
      assert HasSlot(n.slots, a);
      var i :| 0 <= i < |n.slots| && n.slots[i] == Some(a);
      KeptAt(n, i);
      assert n.prior[i] in n.prior;
      if b < n.Newest() {
        assert HasSlot(n.slots, b);
        var j :| 0 <= j < |n.slots| && n.slots[j] == Some(b);
        KeptAt(n, j);
        assert i < j;
      }
    }
  }

  /** A kept generation keeps its number; the newest slot is nobody else's. */
  lemma KeptAt(n: Numbering, i: nat)
    requires n.Right() && i < |n.slots| && n.slots[i].Some?
    ensures n.slots[i].value < n.Newest() && n.generations[n.slots[i].value] == n.prior[i]
  {
    assert n.generations[..n.Newest()][n.slots[i].value] == n.generations[n.slots[i].value];
  }

  lemma NewestIsNew(n: Numbering)
    requires n.Right()
    ensures NoSlot(n.slots, n.Newest())
    ensures forall slot :: 0 <= slot < n.Newest() ==> HasSlot(n.slots, slot)
  {
  }

  /** The plan of a checkpoint: how much of each generation to move; a quota of u64::MAX drains it whole. */
  function Absorbed(plan: map<nat, nat>): set<nat> {
    set generation | generation in plan && plan[generation] == U64_MAX
  }

  function Planned(plan: map<nat, nat>, generation: nat): nat {
    if generation in plan then plan[generation] else 0
  }

  /** Each kept generation gets the quota the plan names for it. */
  method Quotas(n: Numbering, plan: map<nat, nat>) returns (quotas: seq<nat>)
    requires n.Right() && |n.generations| <= MAX_SLOTS
    ensures |quotas| == MAX_SLOTS
    ensures forall i :: 0 <= i < |n.slots| && n.slots[i].Some? ==> quotas[n.slots[i].value] == Planned(plan, n.prior[i])
  {
    quotas := seq(MAX_SLOTS, _ => 0);
    for at := 0 to |n.slots|
      invariant |quotas| == MAX_SLOTS
      invariant forall i :: 0 <= i < at && n.slots[i].Some? ==> quotas[n.slots[i].value] == Planned(plan, n.prior[i])
    {
      if n.slots[at].Some? {
        quotas := quotas[n.slots[at].value := Planned(plan, n.prior[at])];
      }
    }
  }
}

/**
 One table of a checkpoint: what its new part holds and what became of the entities of each generation
 (database.rs, CheckpointJob::build).
 */
module TableBuilds {
  import opened Results
  import Model
  import opened Histories
  import opened Files
  import opened Partitions
  import opened Archives
  import opened Holding
  import opened Counting
  import opened Numberings
  import C = Checkpoints
  import opened TableWriters
  import opened TablePasses

  function Ids(f: C.Frozen): set<nat> {
    f.disk.Keys + f.overlay.Keys
  }

  /** The entities whose primary entry points into a slot. */
  function IdsAt(parts: map<Route, Part>, ids: set<nat>, slot: nat): set<nat> {
    set id | id in ids && C.At(Sealed(parts), id, slot)
  }

  /** The new manifest's part of a table holds exactly the frozen state. */
  ghost predicate Holds(
    f: C.Frozen, parts: map<Route, Part>, archive: Archive, generations: seq<nat>, definition: Model.Table)
  {
    forall id :: HoldsOne(f, parts, archive, generations, definition, id)
  }

  ghost predicate HoldsOne(
    f: C.Frozen, parts: map<Route, Part>, archive: Archive, generations: seq<nat>, definition: Model.Table, id: nat)
  {
    if id in Ids(f) then EntityHeld(Sealed(parts), archive, generations, id, C.HistoryOf(f, id), definition)
    else Located(Sealed(parts), id).None?
  }

  /** What a pass over a table wrote: its files, their contents, and the counts for the occupancy. */
  datatype Outcome = Outcome(output: Source, archive: Archive, entities: nat, dead: map<nat, nat>)

  /** What became of the entities of each kept slot: they are still there or counted as dead. */
  ghost predicate Settles(f: C.Frozen, n: Numbering, r: Outcome)
    requires |n.generations| > 0
  {
    && |IdsAt(r.output.parts, Ids(f), n.Newest())| == r.entities && C.DeadOf(r.dead, n.Newest()) == 0
    && (forall i :: 0 <= i < |n.slots| && n.slots[i].Some? ==> SettlesAt(f, r, i, n.slots[i].value))
    && (forall slot :: NoSlot(n.slots, slot) ==> C.DeadOf(r.dead, slot) == 0)
  }

  ghost predicate SettlesAt(f: C.Frozen, r: Outcome, prior: nat, slot: nat) {
    |IdsAt(r.output.parts, Ids(f), slot)| + C.DeadOf(r.dead, slot) == |IdsAt(f.source.parts, f.disk.Keys, prior)|
  }

  /** Record files of the new generation are listed whether or not an entity went there. */
  ghost predicate ListsOwn(files: set<FileId>, table: nat, generation: nat) {
    FileId(table, generation, 0, 0) in files && FileId(table, generation, 1, 0) in files
  }

  lemma SameLocated(
    b: Built, after: Built, archive: Archive, generations: seq<nat>, id: nat, h: History, table: Model.Table)
    requires forall route :: PartAt(after, route) == PartAt(b, route)
    requires EntityHeld(b, archive, generations, id, h, table) && Stored(b, archive)
    ensures EntityHeld(after, archive, generations, id, h, table)
  {
    HistoryStays(b, archive, after, archive, id, h, table);
  }

  lemma WroteOne(
    f: C.Frozen, b: Built, parts: map<Route, Part>, archive: Archive, w: C.Setting, placed: map<nat, nat>, id: nat)
    requires forall route :: PartAt(Sealed(parts), route) == PartAt(b, route)
    requires C.Progress(f, b, archive, w.generations, w.definition, placed, id) && Stored(b, archive)
    requires id in placed <==> C.Exists(f, id)
    ensures HoldsOne(f, parts, archive, w.generations, w.definition, id)
    ensures id in Ids(f) ==> C.At(Sealed(parts), id, placed[id])
  {
    assert Located(Sealed(parts), id) == Located(b, id);
    if id in Ids(f) {
      SameLocated(b, Sealed(parts), archive, w.generations, id, C.HistoryOf(f, id), w.definition);
    }
  }

  lemma WroteAll(
    f: C.Frozen, b: Built, parts: map<Route, Part>, archive: Archive, w: C.Setting, placed: map<nat, nat>)
    requires forall route :: PartAt(Sealed(parts), route) == PartAt(b, route)
    requires C.Written(f, b, archive, w, placed) && Stored(b, archive) && C.AllWritten(f, placed)
    ensures Holds(f, parts, archive, w.generations, w.definition)
    ensures forall slot :: IdsAt(parts, Ids(f), slot) == Keys(placed, slot)
  {
    assert C.AllProgress(f, b, archive, w.generations, w.definition, placed);
    forall id: nat
      ensures HoldsOne(f, parts, archive, w.generations, w.definition, id)
      ensures id in Ids(f) ==> C.At(Sealed(parts), id, placed[id])
    {
      assert C.Progress(f, b, archive, w.generations, w.definition, placed, id);
      WroteOne(f, b, parts, archive, w, placed, id);
    }
    forall slot: nat ensures IdsAt(parts, Ids(f), slot) == Keys(placed, slot) {
      WroteAt(f, parts, placed, slot);
    }
  }

  lemma WroteAt(f: C.Frozen, parts: map<Route, Part>, placed: map<nat, nat>, slot: nat)
    requires C.AllWritten(f, placed)
    requires forall id :: id in Ids(f) ==> id in placed && C.At(Sealed(parts), id, placed[id])
    ensures IdsAt(parts, Ids(f), slot) == Keys(placed, slot)
  {
    forall id: nat ensures id in IdsAt(parts, Ids(f), slot) <==> id in Keys(placed, slot) {
    }
  }

  /** The ids traced to a kept slot are those that were located in its old slot. */
  lemma TracedFrom(f: C.Frozen, n: Numbering, k: C.Books, i: nat)
    requires n.Right() && C.AllTraced(f, n.slots, k.placed, k.origin) && C.AllWritten(f, k.placed)
    requires forall id :: Located(Sealed(f.source.parts), id).Some? <==> id in f.disk
    requires i < |n.slots| && n.slots[i].Some?
    ensures Keys(k.origin, n.slots[i].value) == IdsAt(f.source.parts, f.disk.Keys, i)
  {
    forall id: nat ensures id in Keys(k.origin, n.slots[i].value) <==> id in IdsAt(f.source.parts, f.disk.Keys, i) {
      assert C.Traced(f, n.slots, k.placed, k.origin, id);
      if id in f.disk && Located(Sealed(f.source.parts), id).value.Locator? {
        var at := Located(Sealed(f.source.parts), id).value.slot;
        if at < |n.slots| && n.slots[at] == n.slots[i] {
          assert at == i;
        }
      }
    }
  }

  lemma NoneTraced(f: C.Frozen, n: Numbering, k: C.Books, slot: nat)
    requires C.AllTraced(f, n.slots, k.placed, k.origin) && NoSlot(n.slots, slot)
    ensures Keys(k.origin, slot) == {}
  {
    forall id: nat ensures id !in Keys(k.origin, slot) {
      assert C.Traced(f, n.slots, k.placed, k.origin, id);
    }
  }

  lemma PassSettles(f: C.Frozen, n: Numbering, w: C.Setting, k: C.Books, r: Outcome)
    requires n.Right() && w.slots == n.slots && w.newest == n.Newest()
    requires C.BooksRight(f, w, k) && C.AllWritten(f, k.placed) && r.dead == k.dead && r.entities == k.entities
    requires forall id :: Located(Sealed(f.source.parts), id).Some? <==> id in f.disk
    requires forall slot :: IdsAt(r.output.parts, Ids(f), slot) == Keys(k.placed, slot)
    ensures Settles(f, n, r)
  {
    var newest := n.Newest();
    NewestIsNew(n);
    assert C.Balanced(k.placed, k.origin, k.dead, newest, k.entities, newest);
    assert IdsAt(r.output.parts, Ids(f), newest) == Keys(k.placed, newest);
    forall i | 0 <= i < |n.slots| && n.slots[i].Some? ensures SettlesAt(f, r, i, n.slots[i].value) {
      var slot := n.slots[i].value;
      assert C.Balanced(k.placed, k.origin, k.dead, newest, k.entities, slot);
      assert IdsAt(r.output.parts, Ids(f), slot) == Keys(k.placed, slot);
      TracedFrom(f, n, k, i);
    }
    forall slot: nat | NoSlot(n.slots, slot) ensures C.DeadOf(k.dead, slot) == 0 {
      assert C.Balanced(k.placed, k.origin, k.dead, newest, k.entities, slot);
      NoneTraced(f, n, k, slot);
    }
  }

  lemma SlotsFit(f: C.Frozen, n: Numbering)
    requires n.Right() && f.generations == n.prior
    ensures C.SlotsOk(f, n.slots, n.generations, n.Newest())
  {
    forall slot | 0 <= slot < |n.slots| && n.slots[slot].Some?
      ensures n.slots[slot].value < n.Newest() && n.generations[n.slots[slot].value] == f.generations[slot]
    {
      KeptAt(n, slot);
    }
  }

  /** How one checkpoint writes its history. */
  datatype Style = Style(segmentLimit: nat, size: Record -> nat, rewriteHistory: bool, rewriteIndexes: bool)

  ghost predicate StyleOk(style: Style) {
    forall record :: style.size(record) > 0
  }

  /** A table's new part: it holds exactly the frozen state, keeps every file it needs, and its counts are right. */
  ghost predicate Wrote(
    f: C.Frozen, table: nat, definition: Model.Table, archive: Archive, n: Numbering, r: Outcome)
  {
    && n.Right()
    && SourceOk(r.output, table, r.archive) && Preserves(archive, r.archive)
    && Holds(f, r.output.parts, r.archive, n.generations, definition)
    && Settles(f, n, r)
    && ListsOwn(r.output.files, table, n.generations[n.Newest()])
  }

  lemma PassWrote(
    f: C.Frozen, table: nat, definition: Model.Table, archive: Archive, b: Built, n: Numbering, w: C.Setting,
    k: C.Books, r: Outcome)
    requires C.FrozenGood(f, table, r.archive, definition)
    requires n.Right() && w.slots == n.slots && w.newest == n.Newest()
    requires w.generations == n.generations && w.definition == definition
    requires C.Written(f, b, r.archive, w, k.placed) && C.BooksOk(f, w, k) && C.AllWritten(f, k.placed)
             && Stored(b, r.archive)
    requires r.dead == k.dead && r.entities == k.entities
    requires forall route :: PartAt(Sealed(r.output.parts), route) == PartAt(b, route)
    requires SourceOk(r.output, table, r.archive) && Preserves(archive, r.archive)
    requires ListsOwn(r.output.files, table, n.generations[n.Newest()])
    ensures Wrote(f, table, definition, archive, n, r)
  {
    WroteAll(f, b, r.output.parts, r.archive, w, k.placed);
    assert C.BooksRight(f, w, k);
    assert C.FrozenOk(f, table, r.archive, definition);
    PassSettles(f, n, w, k, r);
  }

  // ----- what was moved, and what stayed -----

  /** The entities of an older generation that no transaction touched since. */
  function UntouchedAt(f: C.Frozen, slot: nat): set<nat> {
    set id | id in f.disk && id !in f.overlay && C.At(Sealed(f.source.parts), id, slot)
  }

  /** Those of them that the new generation has now. */
  function MovedFrom(f: C.Frozen, parts: map<Route, Part>, slot: nat, newest: nat): set<nat> {
    set id | id in UntouchedAt(f, slot) && C.At(Sealed(parts), id, newest)
  }

  /** As many were moved as the quota lost; one that stayed is where it was, after all the moved ones. */
  ghost predicate DrainsAt(
    f: C.Frozen, parts: map<Route, Part>, newest: nat, slot: nat, now: nat, quota: nat, left: nat)
  {
    && |MovedFrom(f, parts, slot, newest)| + left == quota
    && forall id :: StaysAfter(f, parts, newest, slot, now, left, id)
  }

  ghost predicate StaysAfter(
    f: C.Frozen, parts: map<Route, Part>, newest: nat, slot: nat, now: nat, left: nat, id: nat)
  {
    id in UntouchedAt(f, slot) && id !in MovedFrom(f, parts, slot, newest) ==>
      && C.At(Sealed(parts), id, now) && left == 0
      && forall other :: other in MovedFrom(f, parts, slot, newest) ==> other < id
  }

  ghost predicate Drains(f: C.Frozen, n: Numbering, parts: map<Route, Part>, quotas: seq<nat>, left: seq<nat>)
    requires |n.generations| > 0
  {
    |left| == |quotas| && forall i :: 0 <= i < |n.slots| ==> DrainsSlot(f, n, parts, quotas, left, i)
  }

  ghost predicate DrainsSlot(
    f: C.Frozen, n: Numbering, parts: map<Route, Part>, quotas: seq<nat>, left: seq<nat>, i: nat)
    requires |n.generations| > 0 && i < |n.slots| && |left| == |quotas|
  {
    n.slots[i].Some? ==>
      && n.slots[i].value < |quotas|
      && DrainsAt(f, parts, n.Newest(), i, n.slots[i].value, quotas[n.slots[i].value], left[n.slots[i].value])
  }

  /** What was touched, or was in no kept generation, is written anew. */
  ghost predicate Rewrites(f: C.Frozen, n: Numbering, parts: map<Route, Part>)
    requires |n.generations| > 0
  {
    forall id :: id in Ids(f) && (id in f.overlay || InNoKept(f, n, id)) ==> C.At(Sealed(parts), id, n.Newest())
  }

  ghost predicate InNoKept(f: C.Frozen, n: Numbering, id: nat) {
    forall i :: 0 <= i < |n.slots| && C.At(Sealed(f.source.parts), id, i) ==> n.slots[i].None?
  }

  /** Where the pass put every entity. */
  ghost predicate PlacesAll(f: C.Frozen, parts: map<Route, Part>, placed: map<nat, nat>) {
    C.AllWritten(f, placed) && forall slot :: IdsAt(parts, Ids(f), slot) == Keys(placed, slot)
  }

  lemma PlacedAt(f: C.Frozen, parts: map<Route, Part>, placed: map<nat, nat>, id: nat, slot: nat)
    requires PlacesAll(f, parts, placed) && id in Ids(f)
    ensures id in placed && (C.At(Sealed(parts), id, slot) <==> placed[id] == slot)
  {
    assert IdsAt(parts, Ids(f), slot) == Keys(placed, slot);
    assert id in IdsAt(parts, Ids(f), slot) <==> id in Keys(placed, slot);
  }

  lemma KeptFrom(f: C.Frozen, n: Numbering, i: nat, id: nat)
    requires n.Right() && i < |n.slots| && n.slots[i].Some?
    ensures C.At(Sealed(f.source.parts), id, i) <==> C.KeptSlot(f, n.slots, id) == n.slots[i]
  {
    if C.KeptSlot(f, n.slots, id) == n.slots[i] {
      var at := Located(Sealed(f.source.parts), id).value.slot;
      assert at == i;
    }
  }

  /** What the quota moved is exactly what is in the new generation now. */
  lemma MovedIsMoved(f: C.Frozen, n: Numbering, parts: map<Route, Part>, w: C.Setting, k: C.Books, i: nat)
    requires n.Right() && w.slots == n.slots && w.newest == n.Newest()
    requires C.AllWent(f, w.slots, w.newest, k.placed, k.moved, k.quotas) && PlacesAll(f, parts, k.placed)
    requires forall id :: Located(Sealed(f.source.parts), id).Some? <==> id in f.disk
    requires i < |n.slots| && n.slots[i].Some?
    ensures MovedFrom(f, parts, i, n.Newest()) == Keys(k.moved, n.slots[i].value)
  {
    KeptAt(n, i);
    forall id: nat ensures id in MovedFrom(f, parts, i, n.Newest()) <==> id in Keys(k.moved, n.slots[i].value) {
      assert C.Went(f, w.slots, w.newest, k.placed, k.moved, k.quotas, id);
      KeptFrom(f, n, i, id);
      if id in f.disk {
        PlacedAt(f, parts, k.placed, id, n.Newest());
      }
    }
  }

  lemma StaysWhere(
    f: C.Frozen, n: Numbering, parts: map<Route, Part>, w: C.Setting, k: C.Books, i: nat, id: nat)
    requires n.Right() && w.slots == n.slots && w.newest == n.Newest()
    requires C.AllWent(f, w.slots, w.newest, k.placed, k.moved, k.quotas) && PlacesAll(f, parts, k.placed)
    requires i < |n.slots| && n.slots[i].Some? && n.slots[i].value < |k.quotas|
    requires MovedFrom(f, parts, i, n.Newest()) == Keys(k.moved, n.slots[i].value)
    ensures StaysAfter(f, parts, n.Newest(), i, n.slots[i].value, k.quotas[n.slots[i].value], id)
  {
    if id in UntouchedAt(f, i) && id !in MovedFrom(f, parts, i, n.Newest()) {
      assert C.Went(f, w.slots, w.newest, k.placed, k.moved, k.quotas, id);
      KeptFrom(f, n, i, id);
      PlacedAt(f, parts, k.placed, id, n.slots[i].value);
      assert id !in Keys(k.moved, n.slots[i].value);
    }
  }

  lemma PassDrains(f: C.Frozen, n: Numbering, parts: map<Route, Part>, w: C.Setting, k: C.Books)
    requires n.Right() && w.slots == n.slots && w.newest == n.Newest() && |n.generations| <= |w.initial|
    requires C.BooksRight(f, w, k) && PlacesAll(f, parts, k.placed)
    requires forall id :: Located(Sealed(f.source.parts), id).Some? <==> id in f.disk
    ensures Drains(f, n, parts, w.initial, k.quotas) && Rewrites(f, n, parts)
  {
    forall i: nat | i < |n.slots| ensures DrainsSlot(f, n, parts, w.initial, k.quotas, i) {
      if n.slots[i].Some? {
        KeptAt(n, i);
        MovedIsMoved(f, n, parts, w, k, i);
        assert C.Drained(k.moved, w.initial, k.quotas, n.slots[i].value);
        forall id: nat ensures StaysAfter(f, parts, n.Newest(), i, n.slots[i].value, k.quotas[n.slots[i].value], id) {
          StaysWhere(f, n, parts, w, k, i, id);
        }
      }
    }
    forall id | id in Ids(f) && (id in f.overlay || InNoKept(f, n, id)) ensures C.At(Sealed(parts), id, n.Newest()) {
      assert C.Went(f, w.slots, w.newest, k.placed, k.moved, k.quotas, id);
      PlacedAt(f, parts, k.placed, id, n.Newest());
    }
  }

  lemma PassMoved(
    f: C.Frozen, table: nat, definition: Model.Table, b: Built, n: Numbering, w: C.Setting, k: C.Books, r: Outcome)
    requires C.FrozenGood(f, table, r.archive, definition)
    requires n.Right() && w.slots == n.slots && w.newest == n.Newest() && |n.generations| <= |w.initial|
    requires w.generations == n.generations && w.definition == definition
    requires C.Written(f, b, r.archive, w, k.placed) && C.BooksOk(f, w, k) && C.AllWritten(f, k.placed)
             && Stored(b, r.archive)
    requires forall route :: PartAt(Sealed(r.output.parts), route) == PartAt(b, route)
    ensures Drains(f, n, r.output.parts, w.initial, k.quotas) && Rewrites(f, n, r.output.parts)
  {
    WroteAll(f, b, r.output.parts, r.archive, w, k.placed);
    assert C.BooksRight(f, w, k);
    assert C.FrozenOk(f, table, r.archive, definition);
    PassDrains(f, n, r.output.parts, w, k);
  }

  /**
   Nothing is listed that is not needed: an older file is one that a partition uses, and none when the
   history is rewritten and no generation is kept.
   */
  ghost predicate Spare(table: nat, n: Numbering, style: Style, output: Source)
    requires |n.generations| > 0
  {
    && (forall file :: file in output.files ==>
          || (file.table == table && file.generation == n.generations[n.Newest()])
          || Used(output.parts, file))
    && (style.rewriteHistory && C.NoneKept(n.slots) ==>
          forall file :: file in output.files ==> file.generation == n.generations[n.Newest()])
  }

  /** Writes one table; the result holds exactly the frozen state, whatever was reused, carried, moved or drained. */
  method BuildTable(
    table: nat, f: C.Frozen, definition: Model.Table, archive: Archive, n: Numbering, quotas: seq<nat>, style: Style)
    returns (ok: bool, r: Outcome, left: seq<nat>)
    requires C.FrozenGood(f, table, archive, definition) && StyleOk(style)
    requires n.Right() && f.generations == n.prior && |n.generations| <= |quotas|
    requires forall at :: at in archive && at.place.Place? ==> at.place.generation != n.generations[n.Newest()]
    ensures ok && Wrote(f, table, definition, archive, n, r)
    ensures Drains(f, n, r.output.parts, quotas, left) && Rewrites(f, n, r.output.parts)
    ensures Spare(table, n, style, r.output)
  {
    SlotsFit(f, n);
    var writer := new TableWriter(table, n.generations[n.Newest()], n.Newest(), style.segmentLimit, style.size,
                                  style.rewriteHistory, style.rewriteIndexes, archive);
    var pass := new TablePass(writer, n.slots, quotas, n.generations, definition, f);
    ok := pass.Run(f);
    ghost var b, w, k := writer.State(), pass.Work(), pass.Books();
    var output;
    ok, output := writer.Finish();
    r, left := Outcome(output, writer.archive, writer.entities, pass.dead), pass.quotas;
    PassWrote(f, table, definition, archive, b, n, w, k, r);
    PassMoved(f, table, definition, b, n, w, k, r);
  }
}

/**
 The occupancy counters of a manifest: the entities ever written into a generation of a table, and
 those superseded since (database.rs, kept_occupancy).
 */
module Occupancies {
  import opened Results
  import opened Partitions
  import opened Numberings
  import opened TableBuilds
  import C = Checkpoints

  datatype Occupancy = Occupancy(entities: nat, dead: nat)

  type Counters = map<(nat, nat), Occupancy>

  function OccupancyOf(counters: Counters, table: nat, slot: nat): Occupancy {
    if (table, slot) in counters then counters[(table, slot)] else Occupancy(0, 0)
  }

  /** The counters of a table no pass has reached yet: those of the older manifest, at their new slots. */
  ghost predicate NotCounted(before: Counters, n: Numbering, counters: Counters, table: nat)
    requires |n.generations| > 0
  {
    && (forall i :: 0 <= i < |n.slots| && n.slots[i].Some? ==>
          OccupancyOf(counters, table, n.slots[i].value) == OccupancyOf(before, table, i))
    && OccupancyOf(counters, table, n.Newest()) == Occupancy(0, 0)
  }

  /** kept_occupancy: the counters move to the new slots. */
  method KeptOccupancy(counters: Counters, n: Numbering) returns (r: Counters)
    requires n.Right()
    ensures forall table :: NotCounted(counters, n, r, table)
  {
    r := map[];
    for at := 0 to |n.slots|
      invariant forall table, i :: 0 <= i < at && n.slots[i].Some? ==>
                  OccupancyOf(r, table, n.slots[i].value) == OccupancyOf(counters, table, i)
      invariant forall key :: key in r ==> exists i :: 0 <= i < at && n.slots[i] == Some(key.1)
    {
      if n.slots[at].Some? {
        var slot := n.slots[at].value;
        r := r + map key: (nat, nat) | key in counters && key.1 == at :: (key.0, slot) := counters[key];
      }
    }
    NewestIsNew(n);
  }

  /** What a table's pass adds to the counters. */
  function Counted(counters: Counters, table: nat, newest: nat, entities: nat, dead: map<nat, nat>): Counters {
    var died := counters + map key | key in (set slot | slot in dead :: (table, slot)) ::
                  Occupancy(OccupancyOf(counters, table, key.1).entities,
                            OccupancyOf(counters, table, key.1).dead + dead[key.1]);
    var own := OccupancyOf(died, table, newest);
    died[(table, newest) := Occupancy(own.entities + entities, own.dead)]
  }

  /** entities - dead is the number of entities located there. */
  ghost predicate Counts(counters: Counters, table: nat, parts: map<Route, Part>, ids: set<nat>, slot: nat) {
    OccupancyOf(counters, table, slot).entities == OccupancyOf(counters, table, slot).dead + |IdsAt(parts, ids, slot)|
  }

  /** What a pass adds to one counter of its own table. */
  lemma CountedAt(counters: Counters, table: nat, newest: nat, entities: nat, dead: map<nat, nat>, slot: nat)
    requires C.DeadOf(dead, newest) == 0
    ensures OccupancyOf(Counted(counters, table, newest, entities, dead), table, slot)
         == Occupancy(OccupancyOf(counters, table, slot).entities + (if slot == newest then entities else 0),
                      OccupancyOf(counters, table, slot).dead + C.DeadOf(dead, slot))
  {
  }

  lemma CountedCounts(f: C.Frozen, n: Numbering, r: Outcome, before: Counters, kept: Counters, table: nat, slot: nat)
    requires n.Right() && Settles(f, n, r) && slot < |n.generations|
    requires forall i :: 0 <= i < |n.slots| ==> Counts(before, table, f.source.parts, f.disk.Keys, i)
    requires NotCounted(before, n, kept, table)
    ensures Counts(Counted(kept, table, n.Newest(), r.entities, r.dead), table, r.output.parts, Ids(f), slot)
  {
    NewestIsNew(n);
    CountedAt(kept, table, n.Newest(), r.entities, r.dead, slot);
    if slot != n.Newest() {
      assert HasSlot(n.slots, slot);
      var i :| 0 <= i < |n.slots| && n.slots[i] == Some(slot);
      assert SettlesAt(f, r, i, slot);
      assert Counts(before, table, f.source.parts, f.disk.Keys, i);
    }
  }

  /** Other tables' counters are untouched. */
  lemma CountedOthers(counters: Counters, table: nat, newest: nat, r: Outcome, other: nat, slot: nat)
    requires other != table
    ensures OccupancyOf(Counted(counters, table, newest, r.entities, r.dead), other, slot)
            == OccupancyOf(counters, other, slot)
  {
  }
}

/**
 A whole checkpoint (database.rs, CheckpointJob::build; snapshot.rs, Root): the generation slots,
 the tables one after another, the files they need, and the occupancy counters.
 */
module Manifests {
  import opened Results
  import Model
  import opened Histories
  import opened Files
  import opened Partitions
  import opened Archives
  import opened Holding
  import opened SortedKeys
  import opened Numberings
  import opened TableBuilds
  import opened Occupancies
  import C = Checkpoints
  import T = Transactions

  /** Root: `files` are all files the manifest lists, and a locator's slot indexes `generations`. */
  datatype Manifest = Manifest(
    generation: nat,
    generations: seq<nat>,
    tables: map<nat, map<Route, Part>>,
    files: set<FileId>,
    occupancy: Counters)

  /** The frozen state: the newest manifest, what it and the overlay hold of each table, and the files' contents. */
  datatype State = State(
    manifest: Manifest,
    catalog: map<nat, Model.Table>,
    tables: map<nat, C.Frozen>,
    archives: map<nat, Archive>)

  function PartsOf(m: Manifest, table: nat): map<Route, Part> {
    if table in m.tables then m.tables[table] else map[]
  }

  /** Record files of a generation are listed while an entity of the table is located there. */
  ghost predicate RecordsListed(m: Manifest, table: nat, ids: set<nat>, slot: nat)
    requires slot < |m.generations|
  {
    IdsAt(PartsOf(m, table), ids, slot) != {} ==> ListsOwn(m.files, table, m.generations[slot])
  }

  /** The counter and the files of one slot of a table. */
  ghost predicate SlotOk(m: Manifest, table: nat, ids: set<nat>, slot: nat) {
    slot < |m.generations| ==>
        Counts(m.occupancy, table, PartsOf(m, table), ids, slot)
        && RecordsListed(m, table, ids, slot)
  }

  /** The manifest has nothing of this table. */
  ghost predicate Absent(m: Manifest, table: nat) {
    table !in m.tables && forall slot :: NoneCounted(m, table, slot)
  }

  ghost predicate NoneCounted(m: Manifest, table: nat, slot: nat) {
    slot < |m.generations| ==> OccupancyOf(m.occupancy, table, slot) == Occupancy(0, 0)
  }

  ghost predicate TableOk(s: State, table: nat) {
    if table in s.catalog then
      && table in s.tables && table in s.archives
      && s.tables[table].source == Source(PartsOf(s.manifest, table), s.manifest.files)
      && s.tables[table].generations == s.manifest.generations
      && C.FrozenGood(s.tables[table], table, s.archives[table], s.catalog[table])
      && forall slot :: SlotOk(s.manifest, table, s.tables[table].disk.Keys, slot)
    else table !in s.tables && table !in s.archives && Absent(s.manifest, table)
  }

  /** No file of this generation exists yet. */
  ghost predicate NewGeneration(s: State, generation: nat) {
    && generation !in s.manifest.generations
    && forall table :: table in s.archives ==> Without(s.archives[table], generation)
  }

  ghost predicate Without(archive: Archive, generation: nat) {
    forall at :: at in archive && at.place.Place? ==> at.place.generation != generation
  }

  ghost predicate StateOk(s: State) {
    forall table :: TableOk(s, table)
  }

  /** The table in the next manifest: its contents, counters and files. */
  ghost predicate TableBuilt(s: State, next: Manifest, grown: map<nat, Archive>, table: nat) {
    && table in next.tables && table in grown && table in s.tables && table in s.archives && table in s.catalog
    && Preserves(s.archives[table], grown[table])
    && Holds(s.tables[table], next.tables[table], grown[table], next.generations, s.catalog[table])
    && SourceOk(Source(next.tables[table], next.files), table, grown[table])
    && forall slot :: SlotOk(next, table, Ids(s.tables[table]), slot)
  }

  /** kept_files: record files of the generations that stay. */
  function KeptFiles(files: set<FileId>, absorb: set<nat>): set<FileId> {
    set file | file in files && file.kind <= 1 && file.generation !in absorb
  }

  lemma SourceGrows(parts: map<Route, Part>, files: set<FileId>, more: set<FileId>, table: nat, archive: Archive)
    requires SourceOk(Source(parts, files), table, archive) && files <= more
    ensures SourceOk(Source(parts, more), table, archive)
  {
  }

  /** What one checkpoint works with: the frozen state, and its numbering, which follows the state's manifest. */
  ghost predicate Numbered(s: State, n: Numbering) {
    n.Right() && n.prior == s.manifest.generations
  }

  /** The next manifest after one more table. */
  function WithTable(m: Manifest, table: nat, newest: nat, r: Outcome): Manifest {
    Manifest(m.generation, m.generations, m.tables[table := r.output.parts], m.files + r.output.files,
             Counted(m.occupancy, table, newest, r.entities, r.dead))
  }

  /** Record files stay listed: those of kept generations were listed before, those of the new one are its own. */
  lemma RecordsStay(s: State, n: Numbering, table: nat, r: Outcome, m: Manifest, slot: nat)
    requires TableOk(s, table) && table in s.catalog && Numbered(s, n) && slot < |n.generations|
    requires Settles(s.tables[table], n, r) && KeptFiles(s.manifest.files, n.absorb) <= m.files
    requires ListsOwn(m.files, table, n.generations[n.Newest()])
    requires m.generations == n.generations && PartsOf(m, table) == r.output.parts
    ensures RecordsListed(m, table, Ids(s.tables[table]), slot)
  {
    var f := s.tables[table];
    NewestIsNew(n);
    if slot < n.Newest() && IdsAt(r.output.parts, Ids(f), slot) != {} {
      assert HasSlot(n.slots, slot);
      var i :| 0 <= i < |n.slots| && n.slots[i] == Some(slot);
      KeptAt(n, i);
      assert SettlesAt(f, r, i, slot);
      assert IdsAt(f.source.parts, f.disk.Keys, i) != {};
      assert SlotOk(s.manifest, table, f.disk.Keys, i);
    }
  }

  lemma SlotIsBuilt(s: State, n: Numbering, before: Manifest, table: nat, r: Outcome, slot: nat)
    requires TableOk(s, table) && table in s.catalog && Numbered(s, n) && before.generations == n.generations
    requires NotCounted(s.manifest.occupancy, n, before.occupancy, table)
    requires KeptFiles(s.manifest.files, n.absorb) <= before.files
    requires Settles(s.tables[table], n, r) && ListsOwn(r.output.files, table, n.generations[n.Newest()])
    ensures SlotOk(WithTable(before, table, n.Newest(), r), table, Ids(s.tables[table]), slot)
  {
    if slot < |n.generations| {
      var f, after := s.tables[table], WithTable(before, table, n.Newest(), r);
      forall i | 0 <= i < |n.slots| ensures Counts(s.manifest.occupancy, table, f.source.parts, f.disk.Keys, i) {
        assert SlotOk(s.manifest, table, f.disk.Keys, i);
      }
      CountedCounts(f, n, r, s.manifest.occupancy, before.occupancy, table, slot);
      RecordsStay(s, n, table, r, after, slot);
    }
  }

  lemma TableIsBuilt(s: State, n: Numbering, before: Manifest, grown: map<nat, Archive>, table: nat, r: Outcome)
    requires TableOk(s, table) && table in s.catalog && Numbered(s, n) && before.generations == n.generations
    requires NotCounted(s.manifest.occupancy, n, before.occupancy, table)
    requires KeptFiles(s.manifest.files, n.absorb) <= before.files
    requires Wrote(s.tables[table], table, s.catalog[table], s.archives[table], n, r)
    ensures TableBuilt(s, WithTable(before, table, n.Newest(), r), grown[table := r.archive], table)
  {
    var after := WithTable(before, table, n.Newest(), r);
    SourceGrows(r.output.parts, r.output.files, after.files, table, r.archive);
    forall slot: nat ensures SlotOk(after, table, Ids(s.tables[table]), slot) {
      SlotIsBuilt(s, n, before, table, r, slot);
    }
  }

  /** Tables already built are unaffected by the next one. */
  lemma TableBuiltStays(
    s: State, n: Numbering, before: Manifest, grown: map<nat, Archive>, table: nat, r: Outcome, other: nat)
    requires TableBuilt(s, before, grown, other) && other != table && |n.generations| > 0
    ensures TableBuilt(s, WithTable(before, table, n.Newest(), r), grown[table := r.archive], other)
  {
    var after := WithTable(before, table, n.Newest(), r);
    SourceGrows(before.tables[other], before.files, after.files, other, grown[other]);
    forall slot: nat ensures SlotOk(after, other, Ids(s.tables[other]), slot) {
      assert SlotOk(before, other, Ids(s.tables[other]), slot);
      CountedOthers(before.occupancy, table, n.Newest(), r, other, slot);
    }
  }

  /** A table is built once its turn has come; until then its counters are those of the older manifest. */
  ghost predicate Stage(
    s: State, n: Numbering, next: Manifest, grown: map<nat, Archive>, done: seq<Pair>, table: nat)
    requires |n.generations| > 0
  {
    if (table, 0) in done then TableBuilt(s, next, grown, table)
    else table !in next.tables && NotCounted(s.manifest.occupancy, n, next.occupancy, table)
  }

  /** What holds while build() works through the tables. */
  ghost predicate Building(s: State, n: Numbering, next: Manifest, grown: map<nat, Archive>, done: seq<Pair>) {
    && Numbered(s, n) && next.generations == n.generations
    && KeptFiles(s.manifest.files, n.absorb) <= next.files
    && forall table: nat :: Stage(s, n, next, grown, done, table)
  }

  lemma StageStays(
    s: State, n: Numbering, before: Manifest, grown: map<nat, Archive>, done: seq<Pair>, table: nat, r: Outcome,
        other: nat)
    requires |n.generations| > 0 && Stage(s, n, before, grown, done, other) && other != table
    ensures Stage(s, n, WithTable(before, table, n.Newest(), r), grown[table := r.archive], done + [(table, 0)], other)
  {
    if (other, 0) in done {
      TableBuiltStays(s, n, before, grown, table, r, other);
    } else {
      forall slot: nat
        ensures OccupancyOf(Counted(before.occupancy, table, n.Newest(), r.entities, r.dead), other, slot)
             == OccupancyOf(before.occupancy, other, slot)
      {
        CountedOthers(before.occupancy, table, n.Newest(), r, other, slot);
      }
    }
  }

  lemma OneMoreTable(
    s: State, n: Numbering, before: Manifest, grown: map<nat, Archive>, done: seq<Pair>, table: nat, r: Outcome)
    requires Building(s, n, before, grown, done) && TableOk(s, table) && table in s.catalog && (table, 0) !in done
    requires Wrote(s.tables[table], table, s.catalog[table], s.archives[table], n, r)
    ensures Building(s, n, WithTable(before, table, n.Newest(), r), grown[table := r.archive], done + [(table, 0)])
  {
    assert Stage(s, n, before, grown, done, table);
    TableIsBuilt(s, n, before, grown, table, r);
    var after, archives, more := WithTable(before, table, n.Newest(), r), grown[table := r.archive],
        done + [(table, 0)];
    forall other: nat ensures Stage(s, n, after, archives, more, other) {
      assert Stage(s, n, before, grown, done, other);
      if other != table {
        StageStays(s, n, before, grown, done, table, r, other);
      }
    }
  }

  lemma StartBuilding(s: State, n: Numbering, next: Manifest)
    requires Numbered(s, n) && next.generations == n.generations
    requires KeptFiles(s.manifest.files, n.absorb) <= next.files
    requires next.tables == map[] && forall table :: NotCounted(s.manifest.occupancy, n, next.occupancy, table)
    ensures Building(s, n, next, map[], [])
  {
  }

  lemma NextKey(keys: seq<Pair>, i: nat)
    requires i < |keys| && Ascending(keys)
    ensures keys[i] in keys && keys[i] !in keys[..i] && keys[..i + 1] == keys[..i] + [keys[i]]
    ensures forall key :: key in keys[..i] ==> Less(key, keys[i])
  {
  }

  // ----- what a checkpoint moves -----

  /** The entities of an older generation that no transaction touched since, over all tables. */
  function UntouchedKeys(s: State, i: nat): set<T.Key> {
    set table, id | table in s.tables && id in UntouchedAt(s.tables[table], i) :: (table, id)
  }

  /** Those of the tables built so far that the new generation has now. */
  function MovedKeys(s: State, next: map<nat, map<Route, Part>>, i: nat, newest: nat): set<T.Key> {
    set table, id |
      table in next && table in s.tables && id in MovedFrom(s.tables[table], next[table], i, newest) :: (table, id)
  }

  /** The order in which entities are visited. */
  ghost predicate Earlier(a: T.Key, b: T.Key) {
    a.0 < b.0 || (a.0 == b.0 && a.1 < b.1)
  }

  /** An untouched entity that was not moved is where it was, and everything that was moved comes before it. */
  ghost predicate KeyStays(
    s: State, next: map<nat, map<Route, Part>>, i: nat, now: nat, newest: nat, left: nat, key: T.Key)
  {
    key in UntouchedKeys(s, i) && key.0 in next && key !in MovedKeys(s, next, i, newest) ==>
      && C.At(Sealed(next[key.0]), key.1, now) && left == 0
      && forall other :: other in MovedKeys(s, next, i, newest) ==> Earlier(other, key)
  }

  /** So far as many entities were moved as the quota lost. */
  ghost predicate Draining(
    s: State, next: map<nat, map<Route, Part>>, i: nat, now: nat, newest: nat, quota: nat, left: nat)
  {
    && |MovedKeys(s, next, i, newest)| + left == quota
    && forall key :: KeyStays(s, next, i, now, newest, left, key)
  }

  function Tagged(table: nat, ids: set<nat>): set<T.Key> {
    set id | id in ids :: (table, id)
  }

  lemma {:induction false} TaggedCount(table: nat, ids: set<nat>)
    ensures |Tagged(table, ids)| == |ids|
    decreases ids
  {
    if ids != {} {
      var id :| id in ids;
      TaggedCount(table, ids - {id});
      assert Tagged(table, ids) == Tagged(table, ids - {id}) + {(table, id)};
    }
  }

  lemma MovedAt(
    s: State, before: map<nat, map<Route, Part>>, table: nat, parts: map<Route, Part>, i: nat, newest: nat, key: T.Key)
    requires table in s.tables && table !in before
    ensures key in MovedKeys(s, before[table := parts], i, newest) <==>
            key in MovedKeys(s, before, i, newest) || key in Tagged(table, MovedFrom(s.tables[table], parts, i, newest))
  {
  }

  lemma MovedMore(
    s: State, before: map<nat, map<Route, Part>>, table: nat, parts: map<Route, Part>, i: nat, newest: nat)
    requires table in s.tables && table !in before
    ensures MovedKeys(s, before[table := parts], i, newest)
         == MovedKeys(s, before, i, newest) + Tagged(table, MovedFrom(s.tables[table], parts, i, newest))
    ensures |MovedKeys(s, before[table := parts], i, newest)|
         == |MovedKeys(s, before, i, newest)| + |MovedFrom(s.tables[table], parts, i, newest)|
  {
    var moved := MovedFrom(s.tables[table], parts, i, newest);
    var more, earlier, later := Tagged(table, moved), MovedKeys(s, before, i, newest),
        MovedKeys(s, before[table := parts], i, newest);
    forall key ensures key in later <==> key in earlier || key in more {
      MovedAt(s, before, table, parts, i, newest, key);
    }
    assert later == earlier + more;
    TaggedCount(table, moved);
    NotMovedYet(s, before, table, i, newest, moved);
  }

  lemma NotMovedYet(
    s: State, before: map<nat, map<Route, Part>>, table: nat, i: nat, newest: nat, ids: set<nat>)
    requires table !in before
    ensures MovedKeys(s, before, i, newest) !! Tagged(table, ids)
  {
  }

  /** One more table: nothing more is moved once the quota is used up. */
  lemma KeyStaysOn(
    s: State, before: map<nat, map<Route, Part>>, table: nat, parts: map<Route, Part>, i: nat, now: nat, newest: nat,
    quota: nat, middle: nat, left: nat, key: T.Key)
    requires table in s.tables && forall other :: other in before ==> other < table
    requires KeyStays(s, before, i, now, newest, middle, key)
    requires DrainsAt(s.tables[table], parts, newest, i, now, middle, left)
    ensures KeyStays(s, before[table := parts], i, now, newest, left, key)
  {
    var moved := MovedFrom(s.tables[table], parts, i, newest);
    MovedMore(s, before, table, parts, i, newest);
    if key.0 == table {
      assert StaysAfter(s.tables[table], parts, newest, i, now, left, key.1);
    } else if middle == 0 {
      assert moved == {};
    }
  }

  lemma DrainMore(
    s: State, before: map<nat, map<Route, Part>>, table: nat, parts: map<Route, Part>, i: nat, now: nat, newest: nat,
    quota: nat, middle: nat, left: nat)
    requires table in s.tables && forall other :: other in before ==> other < table
    requires Draining(s, before, i, now, newest, quota, middle)
    requires DrainsAt(s.tables[table], parts, newest, i, now, middle, left)
    ensures Draining(s, before[table := parts], i, now, newest, quota, left)
  {
    MovedMore(s, before, table, parts, i, newest);
    var after := before[table := parts];
    forall key ensures KeyStays(s, after, i, now, newest, left, key) {
      KeyStaysOn(s, before, table, parts, i, now, newest, quota, middle, left, key);
    }
  }

  /** What holds of every kept generation while build() works through the tables. */
  ghost predicate DrainingAll(
    s: State, n: Numbering, next: map<nat, map<Route, Part>>, quotas: seq<nat>, left: seq<nat>)
    requires |n.generations| > 0
  {
    && |left| == |quotas|
    && (forall i :: 0 <= i < |n.slots| ==> DrainingSlot(s, n, next, quotas, left, i))
    && forall table :: table in next ==> table in s.tables && Rewrites(s.tables[table], n, next[table])
  }

  ghost predicate DrainingSlot(
    s: State, n: Numbering, next: map<nat, map<Route, Part>>, quotas: seq<nat>, left: seq<nat>, i: nat)
    requires |n.generations| > 0 && i < |n.slots| && |left| == |quotas|
  {
    n.slots[i].Some? ==>
      && n.slots[i].value < |quotas|
      && Draining(s, next, i, n.slots[i].value, n.Newest(), quotas[n.slots[i].value], left[n.slots[i].value])
  }

  lemma StartDraining(s: State, n: Numbering, quotas: seq<nat>)
    requires n.Right() && |n.generations| <= |quotas|
    ensures DrainingAll(s, n, map[], quotas, quotas)
  {
    forall i | 0 <= i < |n.slots| ensures DrainingSlot(s, n, map[], quotas, quotas, i) {
      if n.slots[i].Some? {
        KeptAt(n, i);
        assert MovedKeys(s, map[], i, n.Newest()) == {};
      }
    }
  }

  lemma DrainTable(
    s: State, n: Numbering, before: map<nat, map<Route, Part>>, table: nat, parts: map<Route, Part>, quotas: seq<nat>,
    middle: seq<nat>, left: seq<nat>)
    requires n.Right() && DrainingAll(s, n, before, quotas, middle)
    requires table in s.tables && forall other :: other in before ==> other < table
    requires Drains(s.tables[table], n, parts, middle, left) && Rewrites(s.tables[table], n, parts)
    ensures DrainingAll(s, n, before[table := parts], quotas, left)
  {
    var after := before[table := parts];
    forall i | 0 <= i < |n.slots| ensures DrainingSlot(s, n, after, quotas, left, i) {
      assert DrainingSlot(s, n, before, quotas, middle, i);
      assert DrainsSlot(s.tables[table], n, parts, middle, left, i);
      if n.slots[i].Some? {
        var now := n.slots[i].value;
        DrainMore(s, before, table, parts, i, now, n.Newest(), quotas[now], middle[now], left[now]);
      }
    }
  }

  /**
   What a checkpoint does to one generation of the older manifest. One whose quota is u64::MAX is gone:
   all its entities are in the new generation. From any other the quota, or as many untouched entities as
   there are, were moved, the first ones in the order of tables and ids; the rest is in that generation still.
   */
  ghost predicate KeepsToPlan(s: State, next: Manifest, plan: map<nat, nat>, i: nat)
    requires i < |s.manifest.generations| && |next.generations| > 0
  {
    var generation, newest := s.manifest.generations[i], |next.generations| - 1;
    var moved, untouched := MovedKeys(s, next.tables, i, newest), UntouchedKeys(s, i);
    if generation in plan && plan[generation] == U64_MAX then moved == untouched
    else
      var quota := if generation in plan then plan[generation] else 0;
      && |moved| == (if quota < |untouched| then quota else |untouched|) && moved <= untouched
      && forall key :: key in untouched - moved ==>
           StaysIn(next, key, generation) && forall other :: other in moved ==> Earlier(other, key)
  }

  /** The entity's records are in this generation. */
  ghost predicate StaysIn(next: Manifest, key: T.Key, generation: nat) {
    exists now :: 0 <= now < |next.generations| && next.generations[now] == generation && key.0 in next.tables
      && C.At(Sealed(next.tables[key.0]), key.1, now)
  }

  /** Every touched entity is in the new generation. */
  ghost predicate TouchedAreNew(s: State, next: Manifest)
    requires |next.generations| > 0
  {
    forall table, id :: table in s.tables && id in s.tables[table].overlay ==>
      table in next.tables && C.At(Sealed(next.tables[table]), id, |next.generations| - 1)
  }

  ghost predicate FollowsPlan(s: State, next: Manifest, plan: map<nat, nat>)
    requires |next.generations| > 0
  {
    TouchedAreNew(s, next) && forall i :: 0 <= i < |s.manifest.generations| ==> KeepsToPlan(s, next, plan, i)
  }

  /** A generation that is drained whole. */
  lemma GoneFollows(s: State, n: Numbering, next: Manifest, plan: map<nat, nat>, i: nat)
    requires Numbered(s, n) && next.generations == n.generations && i < |n.slots| && n.slots[i].None?
    requires forall table :: table in s.tables ==>
               table in next.tables && Rewrites(s.tables[table], n, next.tables[table])
    ensures MovedKeys(s, next.tables, i, n.Newest()) == UntouchedKeys(s, i)
  {
    forall key ensures key in MovedKeys(s, next.tables, i, n.Newest()) <==> key in UntouchedKeys(s, i) {
      if key in UntouchedKeys(s, i) {
        var f := s.tables[key.0];
        assert InNoKept(f, n, key.1);
        assert C.At(Sealed(next.tables[key.0]), key.1, n.Newest());
      }
    }
  }

  /** A generation that is kept. */
  lemma KeptFollows(s: State, n: Numbering, next: Manifest, i: nat, quota: nat, left: nat)
    requires Numbered(s, n) && next.generations == n.generations && i < |n.slots| && n.slots[i].Some?
    requires forall table :: table in s.tables ==> table in next.tables
    requires Draining(s, next.tables, i, n.slots[i].value, n.Newest(), quota, left)
    ensures var moved, untouched := MovedKeys(s, next.tables, i, n.Newest()), UntouchedKeys(s, i);
            && |moved| == (if quota < |untouched| then quota else |untouched|) && moved <= untouched
            && forall key :: key in untouched - moved ==>
                 StaysIn(next, key, n.prior[i]) && forall other :: other in moved ==> Earlier(other, key)
  {
    var moved, untouched := MovedKeys(s, next.tables, i, n.Newest()), UntouchedKeys(s, i);
    KeptAt(n, i);
    forall key | key in untouched - moved
      ensures StaysIn(next, key, n.prior[i]) && left == 0 && forall other :: other in moved ==> Earlier(other, key)
    {
      assert KeyStays(s, next.tables, i, n.slots[i].value, n.Newest(), left, key);
      assert next.generations[n.slots[i].value] == n.prior[i];
    }
    SubsetCount(moved, untouched);
    if moved != untouched {
      var key :| key in untouched && key !in moved;
      assert key in untouched - moved;
    }
  }

  lemma SubsetCount(a: set<T.Key>, b: set<T.Key>)
    requires a <= b
    ensures |a| <= |b| && (a != b ==> |a| < |b|)
  {
    assert b == a + (b - a);
  }

  lemma PlanFollowed(
    s: State, n: Numbering, next: Manifest, plan: map<nat, nat>, quotas: seq<nat>, left: seq<nat>)
    requires Numbered(s, n) && next.generations == n.generations
    requires forall i :: 0 <= i < |n.prior| ==>
               (n.prior[i] in n.absorb <==> n.prior[i] in plan && plan[n.prior[i]] == U64_MAX)
    requires |left| == |quotas| && forall i :: 0 <= i < |n.slots| && n.slots[i].Some? ==>
               && n.slots[i].value < |quotas|
               && quotas[n.slots[i].value] == if n.prior[i] in plan then plan[n.prior[i]] else 0
    requires DrainingAll(s, n, next.tables, quotas, left)
    requires forall table :: table in s.tables ==> table in next.tables
    ensures FollowsPlan(s, next, plan)
  {
    forall i | 0 <= i < |s.manifest.generations| ensures KeepsToPlan(s, next, plan, i) {
      assert DrainingSlot(s, n, next.tables, quotas, left, i);
      if n.slots[i].Some? {
        var now := n.slots[i].value;
        KeptFollows(s, n, next, i, quotas[now], left[now]);
      } else {
        GoneFollows(s, n, next, plan, i);
      }
    }
    forall table, id | table in s.tables && id in s.tables[table].overlay
      ensures table in next.tables && C.At(Sealed(next.tables[table]), id, |next.generations| - 1)
    {
      assert Rewrites(s.tables[table], n, next.tables[table]);
    }
  }

  // ----- what the next manifest lists -----

  /** The file is a record file of a generation that is kept. */
  ghost predicate KeptRecords(s: State, absorb: set<nat>, file: FileId) {
    file in s.manifest.files && file.kind <= 1 && file.generation !in absorb
  }

  ghost predicate UsedIn(next: map<nat, map<Route, Part>>, file: FileId) {
    exists table :: table in next && Used(next[table], file)
  }

  /** Every listed file is new, is a record file of a kept generation, or is used by a partition. */
  ghost predicate ListsOnly(s: State, absorb: set<nat>, next: Manifest, generation: nat) {
    forall file :: file in next.files ==>
      file.generation == generation || KeptRecords(s, absorb, file) || UsedIn(next.tables, file)
  }

  /** No older file is listed but the record files of kept generations. */
  ghost predicate ListsNew(s: State, absorb: set<nat>, next: Manifest, generation: nat) {
    forall file :: file in next.files ==> file.generation == generation || KeptRecords(s, absorb, file)
  }

  ghost predicate Sparing(s: State, n: Numbering, style: Style, next: Manifest)
    requires |n.generations| > 0
  {
    && ListsOnly(s, n.absorb, next, n.generations[n.Newest()])
    && (style.rewriteHistory && C.NoneKept(n.slots) ==> ListsNew(s, n.absorb, next, n.generations[n.Newest()]))
  }

  lemma SpareMore(s: State, n: Numbering, style: Style, before: Manifest, table: nat, r: Outcome)
    requires |n.generations| > 0 && Sparing(s, n, style, before) && Spare(table, n, style, r.output)
    requires table !in before.tables
    ensures Sparing(s, n, style, WithTable(before, table, n.Newest(), r))
  {
    var after := WithTable(before, table, n.Newest(), r);
    forall file | UsedIn(before.tables, file) || Used(r.output.parts, file) ensures UsedIn(after.tables, file) {
      if Used(r.output.parts, file) {
        assert after.tables[table] == r.output.parts;
      } else {
        var other :| other in before.tables && Used(before.tables[other], file);
        assert after.tables[other] == before.tables[other];
      }
    }
  }

  /** Drained whole: every entity of the generation moves, and its files go. */
  ghost predicate DrainedWhole(plan: map<nat, nat>, generation: nat) {
    generation in plan && plan[generation] == U64_MAX
  }

  /**
   The next manifest lists nothing it does not need: the new files, the record files of generations that
   are not drained whole, and older files that a partition still uses.
   */
  ghost predicate NoStrays(s: State, next: Manifest, plan: map<nat, nat>) {
    forall file :: file in next.files ==>
      || file.generation == next.generation
      || (file in s.manifest.files && file.kind <= 1 && !DrainedWhole(plan, file.generation))
      || UsedIn(next.tables, file)
  }

  /** A full collection that rewrites the history leaves only new files. */
  ghost predicate Compacts(s: State, next: Manifest, plan: map<nat, nat>, style: Style) {
    && style.rewriteHistory && (forall generation :: generation in s.manifest.generations ==>
       DrainedWhole(plan, generation))
    && (forall file :: file in s.manifest.files && file.kind <= 1 ==> file.generation in s.manifest.generations)
    ==> forall file :: file in next.files ==> file.generation == next.generation
  }

  lemma SparedAll(s: State, n: Numbering, style: Style, next: Manifest, plan: map<nat, nat>)
    requires Numbered(s, n) && n.absorb == Absorbed(plan) && Sparing(s, n, style, next)
    requires next.generation == n.generations[n.Newest()]
    ensures NoStrays(s, next, plan) && Compacts(s, next, plan, style)
  {
    forall generation ensures generation in Absorbed(plan) <==> DrainedWhole(plan, generation) {
    }
    if forall generation :: generation in s.manifest.generations ==> DrainedWhole(plan, generation) {
      forall i | 0 <= i < |n.slots| ensures n.slots[i].None? {
        assert n.prior[i] in s.manifest.generations;
      }
    }
  }

  // ----- the build -----

  /** The next table of the loop. */
  method BuildNext(
    s: State, n: Numbering, quotas: seq<nat>, style: Style, before: Manifest, archives: map<nat, Archive>, table: nat,
    ghost done: seq<Pair>, ghost initial: seq<nat>)
    returns (next: Manifest, grown: map<nat, Archive>, left: seq<nat>)
    requires Building(s, n, before, archives, done) && NewGeneration(s, n.generations[n.Newest()]) && StyleOk(style)
    requires TableOk(s, table) && table in s.catalog && (table, 0) !in done && |n.generations| <= |quotas|
    requires forall other :: other in before.tables ==> other < table
    requires DrainingAll(s, n, before.tables, initial, quotas) && Sparing(s, n, style, before)
    ensures Sparing(s, n, style, next)
    ensures Building(s, n, next, grown, done + [(table, 0)]) && DrainingAll(s, n, next.tables, initial, left)
    ensures next.generation == before.generation
  {
    var r, ok;
    ok, r, left := BuildTable(table, s.tables[table], s.catalog[table], s.archives[table], n, quotas, style);
    next, grown := WithTable(before, table, n.Newest(), r), archives[table := r.archive];
    OneMoreTable(s, n, before, archives, done, table, r);
    DrainTable(s, n, before.tables, table, r.output.parts, initial, quotas, left);
    SpareMore(s, n, style, before, table, r);
  }

  /** Every table has been built, and the manifest has nothing else. */
  ghost predicate AllBuilt(s: State, next: Manifest, grown: map<nat, Archive>) {
    forall table: nat :: BuiltOrAbsent(s, next, grown, table)
  }

  ghost predicate BuiltOrAbsent(s: State, next: Manifest, grown: map<nat, Archive>, table: nat) {
    if table in s.catalog then TableBuilt(s, next, grown, table) else Absent(next, table)
  }

  /** A table that was absent and is not built stays absent, at whatever slots the generations go. */
  lemma StaysAbsent(s: State, n: Numbering, next: Manifest, table: nat)
    requires Absent(s.manifest, table) && Numbered(s, n) && next.generations == n.generations
    requires table !in next.tables && NotCounted(s.manifest.occupancy, n, next.occupancy, table)
    ensures Absent(next, table)
  {
    NewestIsNew(n);
    forall slot: nat ensures NoneCounted(next, table, slot) {
      if slot < n.Newest() {
        assert HasSlot(n.slots, slot);
        var i :| 0 <= i < |n.slots| && n.slots[i] == Some(slot);
        assert NoneCounted(s.manifest, table, i);
      }
    }
  }

  lemma BuiltAll(s: State, n: Numbering, next: Manifest, grown: map<nat, Archive>, tables: seq<Pair>)
    requires StateOk(s) && Building(s, n, next, grown, tables)
    requires forall table: nat :: table in s.catalog <==> (table, 0) in tables
    ensures AllBuilt(s, next, grown)
  {
    forall table: nat ensures BuiltOrAbsent(s, next, grown, table) {
      assert TableOk(s, table);
      assert Stage(s, n, next, grown, tables, table);
      if table !in s.catalog {
        StaysAbsent(s, n, next, table);
      }
    }
  }

  /**
   CheckpointJob::build. It fails exactly when the generations do not fit the manifest; otherwise every
   table of the next manifest holds exactly the frozen state, its files and records are listed, and its
   counters are the numbers of entities located in each generation.
   */
  method Build(s: State, plan: map<nat, nat>, generation: nat, style: Style)
    returns (ok: bool, next: Manifest, grown: map<nat, Archive>)
    requires StateOk(s) && NewGeneration(s, generation) && StyleOk(style)
    ensures ok <==> |next.generations| <= MAX_SLOTS
    ensures |next.generations| == KeptCount(s.manifest.generations, Absorbed(plan)) + 1
    ensures Rising(s.manifest.generations) && (forall prior :: prior in s.manifest.generations ==> prior < generation)
            ==> Rising(next.generations)
    ensures |next.generations| > 0 && next.generations[|next.generations| - 1] == generation == next.generation
    ensures ok ==> AllBuilt(s, next, grown) && FollowsPlan(s, next, plan)
    ensures ok ==> NoStrays(s, next, plan) && Compacts(s, next, plan, style)
  {
    var n;
    ok, n := RebuildSlots(s.manifest.generations, Absorbed(plan), generation);
    if Rising(s.manifest.generations) && forall prior :: prior in s.manifest.generations ==> prior < generation {
      StillRising(n);
    }
    next := Manifest(generation, n.generations, map[], KeptFiles(s.manifest.files, Absorbed(plan)), map[]);
    grown := map[];
    if !ok {
      return;
    }
    var quotas := Quotas(n, plan);
    var kept := KeptOccupancy(s.manifest.occupancy, n);
    next := next.(occupancy := kept);
    ghost var left;
    next, grown, left := BuildTables(s, n, quotas, style, next);
    PlanFollowed(s, n, next, plan, quotas, left);
    SparedAll(s, n, style, next, plan);
  }

  lemma NoneLater(s: State, n: Numbering, next: Manifest, grown: map<nat, Archive>, tables: seq<Pair>, i: nat)
    requires i < |tables| && Ascending(tables) && tables[i].1 == 0 && Building(s, n, next, grown, tables[..i])
    ensures forall other :: other in next.tables ==> other < tables[i].0
  {
    forall other | other in next.tables ensures other < tables[i].0 {
      assert Stage(s, n, next, grown, tables[..i], other);
      NextKey(tables, i);
    }
  }

  lemma AllThere(s: State, next: Manifest, grown: map<nat, Archive>)
    requires StateOk(s) && AllBuilt(s, next, grown)
    ensures forall table :: table in s.tables ==> table in next.tables
  {
    forall table | table in s.tables ensures table in next.tables {
      assert TableOk(s, table) && BuiltOrAbsent(s, next, grown, table);
    }
  }

  /** The loop over the tables, in order of their numbers. */
  method BuildTables(s: State, n: Numbering, quotas: seq<nat>, style: Style, first: Manifest)
    returns (next: Manifest, grown: map<nat, Archive>, ghost left: seq<nat>)
    requires StateOk(s) && Numbered(s, n) && NewGeneration(s, n.generations[n.Newest()]) && StyleOk(style)
    requires first.generations == n.generations && |n.generations| <= |quotas|
    requires KeptFiles(s.manifest.files, n.absorb) <= first.files
    requires Sparing(s, n, style, first)
    requires first.tables == map[] && forall table :: NotCounted(s.manifest.occupancy, n, first.occupancy, table)
    ensures next.generations == n.generations && AllBuilt(s, next, grown) && next.generation == first.generation
    ensures DrainingAll(s, n, next.tables, quotas, left) && Sparing(s, n, style, next)
    ensures forall table :: table in s.tables ==> table in next.tables
  {
    next, grown := first, map[];
    StartBuilding(s, n, next);
    StartDraining(s, n, quotas);
    var open := quotas;
    var tables := Sorted(set table | table in s.catalog :: (table, 0));
    assert tables[..0] == [];
    for i := 0 to |tables|
      invariant Building(s, n, next, grown, tables[..i]) && next.generation == first.generation
      invariant DrainingAll(s, n, next.tables, quotas, open) && Sparing(s, n, style, next)
    {
      NextKey(tables, i);
      NoneLater(s, n, next, grown, tables, i);
      next, grown, open := BuildNext(s, n, open, style, next, grown, tables[i].0, tables[..i], quotas);
    }
    left := open;
    assert tables[..|tables|] == tables;
    BuiltAll(s, n, next, grown, tables);
    AllThere(s, next, grown);
  }

  // ----- the published state -----

  /** What the next manifest holds of a table, once it is the newest one and its overlay is empty. */
  function PublishedTable(s: State, next: Manifest, table: nat): C.Frozen
    requires table in s.tables && table in s.catalog
  {
    C.Frozen(Source(PartsOf(next, table), next.files), next.generations,
             map id | id in Ids(s.tables[table]) :: RecordFor(s.catalog[table], C.HistoryOf(s.tables[table], id)),
                 map[])
  }

  /** A record of an entity's whole history. */
  function RecordFor(definition: Model.Table, h: History): Persisted {
    Persisted(definition, h.current, h.base, h.events, map[])
  }

  function Published(s: State, next: Manifest, grown: map<nat, Archive>): State {
    State(next, s.catalog, map table | table in s.catalog && table in s.tables :: PublishedTable(s, next, table), grown)
  }

  /** A frozen history is a valid record of its own. */
  lemma FrozenIsRecord(s: State, table: nat, id: nat)
    requires TableOk(s, table) && table in s.catalog && id in Ids(s.tables[table])
    ensures var h := C.HistoryOf(s.tables[table], id);
            && PersistedOk(RecordFor(s.catalog[table], h))
            && h.base.id == id && h.current.version <= U64_MAX
            && forall v :: v in h.events ==> h.base.version < v <= h.current.version
  {
    var f, archive, definition := s.tables[table], s.archives[table], s.catalog[table];
    C.RecentOf(f, table, archive, definition, id);
    if id in f.overlay {
      assert C.RecentOk(f, table, archive, definition, id);
    } else {
      assert C.RecordOk(f, archive, definition, id);
      var p := f.disk[id];
      StateAtUnderExtension(p.base, p.events, p.table, definition, p.current.version);
    }
  }

  lemma PublishedRecordOk(s: State, next: Manifest, grown: map<nat, Archive>, table: nat, id: nat)
    requires TableOk(s, table) && table in s.catalog && TableBuilt(s, next, grown, table) && id in Ids(s.tables[table])
    ensures C.RecordOk(PublishedTable(s, next, table), grown[table], s.catalog[table], id)
    ensures C.HistoryOf(PublishedTable(s, next, table), id) == C.HistoryOf(s.tables[table], id)
  {
    var f := s.tables[table];
    FrozenIsRecord(s, table, id);
    assert HoldsOne(f, next.tables[table], grown[table], next.generations, s.catalog[table], id);
    assert DiskHistory(RecordFor(s.catalog[table], C.HistoryOf(f, id))) == C.HistoryOf(f, id);
  }

  lemma PublishedLocated(s: State, next: Manifest, grown: map<nat, Archive>, table: nat, id: nat)
    requires table in s.catalog && TableBuilt(s, next, grown, table)
    ensures Located(Sealed(PublishedTable(s, next, table).source.parts), id).Some? <==> id in Ids(s.tables[table])
  {
    assert HoldsOne(s.tables[table], next.tables[table], grown[table], next.generations, s.catalog[table], id);
  }

  lemma PublishedHistories(s: State, next: Manifest, grown: map<nat, Archive>, table: nat)
    requires TableOk(s, table) && table in s.catalog && TableBuilt(s, next, grown, table)
    ensures SameHistories(s.tables[table], PublishedTable(s, next, table))
  {
    var f, g := s.tables[table], PublishedTable(s, next, table);
    forall id: nat | id in Ids(f) ensures C.HistoryOf(g, id) == C.HistoryOf(f, id) {
      PublishedRecordOk(s, next, grown, table, id);
    }
  }

  lemma PublishedOk(s: State, next: Manifest, grown: map<nat, Archive>, table: nat)
    requires TableOk(s, table) && table in s.catalog && TableBuilt(s, next, grown, table)
    ensures C.FrozenGood(PublishedTable(s, next, table), table, grown[table], s.catalog[table])
    ensures Ids(PublishedTable(s, next, table)) == Ids(s.tables[table])
    ensures SameHistories(s.tables[table], PublishedTable(s, next, table))
  {
    var g := PublishedTable(s, next, table);
    PublishedHistories(s, next, grown, table);
    forall id: nat ensures C.RecordOk(g, grown[table], s.catalog[table], id) {
      if id in g.disk {
        PublishedRecordOk(s, next, grown, table, id);
      }
    }
    forall id: nat ensures Located(Sealed(g.source.parts), id).Some? <==> id in g.disk {
      PublishedLocated(s, next, grown, table, id);
    }
    assert C.FrozenOk(g, table, grown[table], s.catalog[table]);
  }

  ghost predicate SameHistories(f: C.Frozen, g: C.Frozen) {
    Ids(g) == Ids(f) && forall id :: id in Ids(f) ==> C.HistoryOf(g, id) == C.HistoryOf(f, id)
  }

  /** What the built manifest holds is exactly the frozen view. */
  lemma PublishedIsFrozen(s: State, next: Manifest, grown: map<nat, Archive>)
    requires StateOk(s) && AllBuilt(s, next, grown)
    ensures ViewOf(Published(s, next, grown)) == ViewOf(s)
  {
    var t := Published(s, next, grown);
    forall table: nat ensures SameView(s, t, table) {
      assert TableOk(s, table) && BuiltOrAbsent(s, next, grown, table);
      if table in s.catalog {
        PublishedOk(s, next, grown, table);
      }
    }
    SameViews(s, t);
  }

  // ----- what a reader sees -----

  /** Both states have the same entities in this table, with the same histories. */
  ghost predicate SameView(s: State, t: State, table: nat) {
    table in s.catalog ==> table in s.tables && table in t.tables && SameHistories(s.tables[table], t.tables[table])
  }

  function KeysOf(s: State): set<T.Key> {
    set table, id | table in s.catalog && table in s.tables && id in Ids(s.tables[table]) :: (table, id)
  }

  /** The tables and the whole histories a reader of this state can see. */
  function ViewOf(s: State): T.View {
    T.View(s.catalog, map key | key in KeysOf(s) :: C.HistoryOf(s.tables[key.0], key.1))
  }

  lemma SameViews(s: State, t: State)
    requires t.catalog == s.catalog && forall table :: SameView(s, t, table)
    ensures ViewOf(t) == ViewOf(s)
  {
    forall key ensures key in KeysOf(s) <==> key in KeysOf(t) {
      assert SameView(s, t, key.0);
    }
    forall key | key in KeysOf(s) ensures ViewOf(t).entities[key] == ViewOf(s).entities[key] {
      assert SameView(s, t, key.0);
    }
  }
}
