/**
 The overlay of entities changed since the last checkpoint (overlay.rs): beside the entities it counts
 how many of them read their history from each manifest, so that cleanup knows what is still needed.
 */
module Overlays {
  import opened Results
  import opened Files

  type Key = (nat, nat)

  /** A published manifest, as far as file reclamation is concerned. */
  datatype Root = Root(generation: nat, files: set<FileId>)

  datatype Counted = Counted(root: Root, count: nat)

  /** `entries` holds, for each entity, the manifest its checkpointed history is in. */
  datatype View = View(entries: map<Key, Option<Root>>, roots: map<nat, Counted>)

  predicate From(entries: map<Key, Option<Root>>, key: Key, generation: nat) {
    key in entries && entries[key].Some? && entries[key].value.generation == generation
  }

  function Users(entries: map<Key, Option<Root>>, generation: nat): set<Key> {
    set key | key in entries && From(entries, key, generation)
  }

  /** One manifest per generation. */
  ghost predicate SameRoot(entries: map<Key, Option<Root>>, root: Root) {
    forall key :: From(entries, key, root.generation) ==> entries[key].value == root
  }

  ghost predicate CountOk(v: View, generation: nat) {
    if Users(v.entries, generation) == {} then generation !in v.roots
    else
      && generation in v.roots && v.roots[generation].count == |Users(v.entries, generation)|
      && v.roots[generation].root.generation == generation && SameRoot(v.entries, v.roots[generation].root)
  }

  /** Every count is the number of entities reading from that manifest, and no other manifest is kept. */
  ghost predicate Exact(v: View) {
    forall generation :: CountOk(v, generation)
  }

  /** What the counts say is needed. */
  function CountedFiles(v: View): set<FileId> {
    set generation, file | generation in v.roots && file in v.roots[generation].root.files :: file
  }

  /** What some entity needs. */
  ghost predicate Needs(entries: map<Key, Option<Root>>, file: FileId) {
    exists key :: key in entries && entries[key].Some? && file in entries[key].value.files
  }

  /** The counts name exactly the files the entities need. */
  lemma CountsAreNeeds(v: View, file: FileId)
    requires Exact(v)
    ensures file in CountedFiles(v) <==> Needs(v.entries, file)
  {
    if file in CountedFiles(v) {
      var generation :| generation in v.roots && file in v.roots[generation].root.files;
      assert CountOk(v, generation);
      var key :| key in Users(v.entries, generation);
      assert file in v.entries[key].value.files;
    }
    if Needs(v.entries, file) {
      var key :| key in v.entries && v.entries[key].Some? && file in v.entries[key].value.files;
      var generation := v.entries[key].value.generation;
      assert key in Users(v.entries, generation);
      assert CountOk(v, generation);
    }
  }

  lemma Replaced(entries: map<Key, Option<Root>>, key: Key, value: Option<Root>, generation: nat)
    ensures var more := entries[key := value];
            && Users(more, generation) == (if value.Some? && value.value.generation == generation
               then Users(entries, generation) + {key} else Users(entries, generation) - {key})
  {
  }

  class Overlay {
    var entries: map<Key, Option<Root>>
    var roots: map<nat, Counted>

    constructor ()
      ensures State() == View(map[], map[]) && Exact(State())
    {
      entries, roots := map[], map[];
    }

    function State(): View
      reads this
    {
      View(entries, roots)
    }

    /** One entity reads from this manifest no longer. */
    method Release(generation: nat)
      requires generation in roots && roots[generation].count > 0
      modifies this`roots
      ensures forall g :: g != generation ==>
                (g in roots <==> g in old(roots))
                && (g in roots ==> roots[g] == old(roots)[g])
      ensures if old(roots)[generation].count == 1 then generation !in roots
              else
                && generation in roots
                && roots[generation] == Counted(old(roots)[generation].root, old(roots)[generation].count - 1)
    {
      var counted := roots[generation];
      if counted.count == 1 {
        roots := roots - {generation};
      } else {
        roots := roots[generation := Counted(counted.root, counted.count - 1)];
      }
    }

    /** One more entity reads from this manifest. */
    method Retain(root: Root)
      modifies this`roots
      ensures roots == old(roots)[root.generation :=
              Counted(root, (if root.generation in old(roots) then old(roots)[root.generation].count else 0) + 1)]
    {
      var count := if root.generation in roots then roots[root.generation].count else 0;
      roots := roots[root.generation := Counted(root, count + 1)];
    }

    /** The entry is replaced and the counts stay exact. */
    method Insert(key: Key, value: Option<Root>)
      requires Exact(State())
      requires value.Some? ==> SameRoot(entries, value.value)
      modifies this
      ensures Exact(State()) && entries == old(entries)[key := value]
    {
      ghost var before := State();
      var previous := if key in entries && entries[key].Some? then Some(entries[key].value.generation) else None;
      var next := if value.Some? then Some(value.value.generation) else None;
      if previous == next {
        entries := entries[key := value];
        SameCounts(before, key, value);
        return;
      }
      if previous.Some? {
        assert CountOk(before, previous.value) && key in Users(before.entries, previous.value);
        Release(previous.value);
      }
      if value.Some? {
        Retain(value.value);
      }
      entries := entries[key := value];
      Recounted(before, State(), key, value);
    }
  }

  lemma SameCounts(before: View, key: Key, value: Option<Root>)
    requires Exact(before) && (value.Some? ==>
              SameRoot(before.entries, value.value)
              && From(before.entries, key, value.value.generation))
    requires value.None? ==> !(key in before.entries && before.entries[key].Some?)
    ensures Exact(View(before.entries[key := value], before.roots))
  {
    var after := View(before.entries[key := value], before.roots);
    forall generation ensures CountOk(after, generation) {
      assert CountOk(before, generation);
      Replaced(before.entries, key, value, generation);
      assert Users(before.entries[key := value], generation) == Users(before.entries, generation);
    }
  }

  /** What Insert does to the counts, when the entity changes its manifest. */
  lemma Recounted(before: View, after: View, key: Key, value: Option<Root>)
    requires Exact(before) && (value.Some? ==> SameRoot(before.entries, value.value))
    requires after.entries == before.entries[key := value]
    requires value.Some? ==> !From(before.entries, key, value.value.generation)
    requires forall g :: CountStep(before, after, key, value, g)
    ensures Exact(after)
  {
    forall generation ensures CountOk(after, generation) {
      assert CountOk(before, generation) && CountStep(before, after, key, value, generation);
      Replaced(before.entries, key, value, generation);
      var users := Users(before.entries, generation);
      assert key in users ==> |users - {key}| == |users| - 1;
      assert key !in users ==> users - {key} == users && |users + {key}| == |users| + 1;
    }
  }

  ghost predicate CountStep(before: View, after: View, key: Key, value: Option<Root>, g: nat) {
    if value.Some? && value.value.generation == g then
      g in after.roots && after.roots[g] == Counted(value.value,
          (if g in before.roots then before.roots[g].count else 0) + 1)
    else if From(before.entries, key, g) then
      if g in before.roots && before.roots[g].count > 1
          then g in after.roots && after.roots[g] == Counted(before.roots[g].root, before.roots[g].count - 1)
      else g !in after.roots
    else (g in after.roots <==> g in before.roots) && (g in after.roots ==> after.roots[g] == before.roots[g])
  }
}
