/**
 Which files cleanup may delete (database.rs, Cleanup; reader.rs, pinned_files).

 Cleanup decides what to keep from the newest state, the retained checkpoint and the live pins, and
 then deletes one file at a time while commits and pins go on.  Every method keeps `Valid`, which says
 that everything anybody can still read is there.
 */
module Reclaims {
  import opened Results
  import opened Files
  import opened Overlays

  /** What a reader sees: the newest manifest and the overlay above it. */
  datatype Snapshot = Snapshot(root: Root, overlay: View)

  /** ReadState::file_sizes */
  function FilesOf(s: Snapshot): set<FileId> {
    s.root.files + CountedFiles(s.overlay)
  }

  /** The snapshot's manifest or the history of one of its entities needs the file. */
  ghost predicate Reads(s: Snapshot, file: FileId) {
    file in s.root.files || Needs(s.overlay.entries, file)
  }

  lemma FilesAreRead(s: Snapshot, file: FileId)
    requires Exact(s.overlay)
    ensures file in FilesOf(s) <==> Reads(s, file)
  {
    CountsAreNeeds(s.overlay, file);
  }

  ghost predicate Within(s: Snapshot, files: set<FileId>) {
    Exact(s.overlay) && FilesOf(s) <= files
  }

  /** Every entity reads from the root, or from a manifest an earlier state already needed. */
  ghost predicate BoundTo(entries: map<Key, Option<Root>>, root: Root, earlier: set<FileId>) {
    forall key :: key in entries && entries[key].Some? ==>
        entries[key].value == root || entries[key].value.files <= earlier
  }

  lemma BoundFiles(s: Snapshot, earlier: set<FileId>)
    requires Exact(s.overlay) && BoundTo(s.overlay.entries, s.root, earlier) && s.root.files <= earlier
    ensures FilesOf(s) <= earlier
  {
    forall file | file in FilesOf(s) ensures file in earlier {
      FilesAreRead(s, file);
    }
  }

  lemma InsertedFiles(root: Root, before: View, after: View, key: Key, value: Option<Root>)
    requires Exact(before) && Exact(after) && after.entries == before.entries[key := value]
    requires value.Some? ==> value.value == root
    ensures FilesOf(Snapshot(root, after)) <= FilesOf(Snapshot(root, before))
  {
    forall file | file in FilesOf(Snapshot(root, after)) ensures file in FilesOf(Snapshot(root, before)) {
      FilesAreRead(Snapshot(root, after), file);
      FilesAreRead(Snapshot(root, before), file);
    }
  }

  ghost predicate OneRoot(entries: map<Key, Option<Root>>, root: Root) {
    forall key :: From(entries, key, root.generation) ==> entries[key].value == root
  }

  ghost predicate OnlyRoot(entries: map<Key, Option<Root>>, root: Root) {
    forall key :: key in entries && entries[key].Some? ==> entries[key].value == root
  }

  /** The manifest a published entity reads its history from: the commit rebinds it to the newest one. */
  function Rebound(staged: Option<Root>, began: nat, root: Root, persisted: bool): Option<Root> {
    if (began != root.generation || (staged.Some? && staged.value.generation != root.generation)) && persisted
        then Some(root) else staged
  }

  class Storage {
    var root: Root
    var previous: Root
    var overlay: Overlay
    var tail: Overlay?
    var pins: map<nat, Snapshot>
    var files: set<FileId>
    var installed: Option<Snapshot>
    var keep: Option<set<FileId>>

    function State(): Snapshot
      reads this, overlay
    {
      Snapshot(root, overlay.State())
    }

    ghost predicate Valid()
      reads this, overlay, tail
    {
      && overlay != tail
      && Within(State(), files) && previous.files <= files && OneRoot(overlay.entries, root)
      && (tail != null ==> Exact(tail.State()) && OnlyRoot(tail.entries, root) && installed.None?)
      && (forall id :: id in pins ==> Within(pins[id], files))
      && (installed.Some? ==>
            && installed.value.root == root && Within(installed.value, files)
            && BoundTo(overlay.entries, root, FilesOf(installed.value)))
      && (keep.Some? ==> installed.Some? && Kept())
    }

    /** Cleanup keeps everything that is, or can still become, readable. */
    ghost predicate Kept()
      reads this
      requires keep.Some? && installed.Some?
    {
      && previous.files <= keep.value && FilesOf(installed.value) <= keep.value
      && forall id :: id in pins ==> FilesOf(pins[id]) <= keep.value
    }

    constructor ()
      ensures Valid() && fresh(overlay) && tail == null
    {
      root, previous, tail := Root(0, {}), Root(0, {}), null;
      overlay := new Overlay();
      pins, files, installed, keep := map[], {}, None, None;
    }

    /** Publishing one entity, during a build, a cleanup or neither. */
    method Commit(key: Key, staged: Option<Root>, began: nat, persisted: bool)
      requires Valid()
      requires staged.Some? ==> persisted && (staged.value.generation == root.generation ==> staged.value == root)
      modifies overlay, tail
      ensures Valid() && key in overlay.entries && overlay.entries == old(overlay.entries)[key := overlay.entries[key]]
      ensures tail != null ==> tail.entries == old(tail.entries)[key := overlay.entries[key]]
      ensures if persisted && (began != root.generation || staged.Some?) then overlay.entries[key] == Some(root)
              else overlay.entries[key] == None || (persisted && overlay.entries[key] == staged == Some(root))
    {
      var disk := Rebound(staged, began, root, persisted);
      ghost var before := overlay.State();
      if tail != null {
        tail.Insert(key, disk);
      }
      overlay.Insert(key, disk);
      InsertedFiles(root, before, overlay.State(), key, disk);
    }

    /** A snapshot or transaction pins the current state. */
    method Pin(id: nat)
      requires Valid() && id !in pins
      modifies this`pins
      ensures Valid() && pins == old(pins)[id := State()]
    {
      if keep.Some? {
        BoundFiles(State(), FilesOf(installed.value));
      }
      pins := pins[id := State()];
    }

    method Unpin(id: nat)
      requires Valid()
      modifies this`pins
      ensures Valid() && pins == old(pins) - {id}
    {
      pins := pins - {id};
    }

    /** Maintenance runs one checkpoint at a time, and its cleanup before the next. */
    method StartCheckpoint()
      requires Valid() && tail == null && installed.None?
      modifies this`tail
      ensures Valid() && tail != null && fresh(tail)
    {
      tail := new Overlay();
    }

    /** The build adds files; it may fail at any point and leave them behind. */
    method Write(more: set<FileId>)
      requires Valid()
      modifies this`files
      ensures Valid() && files == old(files) + more
    {
      files := files + more;
    }

    method Abandon()
      requires Valid()
      modifies this`tail
      ensures Valid() && tail == null
    {
      tail := null;
    }

    /** The built manifest becomes the newest one, with the tail as its overlay. */
    method Install(built: Root)
      requires Valid() && tail != null && built.files <= files && built.generation > root.generation
      modifies this
      ensures Valid() && root == built && previous == old(root) && files == old(files) && pins == old(pins)
      ensures overlay == old(tail) && tail == null && installed.Some? && keep.None?
    {
      ghost var before := overlay.State();
      previous, root, overlay, tail := root, built, tail, null;
      forall file | file in FilesOf(State()) ensures file in files {
        FilesAreRead(State(), file);
      }
      installed, keep := Some(State()), None;
      forall key | key in overlay.entries && overlay.entries[key].Some?
        ensures overlay.entries[key].value.files <= FilesOf(installed.value)
      {
        forall file | file in overlay.entries[key].value.files ensures file in FilesOf(installed.value) {
          FilesAreRead(installed.value, file);
        }
      }
    }

    /** What cleanup decides to keep, once. */
    method Mark()
      requires Valid() && installed.Some? && keep.None?
      modifies this`keep
      ensures Valid() && keep.Some?
      ensures forall file :: file in keep.value <==>
                || file in previous.files || Reads(installed.value, file)
                || exists id :: id in pins && Reads(pins[id], file)
    {
      forall file ensures file in FilesOf(installed.value) <==> Reads(installed.value, file)
        ensures forall id :: id in pins ==> (file in FilesOf(pins[id]) <==> Reads(pins[id], file))
      {
        FilesAreRead(installed.value, file);
        forall id | id in pins ensures file in FilesOf(pins[id]) <==> Reads(pins[id], file) {
          FilesAreRead(pins[id], file);
        }
      }
      keep := Some(previous.files + FilesOf(installed.value) + set id, file | id in pins
          && file in FilesOf(pins[id]) :: file);
    }

    /** Cleanup deletes one more file. Nothing anybody can read loses it. */
    method Sweep(file: FileId)
      requires Valid() && keep.Some? && file !in keep.value
      modifies this`files
      ensures Valid() && files == old(files) - {file}
      ensures !Reads(State(), file) && file !in previous.files && forall id :: id in pins ==> !Reads(pins[id], file)
    {
      BoundFiles(State(), FilesOf(installed.value));
      files := files - {file};
      FilesAreRead(State(), file);
      forall id | id in pins ensures !Reads(pins[id], file) {
        FilesAreRead(pins[id], file);
      }
    }

    /** A whole cleanup deletes exactly what it did not decide to keep. */
    method Clean()
      requires Valid() && keep.Some?
      modifies this`files
      ensures Valid() && files == old(files) * keep.value
    {
      while !(files <= keep.value)
        invariant Valid() && keep.Some? && files <= old(files) && old(files) * keep.value <= files
        decreases files
      {
        var file :| file in files && file !in keep.value;
        Sweep(file);
      }
    }

    method EndSweep()
      requires Valid() && keep.Some?
      modifies this`installed, this`keep
      ensures Valid() && installed.None?
    {
      installed, keep := None, None;
    }
  }
}
