/**
 What copying a partition's entries into a new manifest has done so far, as a relation between the
 state before and after.
 */
module Copying {
  import opened Results
  import opened Histories
  import opened Files
  import opened Partitions
  import opened Archives
  import opened SortedKeys

  ghost predicate OthersReady(before: Built, after: Built, kind: nat) {
    forall k, other :: k != kind && Ready(before, k, other) ==> Ready(after, k, other)
  }

  /** Only this key was added to the indexes. */
  ghost predicate Indexed(before: Built, after: Built, kind: nat, key: Pair, pointer: Pointer) {
    && (forall k, other :: Entry(after, k, other) == if k == kind && other == key then Some(pointer)
       else Entry(before, k, other))
    && (forall later :: Less(key, later) ==> Ready(after, kind, later))
    && OthersReady(before, after, kind)
    && (forall route :: route != Route(kind, Bucket(kind, key)) ==> PartAt(after, route) == PartAt(before, route))
  }

  lemma AppendIndexes(
    b: Built, after: Built, file: FileId, kind: nat, key: Pair, pointer: Pointer, dependency: set<FileId>)
    requires BuiltOk(b) && Ready(b, kind, key) && CanAppend(b, kind, key)
    requires With(b, after, Route(kind, Bucket(kind, key)), Appended(b, file, kind, key, pointer, dependency))
    requires SameOpen(b, after, kind) && IsOpen(after, Route(kind, Bucket(kind, key)))
    ensures Indexed(b, after, kind, key, pointer)
  {
    AppendedEntries(b, after, file, kind, key, pointer, dependency);
    forall later | Less(key, later) ensures Ready(after, kind, later) {
      AppendedReady(b, after, file, kind, key, pointer, dependency, later);
    }
    forall k, other | k != kind && Ready(b, k, other) ensures Ready(after, k, other) {
      OtherReady(b, after, Route(kind, Bucket(kind, key)), Appended(b, file, kind, key, pointer, dependency), k, other);
    }
  }

  lemma IndexedStored(before: Built, after: Built, archive: Archive, kind: nat, key: Pair, pointer: Pointer)
    requires Stored(before, archive) && Indexed(before, after, kind, key, pointer)
    requires kind != PRIMARY ==> At(kind, pointer) in archive && Identified(kind, archive[At(kind, pointer)], key)
    ensures Stored(after, archive)
  {
    forall k, other | k != PRIMARY && Entry(after, k, other).Some?
      ensures Content(after, archive, k, other).Some? && Identified(k, Content(after, archive, k, other).value, other)
    {
      if !(k == kind && other == key) {
        assert Content(after, archive, k, other) == Content(before, archive, k, other);
      }
    }
  }

  lemma AppendedListed(
    b: Built, after: Built, kind: nat, key: Pair, pointer: Pointer, dependency: set<FileId>, reused: set<FileId>,
    indexes: set<FileId>, created: set<nat>, table: nat, generation: nat, segment: nat)
    requires Listed(b, reused, indexes, created, table, generation, segment) && OfTable(b, table)
    requires With(b, after, Route(kind, Bucket(kind, key)),
             Appended(b, FileId(table, generation, kind, 0), kind, key, pointer, dependency))
    requires forall file :: file in dependency ==> file in reused || IsOwn(file, table, generation, segment)
    ensures Listed(after, reused, indexes, created + {kind}, table, generation, segment) && OfTable(after, table)
  {
  }

  /** Only this key was added, with the record it has in the older manifest. */
  ghost predicate CopiedEntry(
    before: Built, archive: Archive, after: Built, grown: Archive, src: Built, kind: nat, key: Pair)
  {
    && Preserves(archive, grown)
    && (forall k, other :: !(k == kind && other == key) ==> Entry(after, k, other) == Entry(before, k, other))
    && Content(after, grown, kind, key) == Content(src, archive, kind, key)
    && (forall later :: Less(key, later) ==> Ready(after, kind, later))
    && OthersReady(before, after, kind)
    && (forall route :: route != Route(kind, Bucket(kind, key)) ==> PartAt(after, route) == PartAt(before, route))
  }

  ghost predicate AllIndexed(src: Built, kind: nat, at: Pair, keys: seq<Pair>) {
    forall key :: key in keys ==> Bucket(kind, key) == at && Entry(src, kind, key).Some?
  }

  ghost predicate Past(keys: seq<Pair>, kind: nat, d: Option<EntityData>, key: Pair) {
    forall other :: other in keys ==> Skipped(d, kind, other.1) || Less(other, key)
  }

  /** A key's record is the older manifest's, if it was among the keys copied and memory does not override it. */
  ghost predicate KeyCopied(
    archive: Archive, after: Built, grown: Archive, src: Built, kind: nat, keys: seq<Pair>, d: Option<EntityData>,
    key: Pair)
  {
    Content(after, grown, kind, key) == if key in keys && !Skipped(d, kind, key.1)
        then Content(src, archive, kind, key) else None
  }

  ghost predicate KeyReady(after: Built, kind: nat, at: Pair, keys: seq<Pair>, d: Option<EntityData>, key: Pair) {
    AtMost(at, Bucket(kind, key)) && Past(keys, kind, d, key) ==> Ready(after, kind, key)
  }

  /** Of the bucket `at`, exactly these keys were added, less those memory overrides. */
  ghost predicate CopiedKeys(
    before: Built, archive: Archive, after: Built, grown: Archive, src: Built, kind: nat, at: Pair, keys: seq<Pair>,
    d: Option<EntityData>)
  {
    && Preserves(archive, grown)
    && (forall route :: route != Route(kind, at) ==> PartAt(after, route) == PartAt(before, route))
    && (forall key: Pair :: Bucket(kind, key) == at ==> KeyCopied(archive, after, grown, src, kind, keys, d, key))
    && (forall key: Pair :: KeyReady(after, kind, at, keys, d, key))
    && OthersReady(before, after, kind)
  }

  lemma NothingCopied(b: Built, archive: Archive, src: Built, kind: nat, at: Pair, d: Option<EntityData>)
    requires Clear(b, kind, at)
    ensures CopiedKeys(b, archive, b, archive, src, kind, at, [], d)
  {
  }

  lemma NextIsReady(
    before: Built, archive: Archive, b: Built, a: Archive, src: Built, kind: nat, at: Pair, keys: seq<Pair>, i: nat,
    d: Option<EntityData>)
    requires i < |keys| && Ascending(keys) && AllIndexed(src, kind, at, keys)
    requires CopiedKeys(before, archive, b, a, src, kind, at, keys[..i], d)
    ensures Ready(b, kind, keys[i])
  {
    assert keys[i] in keys;
    assert KeyReady(b, kind, at, keys[..i], d, keys[i]);
  }

  lemma OneMoreCopied(
    before: Built, archive: Archive, b: Built, a: Archive, after: Built, grown: Archive, src: Built, kind: nat,
    at: Pair, keys: seq<Pair>, i: nat, d: Option<EntityData>)
    requires i < |keys| && AllIndexed(src, kind, at, keys) && !Skipped(d, kind, keys[i].1)
    requires CopiedKeys(before, archive, b, a, src, kind, at, keys[..i], d)
    requires CopiedEntry(b, a, after, grown, src, kind, keys[i])
    requires Stored(src, archive) && Stored(b, a) && kind != PRIMARY
    ensures CopiedKeys(before, archive, after, grown, src, kind, at, keys[..i + 1], d)
  {
    assert keys[i] in keys;
    var more := keys[..i + 1];
    assert more == keys[..i] + [keys[i]];
    forall key: Pair | Bucket(kind, key) == at ensures KeyCopied(archive, after, grown, src, kind, more, d, key) {
      if key == keys[i] {
        SameContent(src, archive, a, kind, key);
      } else {
        assert KeyCopied(archive, b, a, src, kind, keys[..i], d, key);
        assert Entry(after, kind, key) == Entry(b, kind, key);
        SameContent(b, a, grown, kind, key);
      }
    }
    forall key: Pair ensures KeyReady(after, kind, at, more, d, key) {
      assert more[i] == keys[i];
    }
  }

  lemma OneMoreSkipped(
    before: Built, archive: Archive, b: Built, a: Archive, src: Built, kind: nat, at: Pair, keys: seq<Pair>, i: nat,
    d: Option<EntityData>)
    requires i < |keys| && Skipped(d, kind, keys[i].1)
    requires CopiedKeys(before, archive, b, a, src, kind, at, keys[..i], d)
    ensures CopiedKeys(before, archive, b, a, src, kind, at, keys[..i + 1], d)
  {
    var more := keys[..i + 1];
    assert more == keys[..i] + [keys[i]];
    forall key: Pair | Bucket(kind, key) == at ensures KeyCopied(archive, b, a, src, kind, more, d, key) {
      assert KeyCopied(archive, b, a, src, kind, keys[..i], d, key);
    }
    forall key: Pair ensures KeyReady(b, kind, at, more, d, key) {
      assert KeyReady(b, kind, at, keys[..i], d, key);
    }
  }

  // ----- one entity's history, bucket by bucket -----

  /** Memory has a record of its own for some version of this bucket. */
  predicate Modified(d: Option<EntityData>, kind: nat, at: Pair) {
    exists version :: at.1 <= version <= at.1 + (WIDTH - 1) && Overrides(d, kind, version)
  }

  /** The versions memory will still append: at or after the last copied one. */
  ghost predicate ToCome(d: Option<EntityData>, kind: nat, last: nat, version: nat) {
    version >= last && Overrides(d, kind, version) && (version > last || kind == SNAPSHOTS)
  }

  function Kept(
    src: Built, archive: Archive, kind: nat, id: nat, first: nat, last: nat, d: Option<EntityData>,
    version: nat): Option<Record>
  {
    if first <= version <= last && !Skipped(d, kind, version) then Content(src, archive, kind, (id, version)) else None
  }

  /** A version's record is the older manifest's when its bucket is done, and not there yet otherwise. */
  ghost predicate VersionCopied(
    after: Built, grown: Archive, src: Built, archive: Archive, kind: nat, id: nat, first: nat, last: nat,
    done: seq<Pair>, d: Option<EntityData>, version: nat)
  {
    Content(after, grown, kind, (id, version)) ==
      if Bucket(kind, (id, version)) in done then Kept(src, archive, kind, id, first, last, d, version) else None
  }

  ghost predicate VersionReady(after: Built, kind: nat, id: nat, last: nat, d: Option<EntityData>, version: nat) {
    ToCome(d, kind, last, version) ==> Ready(after, kind, (id, version))
  }

  /** Nothing of other entities or other kinds was touched. */
  ghost predicate OnlyEntity(before: Built, after: Built, kind: nat, id: nat) {
    && (forall route: Route :: route.kind != kind || route.at.0 != id ==> PartAt(after, route) == PartAt(before, route))
    && OthersReady(before, after, kind)
  }

  ghost predicate OnlyBuckets(after: Built, kind: nat, id: nat, done: seq<Pair>) {
    forall at: Pair :: at.0 == id && PartAt(after, Route(kind, at)).Some? ==> at in done
  }

  /** The buckets `done` of the entity hold what the older manifest has in the range, less what memory overrides. */
  ghost predicate CopiedBuckets(
    before: Built, archive: Archive, after: Built, grown: Archive, src: Built, kind: nat, id: nat, first: nat,
    last: nat, done: seq<Pair>, d: Option<EntityData>)
  {
    && Preserves(archive, grown)
    && OnlyEntity(before, after, kind, id)
    && OnlyBuckets(after, kind, id, done)
    && (forall version :: VersionCopied(after, grown, src, archive, kind, id, first, last, done, d, version))
    && (forall version :: VersionReady(after, kind, id, last, d, version))
  }

  lemma NoBuckets(
    b: Built, archive: Archive, src: Built, kind: nat, id: nat, first: nat, last: nat, d: Option<EntityData>)
    requires Clear(b, kind, (id, 0)) && kind != PRIMARY
    ensures CopiedBuckets(b, archive, b, archive, src, kind, id, first, last, [], d)
  {
  }

  lemma NextBucketClear(
    before: Built, archive: Archive, b: Built, a: Archive, src: Built, kind: nat, id: nat, first: nat, last: nat,
    ats: seq<Pair>, i: nat, d: Option<EntityData>)
    requires i < |ats| && Ascending(ats) && ats[i].0 == id && Clear(before, kind, (id, 0))
    requires CopiedBuckets(before, archive, b, a, src, kind, id, first, last, ats[..i], d)
    ensures Clear(b, kind, ats[i])
  {
    forall other | PartAt(b, Route(kind, other)).Some? ensures Less(other, ats[i]) {
      if other.0 != id {
        assert PartAt(before, Route(kind, other)).Some?;
      }
    }
  }

  /** One more bucket done: the versions elsewhere are as before. */
  lemma ElsewhereCopied(
    b: Built, a: Archive, after: Built, grown: Archive, src: Built, archive: Archive, kind: nat, id: nat, first: nat,
    last: nat, ats: seq<Pair>, i: nat, d: Option<EntityData>, version: nat)
    requires i < |ats| && kind != PRIMARY && Bucket(kind, (id, version)) != ats[i]
    requires VersionCopied(b, a, src, archive, kind, id, first, last, ats[..i], d, version)
    requires Stored(b, a) && Preserves(a, grown)
    requires PartAt(after, Route(kind, Bucket(kind, (id, version))))
             == PartAt(b, Route(kind, Bucket(kind, (id, version))))
    ensures VersionCopied(after, grown, src, archive, kind, id, first, last, ats[..i + 1], d, version)
  {
    assert ats[..i + 1] == ats[..i] + [ats[i]];
    assert Entry(after, kind, (id, version)) == Entry(b, kind, (id, version));
    SameContent(b, a, grown, kind, (id, version));
  }

  lemma TakenVersion(
    a: Archive, after: Built, src: Built, archive: Archive, kind: nat, id: nat, first: nat, last: nat, ats: seq<Pair>,
    i: nat, d: Option<EntityData>, version: nat)
    requires i < |ats| && kind != PRIMARY && Bucket(kind, (id, version)) == ats[i]
    requires Stored(src, archive) && BuiltOk(src) && Preserves(archive, a)
    requires PartAt(src, Route(kind, ats[i])).Some?
             && PartAt(after, Route(kind, ats[i])) == PartAt(src, Route(kind, ats[i]))
    requires !Modified(d, kind, ats[i])
    requires first <= PartAt(src, Route(kind, ats[i])).value.first.1
             && PartAt(src, Route(kind, ats[i])).value.last.1 <= last
    ensures VersionCopied(after, a, src, archive, kind, id, first, last, ats[..i + 1], d, version)
  {
    assert PartOk(Route(kind, ats[i]), PartAt(src, Route(kind, ats[i])).value);
    assert ats[..i + 1][i] == ats[i];
    assert Entry(after, kind, (id, version)) == Entry(src, kind, (id, version));
    SameContent(src, archive, a, kind, (id, version));
    assert !Overrides(d, kind, version);
  }

  lemma TakenReady(
    b: Built, after: Built, part: Part, kind: nat, id: nat, last: nat, at: Pair, d: Option<EntityData>, version: nat)
    requires kind != PRIMARY && at.0 == id && Clear(b, kind, at) && AtMost(at, Bucket(kind, (id, last)))
    requires With(b, after, Route(kind, at), part) && !Modified(d, kind, at)
    ensures VersionReady(after, kind, id, last, d, version)
  {
    if ToCome(d, kind, last, version) {
      BucketMonotone(kind, (id, last), (id, version));
      assert Bucket(kind, (id, version)) != at;
    }
  }

  lemma BucketTakenOver(
    before: Built, archive: Archive, b: Built, a: Archive, after: Built, src: Built, kind: nat, id: nat, first: nat,
    last: nat, ats: seq<Pair>, i: nat, d: Option<EntityData>)
    requires i < |ats| && kind != PRIMARY && ats[i].0 == id && Clear(b, kind, ats[i])
             && AtMost(ats[i], Bucket(kind, (id, last)))
    requires CopiedBuckets(before, archive, b, a, src, kind, id, first, last, ats[..i], d)
    requires Stored(src, archive) && Stored(b, a) && BuiltOk(src)
    requires PartAt(src, Route(kind, ats[i])).Some?
             && With(b, after, Route(kind, ats[i]), PartAt(src, Route(kind, ats[i])).value)
    requires !Modified(d, kind, ats[i])
    requires first <= PartAt(src, Route(kind, ats[i])).value.first.1
             && PartAt(src, Route(kind, ats[i])).value.last.1 <= last
    requires OthersReady(b, after, kind)
    ensures CopiedBuckets(before, archive, after, a, src, kind, id, first, last, ats[..i + 1], d)
  {
    var more := ats[..i + 1];
    forall version ensures VersionCopied(after, a, src, archive, kind, id, first, last, more, d, version) {
      assert VersionCopied(b, a, src, archive, kind, id, first, last, ats[..i], d, version);
      if Bucket(kind, (id, version)) == ats[i] {
        TakenVersion(a, after, src, archive, kind, id, first, last, ats, i, d, version);
      } else {
        ElsewhereCopied(b, a, after, a, src, archive, kind, id, first, last, ats, i, d, version);
      }
    }
    forall version ensures VersionReady(after, kind, id, last, d, version) {
      TakenReady(b, after, PartAt(src, Route(kind, ats[i])).value, kind, id, last, ats[i], d, version);
    }
    OneMoreBucket(before, b, after, kind, id, ats, i);
  }

  lemma OneMoreBucket(before: Built, b: Built, after: Built, kind: nat, id: nat, ats: seq<Pair>, i: nat)
    requires i < |ats| && ats[i].0 == id
    requires OnlyEntity(before, b, kind, id) && OnlyBuckets(b, kind, id, ats[..i]) && OthersReady(b, after, kind)
    requires forall route :: route != Route(kind, ats[i]) ==> PartAt(after, route) == PartAt(b, route)
    ensures OnlyEntity(before, after, kind, id) && OnlyBuckets(after, kind, id, ats[..i + 1])
  {
    assert ats[..i + 1] == ats[..i] + [ats[i]];
  }

  lemma CopiedVersion(
    b: Built, a: Archive, after: Built, grown: Archive, src: Built, archive: Archive, kind: nat, id: nat, first: nat,
    last: nat, ats: seq<Pair>, i: nat, keys: seq<Pair>, d: Option<EntityData>, version: nat)
    requires i < |ats| && kind != PRIMARY && Bucket(kind, (id, version)) == ats[i]
    requires Stored(src, archive) && Preserves(archive, a)
    requires KeyCopied(a, after, grown, src, kind, keys, d, (id, version))
    requires (id, version) in keys <==> first <= version <= last && Entry(src, kind, (id, version)).Some?
    ensures VersionCopied(after, grown, src, archive, kind, id, first, last, ats[..i + 1], d, version)
  {
    assert ats[..i + 1][i] == ats[i];
    SameContent(src, archive, a, kind, (id, version));
  }

  lemma CopiedReady(
    after: Built, src: Built, kind: nat, id: nat, first: nat, last: nat, at: Pair, keys: seq<Pair>,
    d: Option<EntityData>, version: nat)
    requires kind != PRIMARY && at.0 == id && AtMost(at, Bucket(kind, (id, last)))
    requires KeyReady(after, kind, at, keys, d, (id, version)) && Chosen(src, kind, id, first, last, at, keys)
    ensures VersionReady(after, kind, id, last, d, version)
  {
    if ToCome(d, kind, last, version) {
      BucketMonotone(kind, (id, last), (id, version));
      assert Past(keys, kind, d, (id, version));
    }
  }

  ghost predicate Chosen(src: Built, kind: nat, id: nat, first: nat, last: nat, at: Pair, keys: seq<Pair>) {
    forall key :: key in keys <==>
                    key.0 == id && first <= key.1 <= last && Bucket(kind, key) == at && Entry(src, kind, key).Some?
  }

  lemma BucketCopied(
    before: Built, archive: Archive, b: Built, a: Archive, after: Built, grown: Archive, src: Built, kind: nat,
    id: nat, first: nat, last: nat, ats: seq<Pair>, i: nat, keys: seq<Pair>, d: Option<EntityData>)
    requires i < |ats| && Ascending(ats) && kind != PRIMARY && ats[i].0 == id
             && AtMost(ats[i], Bucket(kind, (id, last)))
    requires CopiedBuckets(before, archive, b, a, src, kind, id, first, last, ats[..i], d)
    requires Stored(src, archive) && Stored(b, a)
    requires CopiedKeys(b, a, after, grown, src, kind, ats[i], keys, d)
    requires Chosen(src, kind, id, first, last, ats[i], keys)
    ensures CopiedBuckets(before, archive, after, grown, src, kind, id, first, last, ats[..i + 1], d)
  {
    var more := ats[..i + 1];
    forall version ensures VersionCopied(after, grown, src, archive, kind, id, first, last, more, d, version) {
      assert VersionCopied(b, a, src, archive, kind, id, first, last, ats[..i], d, version);
      if Bucket(kind, (id, version)) == ats[i] {
        CopiedVersion(b, a, after, grown, src, archive, kind, id, first, last, ats, i, keys, d, version);
      } else {
        ElsewhereCopied(b, a, after, grown, src, archive, kind, id, first, last, ats, i, d, version);
      }
    }
    forall version ensures VersionReady(after, kind, id, last, d, version) {
      assert KeyReady(after, kind, ats[i], keys, d, (id, version));
      CopiedReady(after, src, kind, id, first, last, ats[i], keys, d, version);
    }
    OneMoreBucket(before, b, after, kind, id, ats, i);
  }

  /** A version's record is the older manifest's, unless memory overrides it. */
  ghost predicate VersionKept(
    after: Built, grown: Archive, src: Built, archive: Archive, kind: nat, id: nat, first: nat, last: nat,
    d: Option<EntityData>, version: nat)
  {
    Content(after, grown, kind, (id, version)) == Kept(src, archive, kind, id, first, last, d, version)
  }

  /** The entity's history in the range was copied, less what memory overrides; nothing else was touched. */
  ghost predicate CopiedRange(
    before: Built, archive: Archive, after: Built, grown: Archive, src: Built, kind: nat, id: nat, first: nat,
    last: nat, d: Option<EntityData>)
  {
    && Preserves(archive, grown)
    && OnlyEntity(before, after, kind, id)
    && (forall version :: VersionKept(after, grown, src, archive, kind, id, first, last, d, version))
    && (forall version :: VersionReady(after, kind, id, last, d, version))
  }

  lemma AllBuckets(
    before: Built, archive: Archive, after: Built, grown: Archive, src: Built, kind: nat, id: nat, first: nat,
    last: nat, ats: seq<Pair>, d: Option<EntityData>)
    requires CopiedBuckets(before, archive, after, grown, src, kind, id, first, last, ats, d) && kind != PRIMARY
    requires forall at ::
               && PartAt(src, Route(kind, at)).Some?
               && AtMost(Bucket(kind, (id, first)), at) && AtMost(at, Bucket(kind, (id, last))) ==>
                 at in ats
    ensures CopiedRange(before, archive, after, grown, src, kind, id, first, last, d)
  {
    forall version: nat ensures VersionKept(after, grown, src, archive, kind, id, first, last, d, version) {
      assert VersionCopied(after, grown, src, archive, kind, id, first, last, ats, d, version);
      if first <= version <= last {
        BucketMonotone(kind, (id, first), (id, version));
        BucketMonotone(kind, (id, version), (id, last));
      }
    }
  }

  // ----- both history indexes of an entity -----

  /** Only the history of this entity changed. */
  ghost predicate OnlyHistory(before: Built, after: Built, id: nat) {
    && (forall route: Route :: !((route.kind == EVENTS || route.kind == SNAPSHOTS) && route.at.0 == id) ==>
       PartAt(after, route) == PartAt(before, route))
    && (forall key :: Ready(before, PRIMARY, key) ==> Ready(after, PRIMARY, key))
  }

  ghost predicate EventKept(
    after: Built, grown: Archive, src: Built, archive: Archive, id: nat, base: nat, last: nat, d: Option<EntityData>,
    version: nat)
  {
    VersionKept(after, grown, src, archive, EVENTS, id, base + 1, last, d, version)
  }

  ghost predicate HistoryCopied(
    before: Built, archive: Archive, after: Built, grown: Archive, src: Built, id: nat, base: nat, last: nat,
    d: Option<EntityData>)
  {
    && Preserves(archive, grown)
    && OnlyHistory(before, after, id)
    && (forall version :: VersionKept(after, grown, src, archive, SNAPSHOTS, id, base, last, d, version))
    && (forall version :: EventKept(after, grown, src, archive, id, base, last, d, version))
    && (forall version :: VersionReady(after, SNAPSHOTS, id, last, d, version))
    && (forall version :: VersionReady(after, EVENTS, id, last, d, version))
  }

  lemma BothCopied(
    before: Built, archive: Archive, b: Built, a: Archive, after: Built, grown: Archive, src: Built, id: nat,
    base: nat, last: nat, d: Option<EntityData>)
    requires Stored(src, archive) && Stored(b, a)
    requires CopiedRange(before, archive, b, a, src, SNAPSHOTS, id, base, last, d)
    requires CopiedRange(b, a, after, grown, src, EVENTS, id, base + 1, last, d)
    ensures HistoryCopied(before, archive, after, grown, src, id, base, last, d)
  {
    forall version: nat ensures VersionKept(after, grown, src, archive, SNAPSHOTS, id, base, last, d, version) {
      assert VersionKept(b, a, src, archive, SNAPSHOTS, id, base, last, d, version);
      SameContent(b, a, grown, SNAPSHOTS, (id, version));
      assert Entry(after, SNAPSHOTS, (id, version)) == Entry(b, SNAPSHOTS, (id, version));
    }
    forall version: nat ensures EventKept(after, grown, src, archive, id, base, last, d, version) {
      assert VersionKept(after, grown, src, a, EVENTS, id, base + 1, last, d, version);
      SameContent(src, archive, a, EVENTS, (id, version));
    }
    forall version: nat ensures VersionReady(after, SNAPSHOTS, id, last, d, version) {
      assert VersionReady(b, SNAPSHOTS, id, last, d, version);
    }
  }

  lemma OnlySnapshots(
    before: Built, archive: Archive, after: Built, grown: Archive, src: Built, id: nat, base: nat, last: nat,
    d: Option<EntityData>)
    requires Stored(src, archive) && Clear(before, EVENTS, (id, 0)) && base >= last
    requires CopiedRange(before, archive, after, grown, src, SNAPSHOTS, id, base, last, d)
    ensures HistoryCopied(before, archive, after, grown, src, id, base, last, d)
  {
    forall version: nat ensures EventKept(after, grown, src, archive, id, base, last, d, version) {
      ClearIsEmpty(before, EVENTS, id, version);
      assert Entry(after, EVENTS, (id, version)) == Entry(before, EVENTS, (id, version));
    }
    forall version: nat ensures VersionReady(after, EVENTS, id, last, d, version) {
      ClearIsReady(before, EVENTS, (id, 0), (id, version));
    }
  }

  lemma ClearIsEmpty(b: Built, kind: nat, id: nat, version: nat)
    requires Clear(b, kind, (id, 0)) && kind != PRIMARY
    ensures PartAt(b, Route(kind, Bucket(kind, (id, version)))).None? && Entry(b, kind, (id, version)).None?
  {
  }

  /** The next entity starts with nothing of its own. */
  lemma ClearNext(before: Built, after: Built, id: nat, kind: nat)
    requires OnlyHistory(before, after, id) && Clear(before, kind, (id, 0)) && (kind == EVENTS || kind == SNAPSHOTS)
    ensures Clear(after, kind, (id + 1, 0))
  {
    forall at: Pair | PartAt(after, Route(kind, at)).Some? ensures Less(at, (id + 1, 0)) {
      if at.0 != id {
        assert PartAt(before, Route(kind, at)).Some?;
      }
    }
  }

  // ----- appending records from memory -----

  ghost predicate KeyAppended(
    before: Built, archive: Archive, after: Built, grown: Archive, kind: nat, done: seq<Pair>,
    records: map<Pair, Record>, key: Pair)
  {
    Content(after, grown, kind, key) == if key in done && key in records then Some(records[key])
        else Content(before, archive, kind, key)
  }

  ghost predicate StillReady(before: Built, after: Built, kind: nat, done: seq<Pair>, key: Pair) {
    Ready(before, kind, key) && (forall other :: other in done ==> Less(other, key)) ==> Ready(after, kind, key)
  }

  ghost predicate Appending(
    before: Built, archive: Archive, after: Built, grown: Archive, kind: nat, id: nat, done: seq<Pair>,
    records: map<Pair, Record>)
  {
    && Preserves(archive, grown)
    && OnlyEntity(before, after, kind, id)
    && (forall key: Pair :: KeyAppended(before, archive, after, grown, kind, done, records, key))
    && (forall key: Pair :: StillReady(before, after, kind, done, key))
  }

  /** Only this key was added, with this record. */
  ghost predicate AppendedEntry(
    before: Built, archive: Archive, after: Built, grown: Archive, kind: nat, key: Pair, record: Record)
  {
    && Preserves(archive, grown)
    && (forall k, other :: !(k == kind && other == key) ==> Entry(after, k, other) == Entry(before, k, other))
    && Content(after, grown, kind, key) == Some(record)
    && (forall later :: Less(key, later) ==> Ready(after, kind, later))
    && OthersReady(before, after, kind)
    && (forall route :: route != Route(kind, Bucket(kind, key)) ==> PartAt(after, route) == PartAt(before, route))
  }

  lemma NothingAppended(b: Built, archive: Archive, kind: nat, id: nat, records: map<Pair, Record>)
    ensures Appending(b, archive, b, archive, kind, id, [], records)
  {
  }

  lemma OneMoreAppended(
    before: Built, archive: Archive, b: Built, a: Archive, after: Built, grown: Archive, kind: nat, id: nat,
    keys: seq<Pair>, i: nat, records: map<Pair, Record>)
    requires i < |keys| && keys[i] in records && keys[i].0 == id && kind != PRIMARY
    requires Appending(before, archive, b, a, kind, id, keys[..i], records)
    requires AppendedEntry(b, a, after, grown, kind, keys[i], records[keys[i]])
    requires Stored(b, a)
    ensures Appending(before, archive, after, grown, kind, id, keys[..i + 1], records)
  {
    var more := keys[..i + 1];
    assert more == keys[..i] + [keys[i]];
    forall key: Pair ensures KeyAppended(before, archive, after, grown, kind, more, records, key) {
      assert KeyAppended(before, archive, b, a, kind, keys[..i], records, key);
      if key != keys[i] {
        assert Entry(after, kind, key) == Entry(b, kind, key);
        SameContent(b, a, grown, kind, key);
      }
    }
    forall key: Pair ensures StillReady(before, after, kind, more, key) {
      assert more[i] == keys[i];
    }
  }

  lemma NextAppendReady(
    before: Built, archive: Archive, b: Built, a: Archive, kind: nat, id: nat, keys: seq<Pair>, i: nat,
    records: map<Pair, Record>)
    requires i < |keys| && Ascending(keys) && Ready(before, kind, keys[i])
    requires Appending(before, archive, b, a, kind, id, keys[..i], records)
    ensures Ready(b, kind, keys[i])
  {
    assert StillReady(before, b, kind, keys[..i], keys[i]);
  }

  // ----- taking over all history partitions of a range of entities -----

  ghost predicate RouteTaken(before: Built, after: Built, src: Built, kind: nat, done: seq<Pair>, at: Pair) {
    PartAt(after, Route(kind, at)) == if at in done then PartAt(src, Route(kind, at))
        else PartAt(before, Route(kind, at))
  }

  ghost predicate TakingRange(before: Built, after: Built, src: Built, kind: nat, done: seq<Pair>) {
    && (forall at: Pair :: RouteTaken(before, after, src, kind, done, at))
    && (forall route: Route :: route.kind != kind ==> PartAt(after, route) == PartAt(before, route))
    && OthersReady(before, after, kind)
  }

  lemma OneMoreTaken(before: Built, b: Built, after: Built, src: Built, kind: nat, ats: seq<Pair>, i: nat)
    requires i < |ats| && TakingRange(before, b, src, kind, ats[..i]) && PartAt(src, Route(kind, ats[i])).Some?
    requires With(b, after, Route(kind, ats[i]), PartAt(src, Route(kind, ats[i])).value) && OthersReady(b, after, kind)
    ensures TakingRange(before, after, src, kind, ats[..i + 1])
  {
    var more := ats[..i + 1];
    assert more == ats[..i] + [ats[i]];
    forall at: Pair ensures RouteTaken(before, after, src, kind, more, at) {
      assert RouteTaken(before, b, src, kind, ats[..i], at);
    }
  }

  lemma TakingClear(before: Built, b: Built, src: Built, kind: nat, ats: seq<Pair>, i: nat, lower: nat)
    requires i < |ats| && Ascending(ats) && TakingRange(before, b, src, kind, ats[..i])
    requires Clear(before, kind, (lower, 0)) && lower <= ats[i].0
    ensures Clear(b, kind, ats[i])
  {
    forall other: Pair | PartAt(b, Route(kind, other)).Some? ensures Less(other, ats[i]) {
      assert RouteTaken(before, b, src, kind, ats[..i], other);
    }
  }

  /** Exactly the partitions of the entities `lower .. upper` were taken over. */
  ghost predicate TookRange(before: Built, after: Built, src: Built, kind: nat, lower: nat, upper: nat) {
    && (forall at: Pair :: RangeTaken(before, after, src, kind, lower, upper, at))
    && (forall route: Route :: route.kind != kind ==> PartAt(after, route) == PartAt(before, route))
    && OthersReady(before, after, kind)
  }

  ghost predicate RangeTaken(before: Built, after: Built, src: Built, kind: nat, lower: nat, upper: nat, at: Pair) {
    PartAt(after, Route(kind, at)) == if lower <= at.0 <= upper then PartAt(src, Route(kind, at))
        else PartAt(before, Route(kind, at))
  }

  lemma AllTaken(before: Built, after: Built, src: Built, kind: nat, ats: seq<Pair>, lower: nat, upper: nat)
    requires TakingRange(before, after, src, kind, ats) && Clear(before, kind, (lower, 0))
    requires forall at: Pair :: at in ats <==> lower <= at.0 <= upper && PartAt(src, Route(kind, at)).Some?
    ensures TookRange(before, after, src, kind, lower, upper)
  {
    forall at: Pair ensures RangeTaken(before, after, src, kind, lower, upper, at) {
      assert RouteTaken(before, after, src, kind, ats, at);
    }
  }

  lemma TookClear(before: Built, after: Built, src: Built, kind: nat, lower: nat, upper: nat)
    requires TookRange(before, after, src, kind, lower, upper) && Clear(before, kind, (lower, 0)) && lower <= upper
    ensures Clear(after, kind, (upper + 1, 0))
  {
    forall other: Pair | PartAt(after, Route(kind, other)).Some? ensures Less(other, (upper + 1, 0)) {
      assert RangeTaken(before, after, src, kind, lower, upper, other);
    }
  }
}
