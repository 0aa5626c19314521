/**
 Reading through the partitions of a manifest (partitions.rs: lookup_index, floor_index, scan_index):
 disjoint partitions behave as one sorted index, and a primary partition reused by any number of
 manifests still resolves every locator to the generation it was written in.
 */
module Routing {
  import opened Results
  import opened Partitions
  import opened Archives
  import opened SortedKeys

  /** The index entry of a key, in the slots of this manifest. */
  function Resolved(parts: map<Route, Part>, kind: nat, key: Pair): Option<Pointer> {
    match Lookup(parts, kind, key)
    case Ok(found) => found
    case Err(_) => None
  }

  ghost predicate PartsOk(parts: map<Route, Part>) {
    forall route :: route in parts ==> PartOk(route, parts[route])
  }

  /** A lookup never fails, and sees an entry exactly when some partition has one. */
  lemma LookupIsTotal(parts: map<Route, Part>, kind: nat, key: Pair)
    requires PartsOk(parts)
    ensures Lookup(parts, kind, key).Ok?
    ensures Resolved(parts, kind, key).Some? <==>
            exists route :: route in parts && route.kind == kind && key in parts[route].entries
  {
    var route := Route(kind, Bucket(kind, key));
    if route in parts {
      assert PartOk(route, parts[route]);
    }
    if other :| other in parts && other.kind == kind && key in parts[other].entries {
      assert PartOk(other, parts[other]);
      assert other == route;
    }
  }

  /** floor_at on one partition. */
  method PartFloor(part: Part, key: Pair) returns (r: Option<Pair>)
    ensures r.Some? ==> r.value in part.entries && AtMost(r.value, key)
    ensures forall other :: other in part.entries && AtMost(other, key) ==> r.Some? && AtMost(other, r.value)
  {
    var keys := Sorted(set other | other in part.entries && AtMost(other, key));
    forall other | other in part.entries && AtMost(other, key)
        ensures other in keys && AtMost(other, keys[|keys| - 1]) {
      assert other in keys;
    }
    if |keys| == 0 {
      return None;
    }
    assert keys[|keys| - 1] in keys;
    return Some(keys[|keys| - 1]);
  }

  /** floor_index: partitions are tried from the key's own bucket downwards, and the first hit is the floor. */
  method FloorIndex(parts: map<Route, Part>, kind: nat, key: Pair) returns (ok: bool, r: Option<(Pair, Pointer)>)
    requires PartsOk(parts)
    ensures ok
    ensures r.Some? ==> AtMost(r.value.0, key) && Resolved(parts, kind, r.value.0) == Some(r.value.1)
    ensures forall other :: Resolved(parts, kind, other).Some? && AtMost(other, key) ==>
            r.Some? && AtMost(other, r.value.0)
  {
    var ats := Sorted(set route | route in parts && route.kind == kind
        && AtMost(route.at, Bucket(kind, key)) :: route.at);
    var i := |ats|;
    while i > 0
      invariant 0 <= i <= |ats|
      invariant forall j :: 0 <= j < |ats| ==> ats[j] in ats && Route(kind, ats[j]) in parts
      invariant forall j, other :: i <= j < |ats| && other in parts[Route(kind, ats[j])].entries ==> !AtMost(other, key)
    {
      i := i - 1;
      assert ats[i] in ats;
      var route := Route(kind, ats[i]);
      assert PartOk(route, parts[route]);
      var found := PartFloor(parts[route], key);
      if found.Some? {
        FloorFound(parts, kind, key, ats, i, found.value);
        match Translated(parts[route], parts[route].entries[found.value])
        case Err(_) => return false, None;
        case Ok(pointer) => return true, Some((found.value, pointer));
      }
    }
    forall other | Resolved(parts, kind, other).Some? ensures !AtMost(other, key) {
      InSomePart(parts, kind, key, ats, other);
    }
    return true, None;
  }

  lemma InSomePart(parts: map<Route, Part>, kind: nat, key: Pair, ats: seq<Pair>, other: Pair)
    requires PartsOk(parts) && Resolved(parts, kind, other).Some?
    requires forall at :: at in ats <==> Route(kind, at) in parts && AtMost(at, Bucket(kind, key))
    ensures AtMost(other, key) ==>
              exists j :: 0 <= j < |ats| && ats[j] == Bucket(kind, other) && other in parts[Route(kind, ats[j])].entries
  {
    if AtMost(other, key) {
      BucketMonotone(kind, other, key);
      assert Bucket(kind, other) in ats;
    }
  }

  lemma FloorFound(parts: map<Route, Part>, kind: nat, key: Pair, ats: seq<Pair>, i: nat, found: Pair)
    requires PartsOk(parts) && i < |ats| && Ascending(ats)
    requires forall at :: at in ats <==> Route(kind, at) in parts && AtMost(at, Bucket(kind, key))
    requires found in parts[Route(kind, ats[i])].entries && AtMost(found, key)
    requires forall other :: other in parts[Route(kind, ats[i])].entries && AtMost(other, key) ==> AtMost(other, found)
    requires forall j, other :: i < j < |ats| && other in parts[Route(kind, ats[j])].entries ==> !AtMost(other, key)
    ensures forall other :: Resolved(parts, kind, other).Some? && AtMost(other, key) ==> AtMost(other, found)
  {
    assert ats[i] in ats;
    assert PartOk(Route(kind, ats[i]), parts[Route(kind, ats[i])]);
    forall other | Resolved(parts, kind, other).Some? && AtMost(other, key) ensures AtMost(other, found) {
      InSomePart(parts, kind, key, ats, other);
      var j :| 0 <= j < |ats| && ats[j] == Bucket(kind, other) && other in parts[Route(kind, ats[j])].entries;
      if j < i {
        EarlierBucket(kind, other, found);
      }
    }
  }

  lemma EarlierBucket(kind: nat, a: Pair, b: Pair)
    requires Less(Bucket(kind, a), Bucket(kind, b))
    ensures Less(a, b)
  {
    if !Less(a, b) {
      BucketMonotone(kind, b, a);
    }
  }

  /** The key is in the bounds and has an entry, in one of these buckets. */
  ghost predicate InScan(
    parts: map<Route, Part>, kind: nat, lower: Pair, upper: Pair, buckets: seq<Pair>, key: Pair)
  {
    AtMost(lower, key) && AtMost(key, upper) && Resolved(parts, kind, key).Some? && Bucket(kind, key) in buckets
  }

  /** Exactly those keys, in order. */
  ghost predicate Scanned(
    parts: map<Route, Part>, kind: nat, lower: Pair, upper: Pair, buckets: seq<Pair>, r: seq<Pair>)
  {
    Ascending(r) && forall key :: key in r <==> InScan(parts, kind, lower, upper, buckets, key)
  }

  /** The keys of one partition are those of its bucket. */
  lemma PartScanned(parts: map<Route, Part>, kind: nat, lower: Pair, upper: Pair, at: Pair, keys: seq<Pair>)
    requires PartsOk(parts) && Route(kind, at) in parts && Ascending(keys)
    requires forall key :: key in keys <==>
                             key in parts[Route(kind, at)].entries && AtMost(lower, key) && AtMost(key, upper)
    ensures Scanned(parts, kind, lower, upper, [at], keys)
  {
    var route := Route(kind, at);
    assert PartOk(route, parts[route]);
    forall key ensures key in keys <==> InScan(parts, kind, lower, upper, [at], key) {
      LookupIsTotal(parts, kind, key);
    }
  }

  lemma ScannedMore(
    parts: map<Route, Part>, kind: nat, lower: Pair, upper: Pair, ats: seq<Pair>, i: nat, r: seq<Pair>, keys: seq<Pair>)
    requires i < |ats| && Ascending(ats) && Scanned(parts, kind, lower, upper, ats[..i], r)
    requires Scanned(parts, kind, lower, upper, [ats[i]], keys)
    ensures Scanned(parts, kind, lower, upper, ats[..i + 1], r + keys)
  {
    forall key | key in r ensures Bucket(kind, key) in ats[..i] {
      assert InScan(parts, kind, lower, upper, ats[..i], key);
    }
    forall key | key in keys ensures Bucket(kind, key) == ats[i] {
      assert InScan(parts, kind, lower, upper, [ats[i]], key);
    }
    Joined(kind, r, keys, ats, i);
    assert ats[..i + 1] == ats[..i] + [ats[i]];
  }

  /** No entry between the bounds is in another bucket. */
  lemma ScannedAll(parts: map<Route, Part>, kind: nat, lower: Pair, upper: Pair, ats: seq<Pair>, key: Pair)
    requires PartsOk(parts) && AtMost(lower, key) && AtMost(key, upper) && Resolved(parts, kind, key).Some?
    requires forall at :: at in ats <==>
                            && Route(kind, at) in parts
                            && AtMost(Bucket(kind, lower), at) && AtMost(at, Bucket(kind, upper))
    ensures InScan(parts, kind, lower, upper, ats, key)
  {
    BucketMonotone(kind, lower, key);
    BucketMonotone(kind, key, upper);
  }

  /** scan_index: the entries between the bounds, in order, partition after partition. */
  method ScanIndex(parts: map<Route, Part>, kind: nat, lower: Pair, upper: Pair) returns (ok: bool, r: seq<Pair>)
    requires PartsOk(parts)
    ensures ok && Ascending(r)
    ensures forall key :: key in r <==> AtMost(lower, key) && AtMost(key, upper) && Resolved(parts, kind, key).Some?
  {
    r := [];
    var ats := Sorted(set route | && route in parts && route.kind == kind
                                  && AtMost(Bucket(kind, lower), route.at) && AtMost(route.at, Bucket(kind, upper))
                              :: route.at);
    assert ats[..0] == [];
    for i := 0 to |ats|
      invariant Scanned(parts, kind, lower, upper, ats[..i], r)
    {
      assert ats[i] in ats;
      var route := Route(kind, ats[i]);
      var keys := Sorted(set key | key in parts[route].entries && AtMost(lower, key) && AtMost(key, upper));
      PartScanned(parts, kind, lower, upper, ats[i], keys);
      ScannedMore(parts, kind, lower, upper, ats, i, r, keys);
      r := r + keys;
    }
    assert ats[..|ats|] == ats;
    forall key | AtMost(lower, key) && AtMost(key, upper) && Resolved(parts, kind, key).Some?
      ensures InScan(parts, kind, lower, upper, ats, key)
    {
      ScannedAll(parts, kind, lower, upper, ats, key);
    }
    return true, r;
  }

  lemma Joined(kind: nat, r: seq<Pair>, keys: seq<Pair>, ats: seq<Pair>, i: nat)
    requires i < |ats| && Ascending(ats) && Ascending(r) && Ascending(keys)
    requires forall key :: key in r ==> Bucket(kind, key) in ats[..i]
    requires forall key :: key in keys ==> Bucket(kind, key) == ats[i]
    ensures Ascending(r + keys)
  {
    forall a, b | 0 <= a < |r| && 0 <= b < |keys| ensures Less(r[a], keys[b]) {
      assert r[a] in r && keys[b] in keys;
      EarlierBucket(kind, r[a], keys[b]);
    }
  }

  // ----- one partition through many manifests -----

  /** The slot translations of successive manifests, each from the generations of the one before. */
  ghost predicate Successive(generations: seq<seq<nat>>, slots: seq<seq<Option<nat>>>) {
    && |generations| == |slots| + 1
    && forall n :: 0 <= n < |slots| ==> KeepsGenerations(generations[n], slots[n], generations[n + 1])
  }

  ghost predicate KeepsGenerations(before: seq<nat>, slots: seq<Option<nat>>, after: seq<nat>) {
    && |slots| == |before|
    && forall slot :: 0 <= slot < |slots| && slots[slot].Some? ==>
       slots[slot].value < |after| && after[slots[slot].value] == before[slot]
  }

  /** The partition as the n-th manifest after its own holds it; none when a generation it needs was dropped. */
  function Reused(part: Part, slots: seq<seq<Option<nat>>>, n: nat): Option<Part>
    requires n <= |slots|
  {
    if n == 0 then Some(part)
    else
      var before := Reused(part, slots, n - 1);
      if before.Some? && SlotsKept(before.value, slots[n - 1]) then Some(Retold(before.value, slots[n - 1])) else None
  }

  /** However often it was reused, an entry resolves to the same generation and the same records. */
  lemma {:induction false} ReusedResolves(
    part: Part, generations: seq<seq<nat>>, slots: seq<seq<Option<nat>>>, n: nat, key: Pair)
    requires Successive(generations, slots) && n <= |slots| && Reused(part, slots, n).Some?
    requires key in part.entries && part.entries[key].Locator? && part.entries[key].slot in part.slots
    requires part.slots[part.entries[key].slot] < |generations[0]|
    ensures Reused(part, slots, n).value.entries == part.entries
    ensures var raw := part.entries[key];
            var now := Translated(Reused(part, slots, n).value, raw);
            && now.Ok? && now.value.Locator? && now.value.slot < |generations[n]|
            && generations[n][now.value.slot] == generations[0][part.slots[raw.slot]]
            && now.value.current == raw.current && now.value.base == raw.base
  {
    if n > 0 {
      ReusedResolves(part, generations, slots, n - 1, key);
      assert KeepsGenerations(generations[n - 1], slots[n - 1], generations[n - 1 + 1]);
    }
  }
}
