/**
 The bulk-built immutable B+tree (storage/index.rs).

 Leaves are written first, in key order, each linked to the next; branches are written level by
 level above them.  A file is read through the items of its leaves in order; `Shape` is the tree the
 pages spell out.  A key stands for the pair of words of the file, which compare lexicographically.
 */
module BtreePages {
  import opened Results
  import opened OrderedTrees

  const LEAF_CAPACITY: nat := 254
  const BRANCH_CAPACITY: nat := 339

  datatype Child = Child(key: int, id: nat)

  datatype Page<V> =
    | Meta(root: nat)
    | LeafPage(items: seq<Item<V>>, next: nat)
    | BranchPage(children: seq<Child>)

  type Pages<V> = map<nat, Page<V>>

  ghost predicate Rising(children: seq<Child>) {
    forall i, j :: 0 <= i < j < |children| ==> children[i].key < children[j].key
  }

  /** Node::decode: what a page must satisfy to enter the cache. */
  ghost predicate Accepts<V>(page: Page<V>, id: nat) {
    match page
    case Meta(root) => root == 0 || root > id
    case LeafPage(items, next) => 0 < |items| <= LEAF_CAPACITY && Ascending(items) && (next == 0 || next > id)
    case BranchPage(children) =>
      && 0 < |children| <= BRANCH_CAPACITY && Rising(children)
      && forall i :: 0 <= i < |children| ==> 0 < children[i].id < id
  }

  datatype Shape = LeafShape(id: nat) | BranchShape(id: nat, kids: seq<Shape>)

  /** The leaves of a tree, left to right. */
  ghost function Leaves(shape: Shape): seq<nat>
    decreases shape, 0
  {
    match shape
    case LeafShape(id) => [id]
    case BranchShape(_, kids) => AllLeaves(kids)
  }

  ghost function AllLeaves(shapes: seq<Shape>): seq<nat>
    decreases shapes, 1
  {
    if shapes == [] then [] else Leaves(shapes[0]) + AllLeaves(shapes[1..])
  }

  ghost function LeafItems<V>(pages: Pages<V>, ids: seq<nat>): seq<Item<V>> {
    if ids == [] then []
    else (if ids[0] in pages && pages[ids[0]].LeafPage? then pages[ids[0]].items else []) + LeafItems(pages, ids[1..])
  }

  /** All items below a tree, in order. */
  ghost function Below<V>(pages: Pages<V>, shape: Shape): seq<Item<V>> {
    LeafItems(pages, Leaves(shape))
  }

  /** The pages spell out the shape; every separator is the first key below its child. */
  ghost predicate Spells<V>(pages: Pages<V>, shape: Shape)
    decreases shape
  {
    && shape.id in pages && Below(pages, shape) != []
    && match shape
       case LeafShape(id) => pages[id].LeafPage?
       case BranchShape(id, kids) =>
         && pages[id].BranchPage? && |kids| == |pages[id].children| > 0
         && forall i :: 0 <= i < |kids| ==>
              && Spells(pages, kids[i]) && kids[i].id < id
              && pages[id].children[i] == Child(Below(pages, kids[i])[0].key, kids[i].id)
  }

  lemma {:induction false} AllLeavesSplit(a: seq<Shape>, b: seq<Shape>)
    ensures AllLeaves(a + b) == AllLeaves(a) + AllLeaves(b)
  {
    if a == [] {
      assert a + b == b;
    } else {
      assert (a + b)[1..] == a[1..] + b;
      AllLeavesSplit(a[1..], b);
    }
  }

  lemma {:induction false} LeafItemsSplit<V>(pages: Pages<V>, a: seq<nat>, b: seq<nat>)
    ensures LeafItems(pages, a + b) == LeafItems(pages, a) + LeafItems(pages, b)
  {
    if a == [] {
      assert a + b == b;
    } else {
      assert (a + b)[1..] == a[1..] + b;
      LeafItemsSplit(pages, a[1..], b);
    }
  }

  /** The items of a tree, around one child of its root. */
  lemma AroundChild<V>(pages: Pages<V>, kids: seq<Shape>, i: nat)
    requires i < |kids|
    ensures AllLeaves(kids) == AllLeaves(kids[..i]) + Leaves(kids[i]) + AllLeaves(kids[i + 1..])
    ensures LeafItems(pages, AllLeaves(kids)) == LeafItems(pages, AllLeaves(kids[..i])) + Below(pages, kids[i])
            + LeafItems(pages, AllLeaves(kids[i + 1..]))
  {
    assert kids == kids[..i] + kids[i..] && kids[i..][1..] == kids[i + 1..];
    AllLeavesSplit(kids[..i], kids[i..]);
    LeafItemsSplit(pages, AllLeaves(kids[..i]), Leaves(kids[i]) + AllLeaves(kids[i + 1..]));
    LeafItemsSplit(pages, Leaves(kids[i]), AllLeaves(kids[i + 1..]));
  }

  /** Pages that were not rewritten spell out the same tree. */
  lemma {:induction false} StillItems<V>(pages: Pages<V>, more: Pages<V>, ids: seq<nat>)
    requires forall id :: id in ids ==> id in pages && id in more && more[id] == pages[id]
    ensures LeafItems(more, ids) == LeafItems(pages, ids)
  {
    if ids != [] {
      assert ids[0] in ids && forall id :: id in ids[1..] ==> id in ids;
      StillItems(pages, more, ids[1..]);
    }
  }
}

/** Reading an index file (storage/index.rs: Node, descend, lookup_at, floor_at, IndexCursor). */
module BtreeReads {
  import opened Results
  import opened OrderedTrees
  import opened BtreePages

  function PageKeys<V>(page: Page<V>): seq<int> {
    match page
    case Meta(_) => []
    case LeafPage(items, _) => seq(|items|, i requires 0 <= i < |items| => items[i].key)
    case BranchPage(children) => seq(|children|, i requires 0 <= i < |children| => children[i].key)
  }

  ghost predicate Sorted(keys: seq<int>) {
    forall i, j :: 0 <= i < j < |keys| ==> keys[i] < keys[j]
  }

  /** Node::decode checks keys, children and links in one pass. */
  method Decode<V>(page: Page<V>, id: nat) returns (ok: bool)
    ensures ok <==> Accepts(page, id)
  {
    match page {
      case Meta(root) => return root == 0 || root > id;
      case LeafPage(items, next) =>
        if |items| == 0 || |items| > LEAF_CAPACITY {
          return false;
        }
        for i := 1 to |items|
          invariant forall a, b :: 0 <= a < b < i ==> items[a].key < items[b].key
        {
          if items[i - 1].key >= items[i].key {
            return false;
          }
        }
        return next == 0 || next > id;
      case BranchPage(children) =>
        if |children| == 0 || |children| > BRANCH_CAPACITY {
          return false;
        }
        for i := 0 to |children|
          invariant forall a, b :: 0 <= a < b < i ==> children[a].key < children[b].key
          invariant forall a :: 0 <= a < i ==> 0 < children[a].id < id
        {
          if (i > 0 && children[i - 1].key >= children[i].key) || children[i].id == 0 || children[i].id >= id {
            return false;
          }
        }
        return true;
    }
  }

  /** The first position whose key is not below `key`. */
  method LowerBound(keys: seq<int>, key: int) returns (low: nat)
    requires Sorted(keys)
    ensures low <= |keys|
    ensures forall i :: 0 <= i < low ==> keys[i] < key
    ensures forall i :: low <= i < |keys| ==> key <= keys[i]
  {
    low := 0;
    var high := |keys|;
    while low < high
      invariant low <= high <= |keys|
      invariant forall i :: 0 <= i < low ==> keys[i] < key
      invariant forall i :: high <= i < |keys| ==> key <= keys[i]
    {
      var middle := low + (high - low) / 2;
      if keys[middle] < key {
        low := middle + 1;
      } else {
        high := middle;
      }
    }
  }

  /** The last position whose key is not above `key`. */
  method FloorIndex(keys: seq<int>, key: int) returns (r: Option<nat>)
    requires Sorted(keys)
    ensures r.Some? ==> r.value < |keys| && keys[r.value] <= key && forall i :: r.value < i < |keys| ==> key < keys[i]
    ensures r.None? ==> forall i :: 0 <= i < |keys| ==> key < keys[i]
  {
    var index := LowerBound(keys, key);
    if index < |keys| && keys[index] == key {
      return Some(index);
    }
    return if index == 0 then None else Some(index - 1);
  }

  /** Every leaf links to the next one, the last to none. */
  ghost predicate Linked<V>(pages: Pages<V>, leaves: seq<nat>) {
    leaves == [] ||
    (&& leaves[0] != 0 && leaves[0] in pages && pages[leaves[0]].LeafPage?
     && pages[leaves[0]].next == (if |leaves| > 1 then leaves[1] else 0)
     && Linked(pages, leaves[1..]))
  }

  /** An index file with the given tree; no tree means no items. */
  ghost predicate FileOk<V>(pages: Pages<V>, base: nat, tree: Option<Shape>) {
    && (forall id :: id in pages ==> Accepts(pages[id], id))
    && base in pages && pages[base] == Meta(if tree.Some? then tree.value.id else 0)
    && (tree.Some? ==>
          && tree.value.id != 0 && Spells(pages, tree.value)
          && Ascending(Below(pages, tree.value)) && Linked(pages, Leaves(tree.value)))
  }

  ghost function Contents<V>(pages: Pages<V>, tree: Option<Shape>): seq<Item<V>> {
    if tree.Some? then Below(pages, tree.value) else []
  }

  /** Where a descent has arrived: everything left of it is below the key, everything right of it above. */
  ghost predicate Arrived<V>(pages: Pages<V>, root: Shape, left: seq<nat>, here: Shape, right: seq<nat>, key: int) {
    && Leaves(root) == left + Leaves(here) + right
    && Spells(pages, here)
    && (LeafItems(pages, left) == [] || Below(pages, here)[0].key <= key)
    && (LeafItems(pages, right) == [] || LeafItems(pages, right)[0].key > key)
  }

  lemma ArrivedItems<V>(pages: Pages<V>, root: Shape, left: seq<nat>, here: Shape, right: seq<nat>, key: int)
    requires Arrived(pages, root, left, here, right, key)
    ensures Below(pages, root) == LeafItems(pages, left) + Below(pages, here) + LeafItems(pages, right)
  {
    LeafItemsSplit(pages, left + Leaves(here), right);
    LeafItemsSplit(pages, left, Leaves(here));
  }

  lemma KidSpells<V>(pages: Pages<V>, here: Shape, i: nat)
    requires Spells(pages, here) && here.BranchShape? && i < |here.kids|
    ensures Spells(pages, here.kids[i]) && here.kids[i].id < here.id && Below(pages, here.kids[i]) != []
    ensures pages[here.id].BranchPage? && i < |pages[here.id].children|
    ensures pages[here.id].children[i] == Child(Below(pages, here.kids[i])[0].key, here.kids[i].id)
  {
  }

  /** What lies right of the chosen child starts above the key. */
  lemma StepRight<V>(pages: Pages<V>, here: Shape, right: seq<nat>, key: int, i: nat)
    requires Spells(pages, here) && here.BranchShape? && i < |here.kids|
    requires forall j :: i < j < |here.kids| ==> j < |pages[here.id].children| && key < pages[here.id].children[j].key
    requires LeafItems(pages, right) == [] || LeafItems(pages, right)[0].key > key
    ensures var more := LeafItems(pages, AllLeaves(here.kids[i + 1..]) + right);
            more == [] || more[0].key > key
  {
    var rest := here.kids[i + 1..];
    LeafItemsSplit(pages, AllLeaves(rest), right);
    if rest != [] {
      KidSpells(pages, here, i + 1);
      FirstOf(pages, rest);
    }
  }

  /** One step down keeps the arrival. */
  lemma StepDown<V>(pages: Pages<V>, root: Shape, left: seq<nat>, here: Shape, right: seq<nat>, key: int, i: nat)
    requires Arrived(pages, root, left, here, right, key) && here.BranchShape? && i < |here.kids|
    requires i == 0 || pages[here.id].children[i].key <= key
    requires forall j :: i < j < |here.kids| ==> key < pages[here.id].children[j].key
    ensures Arrived(pages, root, left + AllLeaves(here.kids[..i]), here.kids[i],
            AllLeaves(here.kids[i + 1..]) + right, key)
  {
    StepLeaves(pages, root, left, here, right, i);
    KidSpells(pages, here, i);
    StepRight(pages, here, right, key, i);
    if i == 0 {
      assert here.kids[..i] == [] && left + AllLeaves(here.kids[..i]) == left;
      KeptFirst(pages, here);
    }
  }

  lemma StepLeaves<V>(pages: Pages<V>, root: Shape, left: seq<nat>, here: Shape, right: seq<nat>, i: nat)
    requires here.BranchShape? && i < |here.kids| && Leaves(root) == left + Leaves(here) + right
    ensures Leaves(root) == (left + AllLeaves(here.kids[..i])) + Leaves(here.kids[i])
            + (AllLeaves(here.kids[i + 1..]) + right)
  {
    AroundChild(pages, here.kids, i);
    Nested(left, AllLeaves(here.kids[..i]), Leaves(here.kids[i]), AllLeaves(here.kids[i + 1..]), right);
  }

  lemma Nested(a: seq<nat>, b: seq<nat>, c: seq<nat>, d: seq<nat>, e: seq<nat>)
    ensures a + (b + c + d) + e == (a + b) + c + (d + e)
  {
  }

  lemma KeptFirst<V>(pages: Pages<V>, here: Shape)
    requires Spells(pages, here) && here.BranchShape? && here.kids != []
    ensures Below(pages, here.kids[0]) != [] && Below(pages, here)[0] == Below(pages, here.kids[0])[0]
  {
    KidSpells(pages, here, 0);
    FirstOf(pages, here.kids);
  }

  lemma FirstOf<V>(pages: Pages<V>, kids: seq<Shape>)
    requires kids != [] && Below(pages, kids[0]) != []
    ensures LeafItems(pages, AllLeaves(kids)) != [] && LeafItems(pages, AllLeaves(kids))[0] == Below(pages, kids[0])[0]
  {
    LeafItemsSplit(pages, Leaves(kids[0]), AllLeaves(kids[1..]));
  }

  /** descend: to the leaf that holds the key and its predecessor, if anything does. */
  method Descend<V>(pages: Pages<V>, base: nat, key: int, ghost tree: Option<Shape>)
    returns (r: Result<Option<nat>>, ghost left: seq<nat>, ghost right: seq<nat>)
    requires FileOk(pages, base, tree)
    ensures r.Ok? && (r.value.Some? <==> tree.Some?)
    ensures r.value.Some? ==> Arrived(pages, tree.value, left, LeafShape(r.value.value), right, key)
  {
    left, right := [], [];
    if base !in pages || !pages[base].Meta? {
      return Err(Corrupt), left, right;
    }
    var id := pages[base].root;
    ghost var here := if tree.Some? then tree.value else LeafShape(0);
    while id != 0
      invariant id != 0 <==> tree.Some?
      invariant id != 0 ==> id == here.id && Arrived(pages, tree.value, left, here, right, key)
      decreases id
    {
      if id !in pages {
        return Err(Corrupt), left, right;
      }
      match pages[id] {
        case Meta(_) => return Err(Corrupt), left, right;
        case LeafPage(_, _) => return Ok(Some(id)), left, right;
        case BranchPage(children) =>
          assert Accepts(pages[id], id);
          var found := FloorIndex(PageKeys(pages[id]), key);
          var i := if found.Some? then found.value else 0;
          forall j | i < j < |children| ensures key < children[j].key {
            assert PageKeys(pages[id])[j] == children[j].key;
          }
          StepDown(pages, tree.value, left, here, right, key, i);
          left, right := left + AllLeaves(here.kids[..i]), AllLeaves(here.kids[i + 1..]) + right;
          here, id := here.kids[i], children[i].id;
      }
    }
    return Ok(None), left, right;
  }

  /** The leaf a descent arrives at holds every item of its key, and the predecessor of the key. */
  lemma LeafDecides<V>(pages: Pages<V>, root: Shape, left: seq<nat>, leaf: nat, right: seq<nat>, key: int)
    requires Arrived(pages, root, left, LeafShape(leaf), right, key) && Ascending(Below(pages, root))
    ensures leaf in pages && pages[leaf].LeafPage? && Below(pages, LeafShape(leaf)) == pages[leaf].items
    ensures forall i :: 0 <= i < |LeafItems(pages, left)| ==> LeafItems(pages, left)[i].key < key
    ensures forall i :: 0 <= i < |LeafItems(pages, right)| ==> key < LeafItems(pages, right)[i].key
    ensures LeafItems(pages, left) != [] ==> pages[leaf].items[0].key <= key
  {
    ArrivedItems(pages, root, left, LeafShape(leaf), right, key);
    var a, m, b := LeafItems(pages, left), pages[leaf].items, LeafItems(pages, right);
    assert LeafItems(pages, [leaf]) == m + LeafItems(pages, [leaf][1..]) == m;
    assert Below(pages, root) == a + m + b;
    Ordered3(a, m, b);
  }

  lemma Ordered3<V>(a: seq<Item<V>>, m: seq<Item<V>>, b: seq<Item<V>>)
    requires Ascending(a + m + b) && m != []
    ensures Ascending(a) && Ascending(m) && Ascending(b)
    ensures forall i :: 0 <= i < |a| ==> a[i].key < m[0].key
    ensures forall i :: 0 <= i < |b| ==> b != [] && b[0].key <= b[i].key
  {
    var s := a + m + b;
    assert forall i :: 0 <= i < |a| ==> s[i] == a[i];
    assert forall i :: 0 <= i < |m| ==> s[|a| + i] == m[i];
    assert forall i :: 0 <= i < |b| ==> s[|a| + |m| + i] == b[i];
    assert s[|a|] == m[0];
  }

  lemma FilterAround<V>(a: seq<Item<V>>, m: seq<Item<V>>, b: seq<Item<V>>, keep: int -> bool)
    ensures Filter(a + m + b, keep) == Filter(a, keep) + Filter(m, keep) + Filter(b, keep)
  {
    FilterConcat(a + m, b, keep);
    FilterConcat(a, m, keep);
  }

  /** Items split at a position. */
  lemma FilterSplit<V>(items: seq<Item<V>>, at: nat, keep: int -> bool)
    requires at <= |items|
    ensures Filter(items, keep) == Filter(items[..at], keep) + Filter(items[at..], keep)
  {
    var a, b := items[..at], items[at..];
    FilterConcat(a, b, keep);
    assert a + b == items;
  }

  lemma FilterFrom<V>(items: seq<Item<V>>, low: nat, keep: int -> bool)
    requires low <= |items|
    requires forall i :: 0 <= i < low ==> !keep(items[i].key)
    requires forall i :: low <= i < |items| ==> keep(items[i].key)
    ensures Filter(items, keep) == items[low..]
  {
    FilterSplit(items, low, keep);
    FilterAll(items[..low], keep);
    FilterAll(items[low..], keep);
  }

  lemma FilterUpTo<V>(items: seq<Item<V>>, count: nat, keep: int -> bool)
    requires count <= |items|
    requires forall i :: 0 <= i < count ==> keep(items[i].key)
    requires forall i :: count <= i < |items| ==> !keep(items[i].key)
    ensures Filter(items, keep) == items[..count]
  {
    FilterSplit(items, count, keep);
    FilterAll(items[..count], keep);
    FilterAll(items[count..], keep);
  }

  lemma FilterFirst<V>(items: seq<Item<V>>, key: int, same: int -> bool)
    requires Ascending(items) && forall k :: same(k) <==> k == key
    requires forall i :: 0 <= i < |items| ==> key <= items[i].key
    ensures Filter(items, same) == if items != [] && items[0].key == key then [items[0]] else []
  {
    if items != [] {
      FilterAll(items[1..], same);
    }
  }

  lemma FilterOne<V>(items: seq<Item<V>>, low: nat, key: int, same: int -> bool)
    requires Ascending(items) && low <= |items| && forall k :: same(k) <==> k == key
    requires forall i :: 0 <= i < low ==> items[i].key < key
    requires forall i :: low <= i < |items| ==> key <= items[i].key
    ensures Filter(items, same) == if low < |items| && items[low].key == key then [items[low]] else []
  {
    assert items[..low] + items[low..] == items;
    FilterBoth(items[..low], items[low..], key, same);
  }

  lemma FilterBoth<V>(a: seq<Item<V>>, b: seq<Item<V>>, key: int, same: int -> bool)
    requires Ascending(b) && forall k :: same(k) <==> k == key
    requires forall i :: 0 <= i < |a| ==> a[i].key < key
    requires forall i :: 0 <= i < |b| ==> key <= b[i].key
    ensures Filter(a + b, same) == if b != [] && b[0].key == key then [b[0]] else []
  {
    FilterConcat(a, b, same);
    FilterAll(a, same);
    FilterFirst(b, key, same);
  }

  /** lookup_at */
  method LookupAt<V>(pages: Pages<V>, base: nat, key: int, ghost tree: Option<Shape>) returns (r: Result<Option<V>>)
    requires FileOk(pages, base, tree)
    ensures r.Ok? && Filter(Contents(pages, tree), k => k == key) == if r.value.Some? then [Item(key, r.value.value)]
            else []
  {
    var found; ghost var left, right;
    found, left, right := Descend(pages, base, key, tree);
    match found {
      case Err(e) => return Err(e);
      case Ok(None) => return Ok(None);
      case Ok(Some(leaf)) =>
        var value := LookupIn(pages, base, tree, left, leaf, right, key, k => k == key);
        return Ok(value);
    }
  }

  method LookupIn<V>(
    pages: Pages<V>, ghost base: nat, ghost tree: Option<Shape>, ghost left: seq<nat>, leaf: nat,
    ghost right: seq<nat>, key: int, ghost same: int -> bool)
    returns (r: Option<V>)
    requires FileOk(pages, base, tree) && tree.Some? && Arrived(pages, tree.value, left, LeafShape(leaf), right, key)
    requires forall k :: same(k) <==> k == key
    ensures Filter(Contents(pages, tree), same) == if r.Some? then [Item(key, r.value)] else []
  {
    LeafIs(pages, base, tree, left, leaf, right, key);
    var items := pages[leaf].items;
    var index := LowerBound(PageKeys(pages[leaf]), key);
    assert forall i :: 0 <= i < |items| ==> PageKeys(pages[leaf])[i] == items[i].key;
    LookupDecided(pages, tree.value, left, leaf, right, key, index, same);
    return if index < |items| && items[index].key == key then Some(items[index].value) else None;
  }

  /** The page a descent arrives at is an ascending leaf. */
  lemma LeafIs<V>(pages: Pages<V>, base: nat, tree: Option<Shape>, left: seq<nat>, leaf: nat, right: seq<nat>, key: int)
    requires FileOk(pages, base, tree) && tree.Some? && Arrived(pages, tree.value, left, LeafShape(leaf), right, key)
    ensures leaf in pages && pages[leaf].LeafPage? && Ascending(pages[leaf].items) && Sorted(PageKeys(pages[leaf]))
    ensures Ascending(Below(pages, tree.value))
  {
    assert Accepts(pages[leaf], leaf);
  }

  lemma LookupDecided<V>(
    pages: Pages<V>, root: Shape, left: seq<nat>, leaf: nat, right: seq<nat>, key: int, index: nat, same: int -> bool)
    requires Arrived(pages, root, left, LeafShape(leaf), right, key) && Ascending(Below(pages, root))
    requires leaf in pages && pages[leaf].LeafPage? && index <= |pages[leaf].items| && Ascending(pages[leaf].items)
    requires forall i :: 0 <= i < index ==> pages[leaf].items[i].key < key
    requires forall i :: index <= i < |pages[leaf].items| ==> key <= pages[leaf].items[i].key
    requires forall k :: same(k) <==> k == key
    ensures Filter(Below(pages, root), same) ==
              if index < |pages[leaf].items| && pages[leaf].items[index].key == key then [pages[leaf].items[index]]
                  else []
  {
    LeafDecides(pages, root, left, leaf, right, key);
    ArrivedItems(pages, root, left, LeafShape(leaf), right, key);
    FilterAround(LeafItems(pages, left), pages[leaf].items, LeafItems(pages, right), same);
    FilterAll(LeafItems(pages, left), same);
    FilterAll(LeafItems(pages, right), same);
    FilterOne(pages[leaf].items, index, key, same);
  }

  /** floor_at */
  method FloorAt<V>(pages: Pages<V>, base: nat, key: int, ghost tree: Option<Shape>)
    returns (r: Result<Option<Item<V>>>)
    requires FileOk(pages, base, tree)
    ensures r.Ok? && r.value == Last(Filter(Contents(pages, tree), k => k <= key))
  {
    var found; ghost var left, right;
    found, left, right := Descend(pages, base, key, tree);
    match found {
      case Err(e) => return Err(e);
      case Ok(None) => return Ok(None);
      case Ok(Some(leaf)) =>
        var item := FloorIn(pages, base, tree, left, leaf, right, key, k => k <= key);
        return Ok(item);
    }
  }

  method FloorIn<V>(
    pages: Pages<V>, ghost base: nat, ghost tree: Option<Shape>, ghost left: seq<nat>, leaf: nat,
    ghost right: seq<nat>, key: int, ghost below: int -> bool)
    returns (r: Option<Item<V>>)
    requires FileOk(pages, base, tree) && tree.Some? && Arrived(pages, tree.value, left, LeafShape(leaf), right, key)
    requires forall k :: below(k) <==> k <= key
    ensures r == Last(Filter(Contents(pages, tree), below))
  {
    LeafIs(pages, base, tree, left, leaf, right, key);
    var items := pages[leaf].items;
    var index := FloorIndex(PageKeys(pages[leaf]), key);
    assert forall i :: 0 <= i < |items| ==> PageKeys(pages[leaf])[i] == items[i].key;
    FloorDecided(pages, tree.value, left, leaf, right, key, if index.Some? then index.value + 1 else 0, below);
    return if index.Some? then Some(items[index.value]) else None;
  }

  lemma FloorDecided<V>(
    pages: Pages<V>, root: Shape, left: seq<nat>, leaf: nat, right: seq<nat>, key: int, count: nat,
    below: int -> bool)
    requires Arrived(pages, root, left, LeafShape(leaf), right, key) && Ascending(Below(pages, root))
    requires leaf in pages && pages[leaf].LeafPage? && count <= |pages[leaf].items| && Ascending(pages[leaf].items)
    requires forall i :: 0 <= i < count ==> pages[leaf].items[i].key <= key
    requires forall i :: count <= i < |pages[leaf].items| ==> key < pages[leaf].items[i].key
    requires forall k :: below(k) <==> k <= key
    ensures Last(Filter(Below(pages, root), below)) == if count > 0 then Some(pages[leaf].items[count - 1]) else None
  {
    var a, items, b := LeafItems(pages, left), pages[leaf].items, LeafItems(pages, right);
    LeafDecides(pages, root, left, leaf, right, key);
    assert Filter(Below(pages, root), below) == a + items[..count] by {
      ArrivedItems(pages, root, left, LeafShape(leaf), right, key);
      FilterAround(a, items, b, below);
      FilterAll(a, below);
      FilterAll(b, below);
      FilterUpTo(items, count, below);
    }
    if count == 0 {
      assert a == [];
    }
  }
}

/** Range scans along the leaf chain (storage/index.rs: scan_at, IndexCursor). */
module BtreeScans {
  import opened Results
  import opened OrderedTrees
  import opened BtreePages
  import opened BtreeReads

  lemma ScanStarts<V>(
    pages: Pages<V>, root: Shape, left: seq<nat>, leaf: nat, right: seq<nat>, key: int, position: nat,
    keep: int -> bool)
    requires Arrived(pages, root, left, LeafShape(leaf), right, key) && Ascending(Below(pages, root))
    requires leaf in pages && pages[leaf].LeafPage? && position <= |pages[leaf].items|
    requires forall i :: 0 <= i < position ==> pages[leaf].items[i].key < key
    requires forall i :: position <= i < |pages[leaf].items| ==> key <= pages[leaf].items[i].key
    requires forall k :: keep(k) <==> k >= key
    ensures Filter(Below(pages, root), keep) == pages[leaf].items[position..] + LeafItems(pages, right)
  {
    var a, items, b := LeafItems(pages, left), pages[leaf].items, LeafItems(pages, right);
    LeafDecides(pages, root, left, leaf, right, key);
    ArrivedItems(pages, root, left, LeafShape(leaf), right, key);
    FilterSides(a, items, b, position, keep);
  }

  lemma FilterSides<V>(a: seq<Item<V>>, items: seq<Item<V>>, b: seq<Item<V>>, position: nat, keep: int -> bool)
    requires position <= |items|
    requires forall i :: 0 <= i < |a| ==> !keep(a[i].key)
    requires forall i :: 0 <= i < |b| ==> keep(b[i].key)
    requires forall i :: 0 <= i < position ==> !keep(items[i].key)
    requires forall i :: position <= i < |items| ==> keep(items[i].key)
    ensures Filter(a + items + b, keep) == items[position..] + b
  {
    assert Filter(a, keep) == [] by {
      FilterAll(a, keep);
    }
    assert Filter(b, keep) == b by {
      FilterAll(b, keep);
    }
    assert Filter(items, keep) == items[position..] by {
      FilterFrom(items, position, keep);
    }
    FilterParts(a, items, b, keep, items[position..], b);
  }

  lemma FilterParts<V>(
    a: seq<Item<V>>, m: seq<Item<V>>, b: seq<Item<V>>, keep: int -> bool, middle: seq<Item<V>>, last: seq<Item<V>>)
    requires Filter(a, keep) == [] && Filter(m, keep) == middle && Filter(b, keep) == last
    ensures Filter(a + m + b, keep) == middle + last
  {
    FilterAround(a, m, b, keep);
    assert [] + middle == middle;
  }

  lemma {:induction false} LinkedSuffix<V>(pages: Pages<V>, left: seq<nat>, right: seq<nat>)
    requires Linked(pages, left + right)
    ensures Linked(pages, right)
  {
    if left == [] {
      assert left + right == right;
    } else {
      assert (left + right)[1..] == left[1..] + right;
      LinkedSuffix(pages, left[1..], right);
    }
  }

  datatype Place = Place(leaf: nat, at: nat)

  /** scan_at: the leaf and the position in it from which to read. */
  method Position<V>(pages: Pages<V>, base: nat, lower: int, ghost tree: Option<Shape>)
    returns (r: Result<Option<Place>>, ghost right: seq<nat>)
    requires FileOk(pages, base, tree)
    ensures r.Ok? && (r.value.Some? <==> tree.Some?)
    ensures r.value.Some? ==>
              && Linked(pages, [r.value.value.leaf] + right) && r.value.value.leaf in pages
                 && pages[r.value.value.leaf].LeafPage?
              && r.value.value.at <= |pages[r.value.value.leaf].items|
              && Filter(Contents(pages, tree), k => k >= lower) == pages[r.value.value.leaf].items[r.value.value.at..]
                 + LeafItems(pages, right)
  {
    var found; ghost var left;
    found, left, right := Descend(pages, base, lower, tree);
    match found {
      case Err(e) => return Err(e), right;
      case Ok(None) => return Ok(None), right;
      case Ok(Some(id)) =>
        assert Leaves(tree.value) == left + ([id] + right);
        LinkedSuffix(pages, left, [id] + right);
        var at := PositionIn(pages, base, tree, left, id, right, lower, k => k >= lower);
        return Ok(Some(Place(id, at))), right;
    }
  }

  method PositionIn<V>(
    pages: Pages<V>, ghost base: nat, ghost tree: Option<Shape>, ghost left: seq<nat>, id: nat, ghost right: seq<nat>,
    lower: int, ghost keep: int -> bool)
    returns (at: nat)
    requires FileOk(pages, base, tree) && tree.Some? && Arrived(pages, tree.value, left, LeafShape(id), right, lower)
    requires forall k :: keep(k) <==> k >= lower
    ensures id in pages && pages[id].LeafPage? && at <= |pages[id].items|
    ensures Filter(Contents(pages, tree), keep) == pages[id].items[at..] + LeafItems(pages, right)
  {
    LeafIs(pages, base, tree, left, id, right, lower);
    at := LowerBound(PageKeys(pages[id]), lower);
    assert forall i :: 0 <= i < |pages[id].items| ==> PageKeys(pages[id])[i] == pages[id].items[i].key;
    ScanStarts(pages, tree.value, left, id, right, lower, at, keep);
  }

  class IndexCursor<V(0)> {
    const pages: Pages<V>
    const upper: int
    var leaf: Option<nat>
    var position: nat
    var failed: bool
    ghost var rest: seq<nat>

    ghost predicate Valid()
      reads this
    {
      !failed && (leaf.Some? ==>
          Linked(pages, [leaf.value] + rest) && leaf.value in pages
          && pages[leaf.value].LeafPage? && position <= |pages[leaf.value].items|)
    }

    /** What the cursor has still to read, ignoring the upper bound. */
    ghost function Remaining(): seq<Item<V>>
      reads this
      requires Valid()
    {
      if leaf.None? then [] else pages[leaf.value].items[position..] + LeafItems(pages, rest)
    }

    constructor (pages: Pages<V>, base: nat, lower: int, upper: int, ghost tree: Option<Shape>)
      requires FileOk(pages, base, tree)
      ensures Valid() && this.pages == pages && this.upper == upper
      ensures Remaining() == Filter(Contents(pages, tree), k => k >= lower)
    {
      this.pages, this.upper := pages, upper;
      leaf, position, failed, rest := None, 0, false, [];
      new;
      var found; ghost var right;
      found, right := Position(pages, base, lower, tree);
      failed := found.Err?;
      if found.Ok? && found.value.Some? {
        leaf, position, rest := Some(found.value.value.leaf), found.value.value.at, right;
      }
    }

    /** Moves past a leaf that is read to its end; false when the chain is broken. */
    method NextLeaf() returns (ok: bool)
      requires Valid() && leaf.Some? && position == |pages[leaf.value].items|
      modifies this
      ensures ok && Valid() && Remaining() == old(Remaining())
      ensures if leaf.Some? then |rest| < |old(rest)| else rest == old(rest)
    {
      ghost var chain := [leaf.value] + rest;
      assert chain[1..] == rest && Linked(pages, rest);
      assert pages[leaf.value].items[position..] == [];
      var next := pages[leaf.value].next;
      if next == 0 {
        assert rest == [];
        leaf := None;
        return true;
      }
      assert rest != [] && next == rest[0];
      failed := next !in pages || !pages[next].LeafPage?;
      if failed {
        return false;
      }
      assert rest == [next] + rest[1..];
      leaf, position, rest := Some(next), 0, rest[1..];
      return true;
    }

    /** The next item in range; an item past the upper bound ends the scan. */
    method Next() returns (r: Option<Result<Item<V>>>)
      requires Valid()
      modifies this
      ensures Valid()
      ensures old(Remaining()) == [] || old(Remaining())[0].key > upper ==> r == None && Remaining() == []
      ensures old(Remaining()) != [] && old(Remaining())[0].key <= upper ==>
                r == Some(Ok(old(Remaining())[0])) && Remaining() == old(Remaining())[1..]
    {
      if failed {
        return None;
      }
      while leaf.Some? && position == |pages[leaf.value].items|
        invariant Valid() && Remaining() == old(Remaining())
        decreases |rest|, leaf.Some?
      {
        var ok := NextLeaf();
        if !ok {
          return Some(Err(Corrupt));
        }
      }
      if leaf.None? {
        return None;
      }
      var items := pages[leaf.value].items;
      if items[position].key > upper {
        leaf := None;
        return None;
      }
      position := position + 1;
      return Some(Ok(items[position - 1]));
    }
  }

  lemma RangeEnds<V>(s: seq<Item<V>>, upper: int, below: int -> bool)
    requires Ascending(s) && forall k :: below(k) <==> k <= upper
    ensures s == [] || s[0].key > upper ==> Filter(s, below) == []
    ensures s != [] && s[0].key <= upper ==> Filter(s, below) == [s[0]] + Filter(s[1..], below)
    ensures s != [] ==> Ascending(s[1..])
  {
    if s != [] && s[0].key > upper {
      FilterAll(s, below);
    }
  }

  /** Reads a cursor to its end. */
  method Drain<V(0)>(cursor: IndexCursor<V>) returns (r: seq<Item<V>>)
    requires cursor.Valid() && Ascending(cursor.Remaining())
    modifies cursor
    ensures r == Filter(old(cursor.Remaining()), k => k <= cursor.upper)
  {
    ghost var below := (k: int) => k <= cursor.upper;
    ghost var wanted := Filter(cursor.Remaining(), below);
    RangeEnds(cursor.Remaining(), cursor.upper, below);
    r := [];
    var next := cursor.Next();
    while next.Some? && next.value.Ok?
      invariant cursor.Valid() && Ascending(cursor.Remaining())
      invariant next.Some? ==> next.value.Ok? && r + ([next.value.value] + Filter(cursor.Remaining(), below)) == wanted
      invariant next.None? ==> r == wanted
      decreases |cursor.Remaining()|, if next.Some? then 1 else 0
    {
      ghost var left := cursor.Remaining();
      RangeEnds(left, cursor.upper, below);
      Shifted(r, next.value.value, Filter(left, below));
      r := r + [next.value.value];
      next := cursor.Next();
    }
  }

  lemma Shifted<X>(a: seq<X>, x: X, b: seq<X>)
    ensures a + ([x] + b) == (a + [x]) + b
    ensures b == [] ==> a + ([x] + b) == a + [x]
  {
  }

  /** A drained scan yields exactly the items between its bounds, in order. */
  method Scan<V(0)>(pages: Pages<V>, base: nat, lower: int, upper: int, ghost tree: Option<Shape>)
    returns (r: seq<Item<V>>)
    requires FileOk(pages, base, tree)
    ensures r == Filter(Filter(Contents(pages, tree), k => k >= lower), k => k <= upper)
  {
    var cursor := new IndexCursor(pages, base, lower, upper, tree);
    FilterOrder(Contents(pages, tree), k => k >= lower);
    r := Drain(cursor);
  }
}

/** Building an index file (storage/index.rs, IndexWriter). */
module BtreeWrites {
  import opened Results
  import opened OrderedTrees
  import opened BtreePages
  import opened BtreeReads

  /** Pages are only added. */
  ghost predicate Extends<V>(pages: Pages<V>, more: Pages<V>) {
    forall id :: id in pages ==> id in more && more[id] == pages[id]
  }

  lemma {:induction false} LeavesIn<V>(pages: Pages<V>, shape: Shape)
    requires Spells(pages, shape)
    ensures forall id :: id in Leaves(shape) ==> id in pages && pages[id].LeafPage?
    decreases shape, 0
  {
    if shape.BranchShape? {
      AllLeavesIn(pages, shape.kids);
    }
  }

  lemma {:induction false} AllLeavesIn<V>(pages: Pages<V>, shapes: seq<Shape>)
    requires forall i :: 0 <= i < |shapes| ==> Spells(pages, shapes[i])
    ensures forall id :: id in AllLeaves(shapes) ==> id in pages && pages[id].LeafPage?
    decreases shapes, 1
  {
    if shapes != [] {
      LeavesIn(pages, shapes[0]);
      AllLeavesIn(pages, shapes[1..]);
    }
  }

  lemma {:induction false} StillSpells<V>(pages: Pages<V>, more: Pages<V>, shape: Shape)
    requires Spells(pages, shape) && Extends(pages, more)
    ensures Spells(more, shape) && Below(more, shape) == Below(pages, shape)
    decreases shape
  {
    LeavesIn(pages, shape);
    StillItems(pages, more, Leaves(shape));
    if shape.BranchShape? {
      forall i | 0 <= i < |shape.kids| ensures Spells(more, shape.kids[i])
          && Below(more, shape.kids[i]) == Below(pages, shape.kids[i]) {
        StillSpells(pages, more, shape.kids[i]);
      }
    }
  }

  /** One level of the tree: the trees so far and the entries that point at them. */
  ghost predicate LevelOk<V>(pages: Pages<V>, shapes: seq<Shape>, level: seq<Child>, next: nat) {
    && |shapes| == |level|
    && forall i :: 0 <= i < |shapes| ==> EntryOk(pages, shapes[i], level[i], next)
  }

  ghost predicate EntryOk<V>(pages: Pages<V>, shape: Shape, entry: Child, next: nat) {
    Spells(pages, shape) && 0 < shape.id < next && entry == Child(Below(pages, shape)[0].key, shape.id)
  }

  lemma LevelStays<V>(pages: Pages<V>, more: Pages<V>, shapes: seq<Shape>, level: seq<Child>, next: nat, later: nat)
    requires LevelOk(pages, shapes, level, next) && Extends(pages, more) && next <= later
    ensures LevelOk(more, shapes, level, later)
    ensures LeafItems(more, AllLeaves(shapes)) == LeafItems(pages, AllLeaves(shapes))
  {
    forall i | 0 <= i < |shapes| ensures EntryOk(more, shapes[i], level[i], later) {
      assert EntryOk(pages, shapes[i], level[i], next);
      StillSpells(pages, more, shapes[i]);
    }
    assert forall i :: 0 <= i < |shapes| ==> EntryOk(pages, shapes[i], level[i], next);
    AllLeavesIn(pages, shapes);
    StillItems(pages, more, AllLeaves(shapes));
  }

  /** Separators rise, because each is the first key below its tree. */
  lemma {:induction false} LevelRises<V>(pages: Pages<V>, shapes: seq<Shape>, level: seq<Child>, next: nat)
    requires LevelOk(pages, shapes, level, next) && Ascending(LeafItems(pages, AllLeaves(shapes)))
    ensures Rising(level)
  {
    if |shapes| > 1 {
      var rest := LeafItems(pages, AllLeaves(shapes[1..]));
      LeafItemsSplit(pages, Leaves(shapes[0]), AllLeaves(shapes[1..]));
      assert EntryOk(pages, shapes[0], level[0], next) && EntryOk(pages, shapes[1], level[1], next);
      FirstOf(pages, shapes[1..]);
      FirstBelow(Below(pages, shapes[0]), rest);
      forall i | 0 <= i < |shapes[1..]| ensures EntryOk(pages, shapes[1..][i], level[1..][i], next) {
        assert EntryOk(pages, shapes[i + 1], level[i + 1], next);
      }
      LevelRises(pages, shapes[1..], level[1..], next);
      forall i, j | 0 <= i < j < |level| ensures level[i].key < level[j].key {
        if i == 0 {
          assert j == 1 || level[1..][0].key < level[1..][j - 1].key;
        } else {
          assert level[1..][i - 1].key < level[1..][j - 1].key;
        }
      }
    }
  }

  lemma FirstBelow<V>(a: seq<Item<V>>, b: seq<Item<V>>)
    requires Ascending(a + b) && a != [] && b != []
    ensures a[0].key < b[0].key && Ascending(b)
  {
    assert (a + b)[|a|] == b[0] && (a + b)[0] == a[0];
    forall i, j | 0 <= i < j < |b| ensures b[i].key < b[j].key {
      assert (a + b)[|a| + i] == b[i] && (a + b)[|a| + j] == b[j];
    }
  }

  /** The leaf chain built so far ends in a link to `end`. */
  ghost predicate LinkedTo<V>(pages: Pages<V>, leaves: seq<nat>, end: nat) {
    leaves == [] ||
    (&& leaves[0] != 0 && leaves[0] in pages && pages[leaves[0]].LeafPage?
     && pages[leaves[0]].next == (if |leaves| > 1 then leaves[1] else end)
     && LinkedTo(pages, leaves[1..], end))
  }

  lemma {:induction false} LinkedAppend<V>(pages: Pages<V>, more: Pages<V>, leaves: seq<nat>, id: nat, end: nat)
    requires LinkedTo(pages, leaves, id) && Extends(pages, more)
    requires id != 0 && id in more && more[id].LeafPage? && more[id].next == end
    ensures LinkedTo(more, leaves + [id], end)
  {
    if leaves != [] {
      assert (leaves + [id])[1..] == leaves[1..] + [id];
      LinkedAppend(pages, more, leaves[1..], id, end);
    } else {
      assert (leaves + [id])[1..] == [];
    }
  }

  lemma {:induction false} LinkedFinally<V>(pages: Pages<V>, more: Pages<V>, leaves: seq<nat>)
    requires LinkedTo(pages, leaves, 0) && Extends(pages, more)
    ensures Linked(more, leaves)
  {
    if leaves != [] {
      LinkedFinally(pages, more, leaves[1..]);
    }
  }

  ghost predicate AllAccept<V>(pages: Pages<V>) {
    forall id :: id in pages ==> Accepts(pages[id], id)
  }

  /** Pages are numbered consecutively above the base. */
  ghost predicate Numbered<V>(pages: Pages<V>, base: nat, next: nat) {
    forall id :: id in pages ==> base < id < next
  }

  class IndexWriter<V(0)> {
    const base: nat
    var pages: Pages<V>
    var next: nat
    var leaf: seq<Item<V>>
    var level: seq<Child>
    var previous: Option<int>
    ghost var shapes: seq<Shape>

    ghost function Written(): seq<Item<V>>
      reads this
    {
      LeafItems(pages, AllLeaves(shapes)) + leaf
    }

    ghost predicate Valid()
      reads this
    {
      && base < next && AllAccept(pages) && Numbered(pages, base, next)
      && LevelOk(pages, shapes, level, next) && LinkedTo(pages, AllLeaves(shapes), next)
      && Ascending(Written()) && |leaf| <= LEAF_CAPACITY && (shapes != [] ==> leaf != [])
      && previous == (if leaf == [] then None else Some(leaf[|leaf| - 1].key))
    }

    constructor (base: nat)
      ensures Valid() && Written() == [] && this.base == base
    {
      this.base, next := base, base + 1;
      pages, leaf, level, previous, shapes := map[], [], [], None, [];
    }

    /** Writes the open leaf with its link. */
    method FlushLeaf(link: nat)
      requires base < next && AllAccept(pages) && Numbered(pages, base, next)
      requires LevelOk(pages, shapes, level, next) && LinkedTo(pages, AllLeaves(shapes), next)
      requires leaf != [] && |leaf| <= LEAF_CAPACITY && Ascending(leaf) && (link == 0 || link == next + 1)
      modifies this`pages, this`next, this`leaf, this`level, this`shapes
      ensures next == old(next) + 1 && leaf == [] && AllAccept(pages) && Numbered(pages, base, next)
      ensures LevelOk(pages, shapes, level, next) && LinkedTo(pages, AllLeaves(shapes), link) && shapes != []
      ensures LeafItems(pages, AllLeaves(shapes)) == old(Written())
    {
      ghost var before := pages;
      var page := LeafPage(leaf, link);
      pages := pages[next := page];
      LevelStays(before, pages, shapes, level, next, next + 1);
      LinkedAppend(before, pages, AllLeaves(shapes), next, link);
      ghost var added := LeafShape(next);
      AllLeavesSplit(shapes, [added]);
      assert AllLeaves([added]) == [next];
      assert LeafItems(pages, [next]) == leaf + LeafItems(pages, [next][1..]) == leaf;
      LeafItemsSplit(pages, AllLeaves(shapes), [next]);
      assert EntryOk(pages, added, Child(leaf[0].key, next), next + 1);
      shapes := shapes + [added];
      level := level + [Child(leaf[0].key, next)];
      next, leaf := next + 1, [];
    }

    /** Fails exactly when the key does not come after the one before. */
    method Append(key: int, value: V) returns (ok: bool)
      requires Valid()
      modifies this
      ensures Valid()
      ensures ok <==> old(Written()) == [] || old(Written())[|old(Written())| - 1].key < key
      ensures Written() == old(Written()) + if ok then [Item(key, value)] else []
    {
      if previous.Some? && previous.value >= key {
        return false;
      }
      ghost var written := Written();
      LeafAscends(LeafItems(pages, AllLeaves(shapes)), leaf);
      AscendsOn(written, Item(key, value));
      if |leaf| == LEAF_CAPACITY {
        FlushLeaf(next + 1);
      }
      Push(key, value);
      return true;
    }

    /** The open leaf takes one more item. */
    method Push(key: int, value: V)
      requires base < next && AllAccept(pages) && Numbered(pages, base, next)
      requires LevelOk(pages, shapes, level, next) && LinkedTo(pages, AllLeaves(shapes), next)
      requires |leaf| < LEAF_CAPACITY && Ascending(Written() + [Item(key, value)])
      modifies this`leaf, this`previous
      ensures Valid() && Written() == old(Written()) + [Item(key, value)]
    {
      OneMoreItem(LeafItems(pages, AllLeaves(shapes)), leaf, Item(key, value));
      leaf := leaf + [Item(key, value)];
      previous := Some(key);
    }

    /** What holds between the levels: the trees hold all items, and the leaf chain is closed. */
    ghost predicate Stacked(items: seq<Item<V>>)
      reads this
    {
      && base < next && AllAccept(pages) && Numbered(pages, base, next)
      && LevelOk(pages, shapes, level, next)
      && LeafItems(pages, AllLeaves(shapes)) == items && Ascending(items)
      && LinkedTo(pages, AllLeaves(shapes), 0)
    }

    /** One branch page over a run of the level below. */
    method WriteBranch(children: seq<Child>, ghost kids: seq<Shape>) returns (ghost above: Shape)
      requires base < next && AllAccept(pages) && Numbered(pages, base, next)
      requires LevelOk(pages, kids, children, next) && 0 < |children| <= BRANCH_CAPACITY && Rising(children)
      modifies this`pages, this`next
      ensures next == old(next) + 1 && AllAccept(pages) && Numbered(pages, base, next) && Extends(old(pages), pages)
      ensures above == BranchShape(old(next), kids) && EntryOk(pages, above, Child(children[0].key, old(next)), next)
    {
      ghost var before := pages;
      above := BranchShape(next, kids);
      forall i | 0 <= i < |children| ensures 0 < children[i].id < next {
        assert EntryOk(before, kids[i], children[i], next);
      }
      pages := pages[next := BranchPage(children)];
      LevelStays(before, pages, kids, children, next, next + 1);
      assert forall i :: 0 <= i < |kids| ==>
          EntryOk(pages, kids[i], children[i], next + 1)
          && EntryOk(before, kids[i], children[i], next);
      FirstOf(pages, kids);
      next := next + 1;
    }

    /** The branch over one run of the level; what was written before still stands. */
    method WriteRun(at: nat, end: nat, ghost parents: seq<Child>, ghost above: seq<Shape>) returns (ghost added: Shape)
      requires base < next && AllAccept(pages) && Numbered(pages, base, next) && Rising(level)
      requires at < end <= |level| && end - at <= BRANCH_CAPACITY
      requires LevelOk(pages, shapes, level, next) && LevelOk(pages, above, parents, next)
      modifies this`pages, this`next
      ensures next == old(next) + 1 && AllAccept(pages) && Numbered(pages, base, next) && Extends(old(pages), pages)
      ensures LevelOk(pages, shapes, level, next) && added.BranchShape? && added.kids == shapes[at..end]
      ensures LevelOk(pages, above + [added], parents + [Child(level[at].key, next - 1)], next)
    {
      ghost var before, id := pages, next;
      RunOk(pages, shapes, level, next, at, end);
      added := WriteBranch(level[at..end], shapes[at..end]);
      LevelStays(before, pages, shapes, level, id, next);
      LevelStays(before, pages, above, parents, id, next);
    }

    /** One level of branches over the current one. */
    method BuildLevel(ghost items: seq<Item<V>>)
      requires Stacked(items) && |level| > 1
      modifies this`pages, this`next, this`level, this`shapes
      ensures Stacked(items) && 0 < |level| < old(|level|)
    {
      var parents: seq<Child> := [];
      ghost var above: seq<Shape> := [];
      LevelRises(pages, shapes, level, next);
      var at := 0;
      assert shapes[..0] == [];
      while at < |level|
        invariant at <= |level| && level == old(level) && shapes == old(shapes) && Rising(level)
        invariant if at == 0 then |parents| == 0 else 0 < |parents| < at
        invariant base < old(next) <= next && AllAccept(pages) && Numbered(pages, base, next)
        invariant Extends(old(pages), pages)
        invariant LevelOk(pages, shapes, level, next) && LevelOk(pages, above, parents, next)
        invariant AllLeaves(above) == AllLeaves(shapes[..at])
      {
        var end := if at + BRANCH_CAPACITY < |level| then at + BRANCH_CAPACITY else |level|;
        ghost var added := WriteRun(at, end, parents, above);
        ParentAdded(shapes, above, added, at, end);
        parents := parents + [Child(level[at].key, next - 1)];
        above := above + [added];
        at := end;
      }
      assert shapes[..at] == shapes;
      LevelStays(old(pages), pages, shapes, level, old(next), next);
      LinkedStays(old(pages), pages, AllLeaves(shapes), 0);
      level, shapes := parents, above;
    }

    /** finish_part: closes the last leaf, builds the levels, and writes the metadata page. */
    method FinishPart() returns (ghost tree: Option<Shape>)
      requires Valid()
      modifies this
      ensures FileOk(pages, base, tree) && Contents(pages, tree) == old(Written())
      ensures base < next && forall id :: id in pages ==> base <= id < next
    {
      ghost var items := Written();
      if leaf != [] {
        LeafAscends(LeafItems(pages, AllLeaves(shapes)), leaf);
        FlushLeaf(0);
      }
      while |level| > 1
        invariant Stacked(items)
        decreases |level|
      {
        BuildLevel(items);
      }
      tree := if |level| == 0 then None else Some(shapes[0]);
      ghost var before := pages;
      pages := pages[base := Meta(if |level| == 0 then 0 else level[0].id)];
      if |level| == 1 {
        assert EntryOk(before, shapes[0], level[0], next);
        assert AllLeaves(shapes) == Leaves(shapes[0]) + AllLeaves(shapes[1..]) == Leaves(shapes[0]);
        StillSpells(before, pages, shapes[0]);
        LinkedFinally(before, pages, Leaves(shapes[0]));
      }
    }
  }

  lemma OneMoreItem<V>(a: seq<Item<V>>, b: seq<Item<V>>, item: Item<V>)
    ensures a + (b + [item]) == (a + b) + [item]
  {
  }

  lemma AscendsOn<V>(items: seq<Item<V>>, item: Item<V>)
    requires Ascending(items) && (items != [] ==> items[|items| - 1].key < item.key)
    ensures Ascending(items + [item])
  {
  }

  lemma LeafAscends<V>(a: seq<Item<V>>, b: seq<Item<V>>)
    requires Ascending(a + b)
    ensures Ascending(b)
  {
    forall i, j | 0 <= i < j < |b| ensures b[i].key < b[j].key {
      assert (a + b)[|a| + i] == b[i] && (a + b)[|a| + j] == b[j];
    }
  }

  lemma ParentAdded(shapes: seq<Shape>, above: seq<Shape>, added: Shape, at: nat, end: nat)
    requires at <= end <= |shapes| && AllLeaves(above) == AllLeaves(shapes[..at])
    requires added.BranchShape? && added.kids == shapes[at..end]
    ensures AllLeaves(above + [added]) == AllLeaves(shapes[..end])
  {
    AllLeavesSplit(above, [added]);
    AllLeavesSplit(shapes[..at], shapes[at..end]);
    assert AllLeaves([added]) == AllLeaves(added.kids) + AllLeaves([added][1..]) == AllLeaves(added.kids);
    assert shapes[..at] + shapes[at..end] == shapes[..end];
  }

  lemma RunOk<V>(pages: Pages<V>, shapes: seq<Shape>, level: seq<Child>, next: nat, at: nat, end: nat)
    requires LevelOk(pages, shapes, level, next) && Rising(level) && at <= end <= |level|
    ensures LevelOk(pages, shapes[at..end], level[at..end], next) && Rising(level[at..end])
  {
    forall i | 0 <= i < end - at ensures EntryOk(pages, shapes[at..end][i], level[at..end][i], next) {
      assert EntryOk(pages, shapes[at + i], level[at + i], next);
    }
  }

  lemma {:induction false} LinkedStays<V>(pages: Pages<V>, more: Pages<V>, leaves: seq<nat>, end: nat)
    requires LinkedTo(pages, leaves, end) && Extends(pages, more)
    ensures LinkedTo(more, leaves, end)
  {
    if leaves != [] {
      LinkedStays(pages, more, leaves[1..], end);
    }
  }
}

/**
 Several trees in one index file (partitions.rs, Indexes): each partition's tree is written after the
 pages of the ones before it, under a metadata page of its own.
 */
module BtreeFiles {
  import opened Results
  import opened OrderedTrees
  import opened BtreePages
  import opened BtreeReads
  import opened BtreeWrites

  lemma {:induction false} StillLinked<V>(pages: Pages<V>, more: Pages<V>, leaves: seq<nat>)
    requires Linked(pages, leaves) && Extends(pages, more)
    ensures Linked(more, leaves)
  {
    if leaves != [] {
      StillLinked(pages, more, leaves[1..]);
    }
  }

  /** A finished tree reads the same whatever pages are added to its file. */
  lemma FileStays<V>(pages: Pages<V>, more: Pages<V>, base: nat, tree: Option<Shape>)
    requires FileOk(pages, base, tree) && Extends(pages, more) && AllAccept(more)
    ensures FileOk(more, base, tree) && Contents(more, tree) == Contents(pages, tree)
  {
    if tree.Some? {
      StillSpells(pages, more, tree.value);
      StillLinked(pages, more, Leaves(tree.value));
    }
  }

  /** The tree with this metadata page is in the file, and these are its items. */
  ghost predicate HasPart<V>(pages: Pages<V>, base: nat, tree: Option<Shape>, items: seq<Item<V>>) {
    forall same: Pages<V> :: same == pages ==> FileOk(same, base, tree) && Contents(same, tree) == items
  }

  lemma PartStays<V>(pages: Pages<V>, more: Pages<V>, base: nat, tree: Option<Shape>, items: seq<Item<V>>)
    requires HasPart(pages, base, tree, items) && Extends(pages, more) && AllAccept(more)
    ensures HasPart(more, base, tree, items)
  {
    assert FileOk(pages, base, tree) && Contents(pages, tree) == items;
    FileStays(pages, more, base, tree);
  }

  /** Two sets of pages with different numbers. */
  lemma Together<V>(pages: Pages<V>, added: Pages<V>)
    requires pages.Keys !! added.Keys && AllAccept(pages) && AllAccept(added)
    ensures Extends(pages, pages + added) && Extends(added, pages + added) && AllAccept(pages + added)
  {
  }

  datatype Part<V> = Part(tree: Option<Shape>, items: seq<Item<V>>)

  class IndexFile<V(0)> {
    var pages: Pages<V>
    var next: nat
    ghost var parts: map<nat, Part<V>>

    /** Every part written so far reads as what was put into it. */
    ghost predicate Valid()
      reads this
    {
      && AllAccept(pages) && (forall id :: id in pages ==> id < next)
      && (forall base :: base in parts ==> base < next && HasPart(pages, base, parts[base].tree, parts[base].items))
    }

    constructor ()
      ensures Valid() && parts == map[] && pages == map[]
    {
      pages, next, parts := map[], 0, map[];
    }

    /** A partition's tree goes after everything already in the file. */
    method AddPart(items: seq<Item<V>>) returns (base: nat, ghost tree: Option<Shape>)
      requires Valid() && Ascending(items)
      modifies this
      ensures Valid() && base !in old(parts) && parts == old(parts)[base := Part(tree, items)]
      ensures FileOk(pages, base, tree) && Contents(pages, tree) == items
      ensures Extends(old(pages), pages)
    {
      base := next;
      var writer := new IndexWriter<V>(base);
      AppendAll(writer, items);
      tree := writer.FinishPart();
      Together(pages, writer.pages);
      ghost var before, part := pages, Part(tree, items);
      pages, next := pages + writer.pages, writer.next;
      assert HasPart(writer.pages, base, tree, items);
      PartStays(writer.pages, pages, base, tree, items);
      forall other | other in parts ensures HasPart(pages, other, parts[other].tree, parts[other].items) {
        PartStays(before, pages, other, parts[other].tree, parts[other].items);
      }
      parts := parts[base := part];
      assert FileOk(pages, base, tree);
    }

    /** Reading any part, at any time after it was written. */
    method Lookup(base: nat, key: int) returns (r: Result<Option<Item<V>>>)
      requires Valid() && base in parts
      ensures r.Ok? && Filter(parts[base].items, k => k == key)
                       == if r.value.Some? then [r.value.value] else []
    {
      assert FileOk(pages, base, parts[base].tree) && Contents(pages, parts[base].tree) == parts[base].items;
      var found := LookupAt(pages, base, key, parts[base].tree);
      return Ok(if found.value.Some? then Some(Item(key, found.value.value)) else None);
    }
  }

  method AppendAll<V(0)>(writer: IndexWriter<V>, items: seq<Item<V>>)
    requires writer.Valid() && writer.Written() == [] && Ascending(items)
    modifies writer
    ensures writer.Valid() && writer.Written() == items
  {
    assert items[..0] == [];
    for i := 0 to |items|
      invariant writer.Valid() && writer.Written() == items[..i]
    {
      assert items[..i + 1] == items[..i] + [items[i]];
      var ok := writer.Append(items[i].key, items[i].value);
    }
    assert items[..|items|] == items;
  }
}
