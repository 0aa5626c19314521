/**
 The persistent balanced map behind every committed view (ordered_map.rs).

 A tree is read through the sequence of its entries in key order.  Updates build new trees from the
 nodes of old ones; the lemmas say what an update does to that sequence, and that exact heights and
 balance survive joins of trees whose heights differ by any amount.
 */
module OrderedTrees {
  import opened Results

  datatype Item<V> = Item(key: int, value: V)

  datatype Tree<V> = Leaf | Node(key: int, value: V, left: Tree<V>, right: Tree<V>, height: nat)

  function Last<X>(s: seq<X>): Option<X> {
    if s == [] then None else Some(s[|s| - 1])
  }

  function Height<V>(t: Tree<V>): nat {
    if t.Leaf? then 0 else t.height
  }

  function Max(a: nat, b: nat): nat {
    if a < b then b else a
  }

  function NewNode<V>(key: int, value: V, left: Tree<V>, right: Tree<V>): Tree<V> {
    Node(key, value, left, right, 1 + Max(Height(left), Height(right)))
  }

  function Items<V>(t: Tree<V>): seq<Item<V>> {
    if t.Leaf? then [] else Items(t.left) + [Item(t.key, t.value)] + Items(t.right)
  }

  /** Every stored height is exact and siblings differ by at most one. */
  ghost predicate Balanced<V>(t: Tree<V>) {
    t.Node? ==>
      && Balanced(t.left) && Balanced(t.right)
      && t.height == 1 + Max(Height(t.left), Height(t.right))
      && Height(t.left) <= Height(t.right) + 1 && Height(t.right) <= Height(t.left) + 1
  }

  ghost predicate Ascending<V>(s: seq<Item<V>>) {
    forall i, j :: 0 <= i < j < |s| ==> s[i].key < s[j].key
  }

  // ----- rotations and balance -----

  function RotateLeft<V>(t: Tree<V>): Tree<V>
    requires t.Node? && t.right.Node?
  {
    NewNode(t.right.key, t.right.value, NewNode(t.key, t.value, t.left, t.right.left), t.right.right)
  }

  function RotateRight<V>(t: Tree<V>): Tree<V>
    requires t.Node? && t.left.Node?
  {
    NewNode(t.left.key, t.left.value, t.left.left, NewNode(t.key, t.value, t.left.right, t.right))
  }

  function Balance<V>(t: Tree<V>): Tree<V>
    requires t.Node?
  {
    if Height(t.left) > Height(t.right) + 1 then
      RotateRight(if Height(t.left.right) > Height(t.left.left)
          then NewNode(t.key, t.value, RotateLeft(t.left), t.right) else t)
    else if Height(t.right) > Height(t.left) + 1 then
      RotateLeft(if Height(t.right.left) > Height(t.right.right)
          then NewNode(t.key, t.value, t.left, RotateRight(t.right)) else t)
    else t
  }

  lemma Regrouped<X>(a: seq<X>, x: seq<X>, b: seq<X>, y: seq<X>, c: seq<X>)
    ensures (a + x + b) + y + c == a + x + (b + y + c)
  {
  }

  lemma RotateLeftItems<V>(t: Tree<V>)
    requires t.Node? && t.right.Node?
    ensures Items(RotateLeft(t)) == Items(t)
  {
    var inner := NewNode(t.key, t.value, t.left, t.right.left);
    assert Items(inner) == Items(t.left) + [Item(t.key, t.value)] + Items(t.right.left);
    Regrouped(Items(t.left), [Item(t.key, t.value)], Items(t.right.left), [Item(t.right.key, t.right.value)],
        Items(t.right.right));
  }

  lemma RotateRightItems<V>(t: Tree<V>)
    requires t.Node? && t.left.Node?
    ensures Items(RotateRight(t)) == Items(t)
  {
    var inner := NewNode(t.key, t.value, t.left.right, t.right);
    assert Items(inner) == Items(t.left.right) + [Item(t.key, t.value)] + Items(t.right);
    Regrouped(Items(t.left.left), [Item(t.left.key, t.left.value)], Items(t.left.right), [Item(t.key, t.value)],
        Items(t.right));
  }

  lemma BalanceKeepsItems<V>(t: Tree<V>)
    requires t.Node?
    ensures Items(Balance(t)) == Items(t)
  {
    if Height(t.left) > Height(t.right) + 1 {
      if Height(t.left.right) > Height(t.left.left) {
        RotateLeftItems(t.left);
        RotateRightItems(NewNode(t.key, t.value, RotateLeft(t.left), t.right));
      } else {
        RotateRightItems(t);
      }
    } else if Height(t.right) > Height(t.left) + 1 {
      if Height(t.right.left) > Height(t.right.right) {
        RotateRightItems(t.right);
        RotateLeftItems(NewNode(t.key, t.value, t.left, RotateRight(t.right)));
      } else {
        RotateLeftItems(t);
      }
    }
  }

  lemma LeftHeavy<V>(t: Tree<V>)
    requires t.Node? && Balanced(t.left) && Balanced(t.right) && t.height == 1 + Max(Height(t.left), Height(t.right))
    requires Height(t.left) == Height(t.right) + 2
    ensures Balanced(Balance(t)) && t.height - 1 <= Height(Balance(t)) <= t.height
  {
  }

  lemma RightHeavy<V>(t: Tree<V>)
    requires t.Node? && Balanced(t.left) && Balanced(t.right) && t.height == 1 + Max(Height(t.left), Height(t.right))
    requires Height(t.right) == Height(t.left) + 2
    ensures Balanced(Balance(t)) && t.height - 1 <= Height(Balance(t)) <= t.height
  {
  }

  /** Siblings that differ by two are brought back to balance, at the same height or one less. */
  lemma BalanceBalances<V>(t: Tree<V>)
    requires t.Node? && Balanced(t.left) && Balanced(t.right) && t.height == 1 + Max(Height(t.left), Height(t.right))
    requires Height(t.left) <= Height(t.right) + 2 && Height(t.right) <= Height(t.left) + 2
    ensures Balanced(Balance(t))
    ensures t.height - 1 <= Height(Balance(t)) <= t.height
    ensures Height(t.left) <= Height(t.right) + 1 && Height(t.right) <= Height(t.left) + 1 ==> Balance(t) == t
  {
    if Height(t.left) > Height(t.right) + 1 {
      LeftHeavy(t);
    } else if Height(t.right) > Height(t.left) + 1 {
      RightHeavy(t);
    }
  }

  // ----- join -----

  function Join<V>(left: Tree<V>, key: int, value: V, right: Tree<V>): Tree<V>
    decreases left, right
  {
    if Height(left) > Height(right) + 1 then
      Balance(NewNode(left.key, left.value, left.left, Join(left.right, key, value, right)))
    else if Height(right) > Height(left) + 1 then
      Balance(NewNode(right.key, right.value, Join(left, key, value, right.left), right.right))
    else NewNode(key, value, left, right)
  }

  /** Trees of any two heights join into a balanced tree no more than one level taller than the taller one. */
  lemma {:induction false} JoinBalances<V>(left: Tree<V>, key: int, value: V, right: Tree<V>)
    requires Balanced(left) && Balanced(right)
    ensures Balanced(Join(left, key, value, right))
    ensures Max(Height(left), Height(right)) <= Height(Join(left, key, value, right)) <= Max(Height(left),
            Height(right)) + 1
    decreases left, right
  {
    if Height(left) > Height(right) + 1 {
      JoinBalances(left.right, key, value, right);
      BalanceBalances(NewNode(left.key, left.value, left.left, Join(left.right, key, value, right)));
    } else if Height(right) > Height(left) + 1 {
      JoinBalances(left, key, value, right.left);
      BalanceBalances(NewNode(right.key, right.value, Join(left, key, value, right.left), right.right));
    }
  }

  lemma {:induction false} JoinItems<V>(left: Tree<V>, key: int, value: V, right: Tree<V>)
    ensures Items(Join(left, key, value, right)) == Items(left) + [Item(key, value)] + Items(right)
    decreases left, right
  {
    if Height(left) > Height(right) + 1 {
      var inner := Join(left.right, key, value, right);
      JoinItems(left.right, key, value, right);
      BalanceKeepsItems(NewNode(left.key, left.value, left.left, inner));
      Regrouped(Items(left.left), [Item(left.key, left.value)], Items(left.right), [Item(key, value)], Items(right));
    } else if Height(right) > Height(left) + 1 {
      var inner := Join(left, key, value, right.left);
      JoinItems(left, key, value, right.left);
      BalanceKeepsItems(NewNode(right.key, right.value, inner, right.right));
      Regrouped(Items(left), [Item(key, value)], Items(right.left), [Item(right.key, right.value)], Items(right.right));
    }
  }

  // ----- insert, remove, retain_from -----

  function Insert<V>(t: Tree<V>, key: int, value: V): Tree<V> {
    if t.Leaf? then NewNode(key, value, Leaf, Leaf)
    else if key < t.key then Balance(NewNode(t.key, t.value, Insert(t.left, key, value), t.right))
    else if key > t.key then Balance(NewNode(t.key, t.value, t.left, Insert(t.right, key, value)))
    else Balance(NewNode(key, value, t.left, t.right))
  }

  /** The node remove() walks to: the least of a nonempty tree. */
  function Least<V>(t: Tree<V>): Tree<V>
    requires t.Node?
    ensures Least(t).Node?
  {
    if t.left.Leaf? then t else Least(t.left)
  }

  function Remove<V>(t: Tree<V>, key: int): Tree<V> {
    if t.Leaf? then Leaf
    else if key < t.key then Join(Remove(t.left, key), t.key, t.value, t.right)
    else if key > t.key then Join(t.left, t.key, t.value, Remove(t.right, key))
    else if t.right.Leaf? then t.left
    else Join(t.left, Least(t.right).key, Least(t.right).value, Remove(t.right, Least(t.right).key))
  }

  function RetainFrom<V>(t: Tree<V>, key: int): Tree<V> {
    if t.Leaf? then Leaf
    else if t.key < key then RetainFrom(t.right, key)
    else Join(RetainFrom(t.left, key), t.key, t.value, t.right)
  }

  lemma {:induction false} InsertBalances<V>(t: Tree<V>, key: int, value: V)
    requires Balanced(t)
    ensures Balanced(Insert(t, key, value))
    ensures Height(t) <= Height(Insert(t, key, value)) <= Height(t) + 1
  {
    if t.Node? {
      if key < t.key {
        InsertBalances(t.left, key, value);
        BalanceBalances(NewNode(t.key, t.value, Insert(t.left, key, value), t.right));
      } else if key > t.key {
        InsertBalances(t.right, key, value);
        BalanceBalances(NewNode(t.key, t.value, t.left, Insert(t.right, key, value)));
      } else {
        BalanceBalances(NewNode(key, value, t.left, t.right));
      }
    }
  }

  lemma {:induction false} RemoveBalances<V>(t: Tree<V>, key: int)
    requires Balanced(t)
    ensures Balanced(Remove(t, key))
  {
    if t.Node? {
      if key < t.key {
        RemoveBalances(t.left, key);
        JoinBalances(Remove(t.left, key), t.key, t.value, t.right);
      } else if key > t.key {
        RemoveBalances(t.right, key);
        JoinBalances(t.left, t.key, t.value, Remove(t.right, key));
      } else if t.right.Node? {
        var next := Least(t.right);
        RemoveBalances(t.right, next.key);
        JoinBalances(t.left, next.key, next.value, Remove(t.right, next.key));
      }
    }
  }

  lemma {:induction false} RetainBalances<V>(t: Tree<V>, key: int)
    requires Balanced(t)
    ensures Balanced(RetainFrom(t, key))
  {
    if t.Node? {
      if t.key < key {
        RetainBalances(t.right, key);
      } else {
        RetainBalances(t.left, key);
        JoinBalances(RetainFrom(t.left, key), t.key, t.value, t.right);
      }
    }
  }

  // ----- what updates do to the entries -----

  /** The entries whose key passes a test, in order. */
  ghost function Filter<V>(s: seq<Item<V>>, keep: int -> bool): seq<Item<V>> {
    if s == [] then [] else (if keep(s[0].key) then [s[0]] else []) + Filter(s[1..], keep)
  }

  lemma {:induction false} FilterConcat<V>(a: seq<Item<V>>, b: seq<Item<V>>, keep: int -> bool)
    ensures Filter(a + b, keep) == Filter(a, keep) + Filter(b, keep)
  {
    if a == [] {
      assert a + b == b;
    } else {
      assert (a + b)[1..] == a[1..] + b;
      FilterConcat(a[1..], b, keep);
    }
  }

  lemma {:induction false} FilterAll<V>(s: seq<Item<V>>, keep: int -> bool)
    ensures (forall i :: 0 <= i < |s| ==> keep(s[i].key)) ==> Filter(s, keep) == s
    ensures (forall i :: 0 <= i < |s| ==> !keep(s[i].key)) ==> Filter(s, keep) == []
  {
    if s != [] {
      FilterAll(s[1..], keep);
    }
  }

  lemma FilterNode<V>(t: Tree<V>, keep: int -> bool)
    requires t.Node?
    ensures Filter(Items(t), keep) == Filter(Items(t.left), keep) + (if keep(t.key) then [Item(t.key, t.value)]
            else []) + Filter(Items(t.right), keep)
  {
    FilterConcat(Items(t.left) + [Item(t.key, t.value)], Items(t.right), keep);
    FilterConcat(Items(t.left), [Item(t.key, t.value)], keep);
    assert Filter([Item(t.key, t.value)], keep) == if keep(t.key) then [Item(t.key, t.value)] else [];
  }

  /** Search order, read off the sequence of entries. */
  lemma SearchOrder<V>(t: Tree<V>)
    requires t.Node? && Ascending(Items(t))
    ensures Ascending(Items(t.left)) && Ascending(Items(t.right))
    ensures forall i :: 0 <= i < |Items(t.left)| ==> Items(t.left)[i].key < t.key
    ensures forall i :: 0 <= i < |Items(t.right)| ==> t.key < Items(t.right)[i].key
  {
    Around(Items(t.left), Item(t.key, t.value), Items(t.right));
  }

  lemma Around<V>(a: seq<Item<V>>, x: Item<V>, b: seq<Item<V>>)
    requires Ascending(a + [x] + b)
    ensures Ascending(a) && Ascending(b)
    ensures forall i :: 0 <= i < |a| ==> a[i].key < x.key
    ensures forall i :: 0 <= i < |b| ==> x.key < b[i].key
  {
    var s := a + [x] + b;
    var n := |a|;
    assert s[n] == x;
    forall i | 0 <= i < n ensures a[i] == s[i] && a[i].key < x.key {
    }
    forall i | 0 <= i < |b| ensures b[i] == s[n + 1 + i] && x.key < b[i].key {
    }
    forall i, j | 0 <= i < j < n ensures a[i].key < a[j].key {
      assert s[i].key < s[j].key;
    }
    forall i, j | 0 <= i < j < |b| ensures b[i].key < b[j].key {
      assert s[n + 1 + i].key < s[n + 1 + j].key;
    }
  }

  /** A node's entries on either side of a key that is not in its right subtree's range. */
  lemma SplitsLeft<V>(t: Tree<V>, key: int)
    requires t.Node? && Ascending(Items(t)) && key < t.key
    ensures Filter(Items(t), k => k < key) == Filter(Items(t.left), k => k < key)
    ensures Filter(Items(t), k => k > key) == Filter(Items(t.left), k => k > key) + [Item(t.key, t.value)]
            + Items(t.right)
  {
    SearchOrder(t);
    FilterNode(t, k => k < key);
    FilterNode(t, k => k > key);
    FilterAll(Items(t.right), k => k < key);
    FilterAll(Items(t.right), k => k > key);
  }

  lemma SplitsRight<V>(t: Tree<V>, key: int)
    requires t.Node? && Ascending(Items(t)) && key > t.key
    ensures Filter(Items(t), k => k < key) == Items(t.left) + [Item(t.key, t.value)]
            + Filter(Items(t.right), k => k < key)
    ensures Filter(Items(t), k => k > key) == Filter(Items(t.right), k => k > key)
  {
    SearchOrder(t);
    FilterNode(t, k => k < key);
    FilterNode(t, k => k > key);
    FilterAll(Items(t.left), k => k < key);
    FilterAll(Items(t.left), k => k > key);
  }

  lemma SplitsHere<V>(t: Tree<V>, keep: int -> bool)
    requires t.Node? && Ascending(Items(t))
    ensures (forall k :: keep(k) <==> k < t.key) ==> Filter(Items(t), keep) == Items(t.left)
    ensures (forall k :: keep(k) <==> k > t.key) ==> Filter(Items(t), keep) == Items(t.right)
  {
    SearchOrder(t);
    FilterNode(t, keep);
    FilterAll(Items(t.left), keep);
    FilterAll(Items(t.right), keep);
  }

  /** The entries with one key set. */
  ghost function Put<V>(s: seq<Item<V>>, key: int, value: V): seq<Item<V>> {
    Filter(s, k => k < key) + [Item(key, value)] + Filter(s, k => k > key)
  }

  /** insert() replaces the entry of its key, and nothing else. */
  lemma {:induction false} InsertItems<V>(t: Tree<V>, key: int, value: V)
    requires Ascending(Items(t))
    ensures Items(Insert(t, key, value)) == Put(Items(t), key, value)
  {
    if t.Node? {
      SearchOrder(t);
      if key < t.key {
        InsertItems(t.left, key, value);
        SplitsLeft(t, key);
        BalanceKeepsItems(NewNode(t.key, t.value, Insert(t.left, key, value), t.right));
        Regrouped(Filter(Items(t.left), k => k < key), [Item(key, value)], Filter(Items(t.left), k => k > key),
            [Item(t.key, t.value)], Items(t.right));
      } else if key > t.key {
        InsertItems(t.right, key, value);
        SplitsRight(t, key);
        BalanceKeepsItems(NewNode(t.key, t.value, t.left, Insert(t.right, key, value)));
        Regrouped(Items(t.left), [Item(t.key, t.value)], Filter(Items(t.right), k => k < key), [Item(key, value)],
            Filter(Items(t.right), k => k > key));
      } else {
        SplitsHere(t, k => k < key);
        SplitsHere(t, k => k > key);
        BalanceKeepsItems(NewNode(key, value, t.left, t.right));
      }
    }
  }

  lemma {:induction false} LeastFirst<V>(t: Tree<V>)
    requires t.Node?
    ensures Items(t) != [] && Items(t)[0] == Item(Least(t).key, Least(t).value)
  {
    if t.left.Node? {
      LeastFirst(t.left);
    }
  }

  lemma WithoutFirst<V>(s: seq<Item<V>>, other: int -> bool)
    requires s != [] && Ascending(s) && forall k :: other(k) <==> k != s[0].key
    ensures Filter(s, other) == s[1..]
  {
    FilterAll(s[1..], other);
  }

  // A test that passes every key but one, seen from each side of a node.

  lemma OthersLeft<V>(t: Tree<V>, key: int, other: int -> bool)
    requires t.Node? && Ascending(Items(t)) && key < t.key && forall k :: other(k) <==> k != key
    ensures Filter(Items(t), other) == Filter(Items(t.left), other) + [Item(t.key, t.value)] + Items(t.right)
  {
    SearchOrder(t);
    FilterNode(t, other);
    FilterAll(Items(t.right), other);
  }

  lemma OthersRight<V>(t: Tree<V>, key: int, other: int -> bool)
    requires t.Node? && Ascending(Items(t)) && key > t.key && forall k :: other(k) <==> k != key
    ensures Filter(Items(t), other) == Items(t.left) + [Item(t.key, t.value)] + Filter(Items(t.right), other)
  {
    SearchOrder(t);
    FilterNode(t, other);
    FilterAll(Items(t.left), other);
  }

  lemma OthersHere<V>(t: Tree<V>, other: int -> bool)
    requires t.Node? && Ascending(Items(t)) && forall k :: other(k) <==> k != t.key
    ensures Filter(Items(t), other) == Items(t.left) + Items(t.right)
  {
    SearchOrder(t);
    FilterNode(t, other);
    FilterAll(Items(t.left), other);
    FilterAll(Items(t.right), other);
  }

  lemma RemoveLeft<V>(t: Tree<V>, key: int, other: int -> bool)
    requires t.Node? && Ascending(Items(t)) && key < t.key && forall k :: other(k) <==> k != key
    requires Items(Remove(t.left, key)) == Filter(Items(t.left), other)
    ensures Items(Remove(t, key)) == Filter(Items(t), other)
  {
    JoinItems(Remove(t.left, key), t.key, t.value, t.right);
    OthersLeft(t, key, other);
  }

  lemma RemoveRight<V>(t: Tree<V>, key: int, other: int -> bool)
    requires t.Node? && Ascending(Items(t)) && key > t.key && forall k :: other(k) <==> k != key
    requires Items(Remove(t.right, key)) == Filter(Items(t.right), other)
    ensures Items(Remove(t, key)) == Filter(Items(t), other)
  {
    JoinItems(t.left, t.key, t.value, Remove(t.right, key));
    OthersRight(t, key, other);
  }

  /** The successor takes the removed node's place. */
  lemma RemoveHere<V>(t: Tree<V>, other: int -> bool)
    requires t.Node? && Ascending(Items(t)) && forall k :: other(k) <==> k != t.key
    requires t.right.Node? ==> Items(Remove(t.right, Least(t.right).key)) == Items(t.right)[1..]
    ensures Items(Remove(t, t.key)) == Filter(Items(t), other)
  {
    OthersHere(t, other);
    if t.right.Node? {
      var next := Least(t.right);
      LeastFirst(t.right);
      JoinItems(t.left, next.key, next.value, Remove(t.right, next.key));
      assert Items(t.right) == [Item(next.key, next.value)] + Items(t.right)[1..];
    }
  }

  lemma {:induction false} RemoveItemsBy<V>(t: Tree<V>, key: int, other: int -> bool)
    requires Ascending(Items(t)) && forall k :: other(k) <==> k != key
    ensures Items(Remove(t, key)) == Filter(Items(t), other)
  {
    if t.Node? {
      SearchOrder(t);
      if key < t.key {
        RemoveItemsBy(t.left, key, other);
        RemoveLeft(t, key, other);
      } else if key > t.key {
        RemoveItemsBy(t.right, key, other);
        RemoveRight(t, key, other);
      } else {
        if t.right.Node? {
          var next, notNext := Least(t.right).key, (k: int) => k != Least(t.right).key;
          RemoveItemsBy(t.right, next, notNext);
          LeastFirst(t.right);
          WithoutFirst(Items(t.right), notNext);
        }
        RemoveHere(t, other);
      }
    }
  }

  /** remove() drops the entry of its key, and nothing else. */
  lemma RemoveItems<V>(t: Tree<V>, key: int)
    requires Ascending(Items(t))
    ensures Items(Remove(t, key)) == Filter(Items(t), k => k != key)
  {
    RemoveItemsBy(t, key, k => k != key);
  }

  /** retain_from() keeps exactly the entries from its key on. */
  lemma {:induction false} RetainItems<V>(t: Tree<V>, key: int)
    requires Ascending(Items(t))
    ensures Items(RetainFrom(t, key)) == Filter(Items(t), k => k >= key)
  {
    if t.Node? {
      var keep := (k: int) => k >= key;
      SearchOrder(t);
      FilterNode(t, keep);
      FilterAll(Items(t.left), keep);
      FilterAll(Items(t.right), keep);
      if t.key < key {
        RetainItems(t.right, key);
      } else {
        RetainItems(t.left, key);
        JoinItems(RetainFrom(t.left, key), t.key, t.value, t.right);
      }
    }
  }

  /** Filtering keeps order, and every entry that passes comes from somewhere. */
  lemma {:induction false} FilterOrder<V>(s: seq<Item<V>>, keep: int -> bool)
    requires Ascending(s)
    ensures Ascending(Filter(s, keep))
    ensures forall i :: 0 <= i < |Filter(s, keep)| ==>
            keep(Filter(s, keep)[i].key) && s[0].key <= Filter(s, keep)[i].key
  {
    if s != [] {
      var rest := Filter(s[1..], keep);
      FilterOrder(s[1..], keep);
      if rest != [] {
        assert s[0].key < s[1..][0].key;
      }
    }
  }
}

/** The map object and its range iterator (ordered_map.rs). */
module OrderedMaps {
  import opened Results
  import opened OrderedTrees

  datatype Bound = Included(key: int) | Excluded(key: int) | Unbounded

  /** The key is not before the start of the range. */
  predicate AtOrAfter(start: Bound, key: int) {
    match start
    case Included(k) => key >= k
    case Excluded(k) => key > k
    case Unbounded => true
  }

  predicate AtOrBefore(end: Bound, key: int) {
    match end
    case Included(k) => key <= k
    case Excluded(k) => key < k
    case Unbounded => true
  }

  /** A key is in one subtree or at the node itself. */
  lemma Narrow<V>(t: Tree<V>, key: int, same: int -> bool)
    requires t.Node? && Ascending(Items(t)) && forall k :: same(k) <==> k == key
    ensures Ascending(Items(t.left)) && Ascending(Items(t.right))
    ensures Filter(Items(t), same) == if key < t.key then Filter(Items(t.left), same)
                                      else if key > t.key then Filter(Items(t.right), same)
                                      else [Item(t.key, t.value)]
  {
    SearchOrder(t);
    NarrowSides(t, key, same);
    FilterNode(t, same);
  }

  lemma NarrowSides<V>(t: Tree<V>, key: int, same: int -> bool)
    requires t.Node? && Ascending(Items(t)) && forall k :: same(k) <==> k == key
    ensures key >= t.key ==> Filter(Items(t.left), same) == []
    ensures key <= t.key ==> Filter(Items(t.right), same) == []
  {
    SearchOrder(t);
    FilterAll(Items(t.left), same);
    FilterAll(Items(t.right), same);
  }

  class OrderedMap<V(0)> {
    var root: Tree<V>

    ghost predicate Valid()
      reads this
    {
      Balanced(root) && Ascending(Items(root))
    }

    constructor ()
      ensures Valid() && Items(root) == []
    {
      root := Leaf;
    }

    method Put(key: int, value: V)
      requires Valid()
      modifies this
      ensures Valid() && Items(root) == OrderedTrees.Put(old(Items(root)), key, value)
    {
      InsertBalances(root, key, value);
      InsertItems(root, key, value);
      PutAscends(Items(root), key, value);
      root := Insert(root, key, value);
    }

    method Delete(key: int)
      requires Valid()
      modifies this
      ensures Valid() && Items(root) == Filter(old(Items(root)), k => k != key)
    {
      RemoveBalances(root, key);
      RemoveItems(root, key);
      FilterOrder(Items(root), k => k != key);
      root := Remove(root, key);
    }

    method Retain(key: int)
      requires Valid()
      modifies this
      ensures Valid() && Items(root) == Filter(old(Items(root)), k => k >= key)
    {
      RetainBalances(root, key);
      RetainItems(root, key);
      FilterOrder(Items(root), k => k >= key);
      root := RetainFrom(root, key);
    }

    method Get(key: int) returns (r: Option<V>)
      requires Valid()
      ensures Filter(Items(root), k => k == key) == if r.Some? then [Item(key, r.value)] else []
    {
      var same := (k: int) => k == key;
      var current := root;
      while current.Node?
        invariant Ascending(Items(current)) && Filter(Items(root), same) == Filter(Items(current), same)
        decreases current
      {
        Narrow(current, key, same);
        if key < current.key {
          current := current.left;
        } else if key > current.key {
          current := current.right;
        } else {
          return Some(current.value);
        }
      }
      return None;
    }

    /** The entry with the greatest key not above `key`. */
    method Floor(key: int) returns (r: Option<Item<V>>)
      requires Valid()
      ensures r == Last(Filter(Items(root), k => k <= key))
    {
      var below := (k: int) => k <= key;
      var current := root;
      r := None;
      ghost var all := Filter(Items(root), below);
      ghost var left: seq<Item<V>> := [];
      while current.Node?
        invariant Ascending(Items(current)) && all == left + Filter(Items(current), below)
        invariant r == Last(left)
        decreases current
      {
        SearchOrder(current);
        FilterNode(current, below);
        FilterAll(Items(current.left), below);
        FilterAll(Items(current.right), below);
        if current.key <= key {
          r := Some(Item(current.key, current.value));
          Shifted(left, Items(current.left), r.value, Filter(Items(current.right), below));
          left := left + Items(current.left) + [r.value];
          current := current.right;
        } else {
          assert Filter(Items(current), below) == Filter(Items(current.left), below);
          current := current.left;
        }
      }
    }
  }

  lemma Shifted<X>(a: seq<X>, b: seq<X>, x: X, c: seq<X>)
    ensures a + (b + [x] + c) == (a + b + [x]) + c
  {
  }

  lemma PutAscends<V>(s: seq<Item<V>>, key: int, value: V)
    requires Ascending(s)
    ensures Ascending(Put(s, key, value))
  {
    FilterOrder(s, k => k < key);
    FilterOrder(s, k => k > key);
  }

  /** What a stack of nodes still has to yield: each node, then its right subtree, from the top down. */
  ghost function Remaining<V>(stack: seq<Tree<V>>): seq<Item<V>>
    requires forall t :: t in stack ==> t.Node?
  {
    if stack == [] then []
    else
      var n := |stack| - 1;
      [Item(stack[n].key, stack[n].value)] + Items(stack[n].right) + Remaining(stack[..n])
  }

  /** What is wanted is what the subtree has of it, then what is on the stack. */
  ghost predicate Walks<V>(wanted: seq<Item<V>>, keep: int -> bool, current: Tree<V>, stack: seq<Tree<V>>) {
    (forall t :: t in stack ==> t.Node?) && Ascending(Items(current))
        && wanted == Filter(Items(current), keep) + Remaining(stack)
  }

  lemma WalkOn<V>(wanted: seq<Item<V>>, keep: int -> bool, current: Tree<V>, stack: seq<Tree<V>>)
    requires Walks(wanted, keep, current, stack) && current.Node? && Upward(keep)
    ensures if keep(current.key) then Walks(wanted, keep, current.left, stack + [current])
            else Walks(wanted, keep, current.right, stack)
  {
    SearchOrder(current);
    FromHere(current, keep, Remaining(stack));
    Pushed(stack, current);
  }

  /** Range: yields the entries from the start bound on, until one lies past the end bound. */
  class Range<V(0)> {
    var stack: seq<Tree<V>>
    const end: Bound

    ghost predicate Valid()
      reads this
    {
      (forall t :: t in stack ==> t.Node?) && Ascending(Remaining(stack))
    }

    constructor (root: Tree<V>, start: Bound, end: Bound)
      requires Ascending(Items(root))
      ensures Valid() && this.end == end
      ensures Remaining(stack) == Filter(Items(root), k => AtOrAfter(start, k))
    {
      this.end := end;
      stack := [];
      new;
      ghost var keep := (k: int) => AtOrAfter(start, k);
      ghost var wanted := Filter(Items(root), keep);
      var current := root;
      while current.Node?
        invariant Walks(wanted, keep, current, stack)
        decreases current
      {
        WalkOn(wanted, keep, current, stack);
        if !AtOrAfter(start, current.key) {
          current := current.right;
        } else {
          stack := stack + [current];
          current := current.left;
        }
      }
      assert wanted == Remaining(stack);
      FilterOrder(Items(root), keep);
    }

    /** The next entry in range; once one lies past the end, nothing more is yielded. */
    method Next() returns (r: Option<Item<V>>)
      requires Valid()
      modifies this
      ensures Valid()
      ensures old(Remaining(stack)) == [] || !AtOrBefore(end, old(Remaining(stack))[0].key) ==>
              r == None && Remaining(stack) == []
      ensures old(Remaining(stack)) != [] && AtOrBefore(end, old(Remaining(stack))[0].key) ==>
                r == Some(old(Remaining(stack))[0]) && Remaining(stack) == old(Remaining(stack))[1..]
    {
      if stack == [] {
        return None;
      }
      var n := |stack| - 1;
      var top := stack[n];
      ghost var rest := Remaining(stack)[1..];
      assert Remaining(stack) == [Item(top.key, top.value)] + Items(top.right) + Remaining(stack[..n]);
      assert rest == Items(top.right) + Remaining(stack[..n]);
      assert Ascending(rest);
      stack := stack[..n];
      if !AtOrBefore(end, top.key) {
        stack := [];
        return None;
      }
      var current := top.right;
      while current.Node?
        invariant forall t :: t in stack ==> t.Node?
        invariant Items(current) + Remaining(stack) == rest
        decreases current
      {
        Pushed(stack, current);
        stack := stack + [current];
        current := current.left;
      }
      assert Remaining(stack) == rest;
      return Some(Item(top.key, top.value));
    }
  }

  ghost predicate Upward(keep: int -> bool) {
    forall a, b :: a <= b && keep(a) ==> keep(b)
  }

  lemma SkipLeft<V>(t: Tree<V>, keep: int -> bool)
    requires t.Node? && Ascending(Items(t)) && Upward(keep) && !keep(t.key)
    ensures Filter(Items(t), keep) == Filter(Items(t.right), keep)
  {
    SearchOrder(t);
    FilterNode(t, keep);
    FilterAll(Items(t.left), keep);
  }

  lemma KeepRight<V>(t: Tree<V>, keep: int -> bool)
    requires t.Node? && Ascending(Items(t)) && Upward(keep) && keep(t.key)
    ensures Filter(Items(t), keep) == Filter(Items(t.left), keep) + [Item(t.key, t.value)] + Items(t.right)
  {
    SearchOrder(t);
    FilterNode(t, keep);
    FilterAll(Items(t.right), keep);
  }

  lemma Carried<X>(a: seq<X>, x: X, b: seq<X>, rest: seq<X>)
    ensures (a + [x] + b) + rest == a + ([x] + b + rest)
  {
  }

  /** One step of the walk to the start of a range. */
  lemma FromHere<V>(t: Tree<V>, keep: int -> bool, rest: seq<Item<V>>)
    requires t.Node? && Ascending(Items(t)) && Upward(keep)
    ensures !keep(t.key) ==> Filter(Items(t), keep) == Filter(Items(t.right), keep)
    ensures keep(t.key) ==>
              Filter(Items(t), keep) + rest == Filter(Items(t.left), keep)
              + ([Item(t.key, t.value)] + Items(t.right) + rest)
  {
    if keep(t.key) {
      KeepRight(t, keep);
      Carried(Filter(Items(t.left), keep), Item(t.key, t.value), Items(t.right), rest);
    } else {
      SkipLeft(t, keep);
    }
  }

  lemma Pushed<V>(stack: seq<Tree<V>>, t: Tree<V>)
    requires (forall u :: u in stack ==> u.Node?) && t.Node?
    ensures forall u :: u in stack + [t] ==> u.Node?
    ensures Remaining(stack + [t]) == [Item(t.key, t.value)] + Items(t.right) + Remaining(stack)
    ensures Items(t.left) + Remaining(stack + [t]) == Items(t) + Remaining(stack)
  {
    assert (stack + [t])[..|stack|] == stack;
  }

  /** Entries come in key order, so the first one past the end ends the range for good. */
  lemma {:induction false} EndIsFinal<V>(s: seq<Item<V>>, keep: int -> bool, end: Bound)
    requires Ascending(s) && forall k :: keep(k) <==> AtOrBefore(end, k)
    ensures s == [] || !keep(s[0].key) ==> Filter(s, keep) == []
    ensures s != [] && keep(s[0].key) ==> Filter(s, keep) == [s[0]] + Filter(s[1..], keep)
  {
    if s != [] && !keep(s[0].key) {
      FilterAll(s, keep);
    }
  }

  /** What was collected, the entry in hand and what is still to come make up what is wanted. */
  ghost predicate Owes<V>(
    r: seq<Item<V>>, next: Option<Item<V>>, rest: seq<Item<V>>, keep: int -> bool, wanted: seq<Item<V>>)
  {
    if next.Some? then r + [next.value] + Filter(rest, keep) == wanted else r == wanted
  }

  /** Taking the next entry in range from what remains. */
  lemma Drains<V>(r: seq<Item<V>>, s: seq<Item<V>>, keep: int -> bool, end: Bound)
    requires Ascending(s) && forall k :: keep(k) <==> AtOrBefore(end, k)
    ensures if s == [] || !keep(s[0].key) then Owes(r, None, [], keep, r + Filter(s, keep))
            else Owes(r, Some(s[0]), s[1..], keep, r + Filter(s, keep))
  {
    EndIsFinal(s, keep, end);
  }

  lemma {:induction false} FilterTwice<V>(s: seq<Item<V>>, first: int -> bool, second: int -> bool, both: int -> bool)
    requires forall k :: both(k) <==> first(k) && second(k)
    ensures Filter(Filter(s, first), second) == Filter(s, both)
  {
    if s != [] {
      var head := if first(s[0].key) then [s[0]] else [];
      FilterConcat(head, Filter(s[1..], first), second);
      FilterTwice(s[1..], first, second, both);
      assert first(s[0].key) ==> head[1..] == [];
    }
  }

  /** The key is in the range that the two bounds leave. */
  ghost predicate Between(start: Bound, end: Bound, key: int) {
    && (start.Included? ==> start.key <= key) && (start.Excluded? ==> start.key < key)
    && (end.Included? ==> key <= end.key) && (end.Excluded? ==> key < end.key)
  }

  lemma BetweenBounds<V>(s: seq<Item<V>>, start: Bound, end: Bound)
    ensures Filter(Filter(s, k => AtOrAfter(start, k)), k => AtOrBefore(end, k))
            == Filter(s, k => Between(start, end, k))
  {
    FilterTwice(s, k => AtOrAfter(start, k), k => AtOrBefore(end, k), k => Between(start, end, k));
  }

  /** Draining the iterator yields exactly the entries in range, in order. */
  method Collect<V(0)>(root: Tree<V>, start: Bound, end: Bound) returns (r: seq<Item<V>>)
    requires Ascending(Items(root))
    ensures r == Filter(Items(root), k => Between(start, end, k))
  {
    BetweenBounds(Items(root), start, end);
    var range := new Range(root, start, end);
    ghost var keep := (k: int) => AtOrBefore(end, k);
    ghost var wanted := Filter(Remaining(range.stack), keep);
    r := [];
    Drains(r, Remaining(range.stack), keep, end);
    var next := range.Next();
    while next.Some?
      invariant range.Valid() && range.end == end && fresh(range)
      invariant Owes(r, next, Remaining(range.stack), keep, wanted)
      decreases |Remaining(range.stack)|, if next.Some? then 1 else 0
    {
      r := r + [next.value];
      Drains(r, Remaining(range.stack), keep, end);
      next := range.Next();
    }
  }
}
