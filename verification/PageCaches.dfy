/**
 The clock page cache (storage/pager.rs, PageCache): a bounded table of decoded pages whose eviction
 sweeps the slots and clears reference bits.
 */
module PageCaches {
  import opened Results
  import opened Files

  /** A page of an immutable file. */
  datatype PageKey = PageKey(file: FileId, number: nat)

  datatype Slot<V> = Slot(key: PageKey, value: V, referenced: bool)

  /** The index names exactly the occupied slots. */
  ghost predicate Indexed<V>(index: map<PageKey, nat>, slots: seq<Option<Slot<V>>>) {
    && (forall key :: key in index ==>
          index[key] < |slots| && slots[index[key]].Some?
          && slots[index[key]].value.key == key)
    && (forall i :: 0 <= i < |slots| && slots[i].Some? ==>
       slots[i].value.key in index && index[slots[i].value.key] == i)
  }

  ghost predicate SamePage<V>(a: Option<Slot<V>>, b: Option<Slot<V>>) {
    (a.Some? <==> b.Some?) && (a.Some? ==> a.value.key == b.value.key && a.value.value == b.value.value)
  }

  /** Only reference bits differ. */
  ghost predicate SamePages<V>(a: seq<Option<Slot<V>>>, b: seq<Option<Slot<V>>>) {
    |a| == |b| && forall i :: 0 <= i < |a| ==> SamePage(a[i], b[i])
  }

  lemma StillIndexed<V>(index: map<PageKey, nat>, a: seq<Option<Slot<V>>>, b: seq<Option<Slot<V>>>)
    requires Indexed(index, a) && SamePages(a, b)
    ensures Indexed(index, b)
  {
    assert forall i :: 0 <= i < |a| ==> SamePage(a[i], b[i]);
  }

  lemma ClearOne<V>(a: seq<Option<Slot<V>>>, b: seq<Option<Slot<V>>>, at: nat, bit: bool)
    requires SamePages(a, b) && at < |b| && b[at].Some?
    ensures SamePages(a, b[at := Some(b[at].value.(referenced := bit))])
  {
    forall i | 0 <= i < |a| ensures SamePage(a[i], b[at := Some(b[at].value.(referenced := bit))][i]) {
      assert SamePage(a[i], b[i]);
    }
  }

  /** The index without what was in a slot. */
  function Without<V>(index: map<PageKey, nat>, held: Option<Slot<V>>): map<PageKey, nat> {
    if held.Some? then index - {held.value.key} else index
  }

  lemma PutIndexed<V>(index: map<PageKey, nat>, slots: seq<Option<Slot<V>>>, at: nat, slot: Slot<V>)
    requires Indexed(index, slots) && at < |slots| && slot.key !in index
    ensures Indexed(Without(index, slots[at])[slot.key := at], slots[at := Some(slot)])
  {
  }

  /** The slots the hand has passed since `start` are occupied and no longer referenced. */
  ghost predicate Swept<V>(slots: seq<Option<Slot<V>>>, start: nat, hand: nat, wrapped: bool) {
    forall i :: 0 <= i < |slots| && (if wrapped then i >= start || i < hand else start <= i < hand) ==>
        slots[i].Some? && !slots[i].value.referenced
  }

  /** The hand moves on, around the slots. */
  function After(hand: nat, count: nat): (r: nat)
    requires hand < count
    ensures r == if hand + 1 == count then 0 else hand + 1
  {
    (hand + 1) % count
  }

  /** What the hand has passed was referenced, and what it has not is as it was. */
  ghost predicate Chanced<V>(
    before: seq<Option<Slot<V>>>, slots: seq<Option<Slot<V>>>, start: nat, hand: nat, wrapped: bool)
  {
    |slots| == |before| && forall i :: 0 <= i < |slots| ==>
      if (if wrapped then i >= start || i < hand else start <= i < hand)
      then before[i].Some? && before[i].value.referenced else slots[i] == before[i]
  }

  lemma SweptOne<V>(a: seq<Option<Slot<V>>>, b: seq<Option<Slot<V>>>, start: nat, hand: nat, wrapped: bool)
    requires Swept(a, start, hand, wrapped) && hand < |a| && start < |a| && (wrapped ==> hand < start)
             && (!wrapped ==> start <= hand)
    requires |b| == |a| && b == a[hand := b[hand]] && b[hand].Some? && !b[hand].value.referenced
    ensures Swept(b, start, After(hand, |a|), wrapped || hand + 1 == |a|)
  {
  }

  class PageCache<V(0)> {
    const limit: nat
    var index: map<PageKey, nat>
    var slots: seq<Option<Slot<V>>>
    var hand: nat

    /** The index names exactly the occupied slots, within the limit. */
    ghost predicate Valid()
      reads this
    {
      limit > 0 && |slots| <= limit && (hand == 0 || hand < |slots|) && Indexed(index, slots)
    }

    /** Every cached page is the one its file holds. */
    ghost predicate Faithful(decode: PageKey -> V)
      reads this
    {
      forall i :: 0 <= i < |slots| && slots[i].Some? ==> slots[i].value.value == decode(slots[i].value.key)
    }

    constructor (limit: nat)
      requires limit > 0
      ensures Valid() && index == map[] && this.limit == limit
      ensures forall decode :: Faithful(decode)
    {
      this.limit := limit;
      index, slots, hand := map[], [], 0;
    }

    method Get(key: PageKey, ghost decode: PageKey -> V) returns (r: Option<V>)
      requires Valid() && Faithful(decode)
      modifies this`slots
      ensures Valid() && Faithful(decode)
      ensures r == if key in index then Some(decode(key)) else None
      ensures SamePages(old(slots), slots) && (key in index ==> slots[index[key]].value.referenced)
      ensures forall i :: 0 <= i < |slots| && !(key in index && i == index[key]) ==> slots[i] == old(slots)[i]
    {
      if key !in index {
        return None;
      }
      var at := index[key];
      match slots[at] {
        case None => return None;
        case Some(slot) =>
          slots := slots[at := Some(slot.(referenced := true))];
          return Some(slot.value);
      }
    }

    /**
     Finds a slot to reuse: within two sweeps one is empty or no longer referenced. A page that was used
     since the hand last passed it goes only when every page was.
     */
    method Evict() returns (position: nat)
      requires Valid() && |slots| == limit
      modifies this`slots, this`hand
      ensures Valid() && |slots| == limit && position < limit
      ensures slots[position].None? || !slots[position].value.referenced
      ensures SamePages(old(slots), slots)
      ensures old(slots)[position].None? || !old(slots)[position].value.referenced
              || forall i :: 0 <= i < limit ==> old(slots)[i].Some? && old(slots)[i].value.referenced
    {
      ghost var start, wrapped := hand, false;
      for step := 0 to 2 * |slots|
        invariant |slots| == limit && hand < limit && SamePages(old(slots), slots)
        invariant step == (if wrapped then limit - start + hand else hand - start) <= limit && start < limit
        invariant (wrapped ==> hand <= start) && (!wrapped ==> start <= hand) && Swept(slots, start, hand, wrapped)
        invariant Chanced(old(slots), slots, start, hand, wrapped)
      {
        position := hand;
        hand := After(hand, |slots|);
        StillIndexed(index, old(slots), slots);
        match slots[position] {
          case None => return position;
          case Some(slot) =>
            if !slot.referenced {
              return position;
            }
            assert !(wrapped && position == start);
            ClearOne(old(slots), slots, position, false);
            SweptOne(slots, slots[position := Some(slot.(referenced := false))], start, position, wrapped);
            slots := slots[position := Some(slot.(referenced := false))];
        }
        wrapped := wrapped || position + 1 == limit;
      }
      return hand;
    }

    /** The page is cached, at the cost of at most one other. */
    method Insert(key: PageKey, value: V, ghost decode: PageKey -> V)
      requires Valid() && Faithful(decode) && value == decode(key)
      modifies this
      ensures Valid() && Faithful(decode) && key in index
      ensures key !in old(index) ==> slots[index[key]].value.referenced
      ensures old(|slots|) < limit ==> index.Keys == old(index.Keys) + {key}
      ensures exists gone: set<PageKey> :: |gone| <= 1 && index.Keys == old(index.Keys) - gone + {key}
    {
      if key in index {
        assert index.Keys == old(index.Keys) - {} + {key};
        return;
      }
      var slot := Slot(key, value, true);
      if |slots| < limit {
        index := index[key := |slots|];
        slots := slots + [Some(slot)];
        assert index.Keys == old(index.Keys) - {} + {key};
        return;
      }
      var position := Evict();
      Reuse(position, slot, decode);
    }

    /** The page takes the place of what was in the slot. */
    method Reuse(position: nat, slot: Slot<V>, ghost decode: PageKey -> V)
      requires Valid() && Faithful(decode) && position < |slots| && slot.key !in index && slot.value == decode(slot.key)
      modifies this`index, this`slots
      ensures Valid() && Faithful(decode) && slot.key in index && slots[index[slot.key]] == Some(slot)
      ensures exists gone: set<PageKey> :: |gone| <= 1 && index.Keys == old(index.Keys) - gone + {slot.key}
    {
      ghost var gone: set<PageKey> := {};
      PutIndexed(index, slots, position, slot);
      match slots[position] {
        case None =>
        case Some(previous) =>
          index := index - {previous.key};
          gone := {previous.key};
      }
      index := index[slot.key := position];
      slots := slots[position := Some(slot)];
      assert index.Keys == old(index.Keys) - gone + {slot.key};
    }

    /** Pages of forgotten files are gone, and nothing else is. */
    method Retain(keep: FileId -> bool, ghost decode: PageKey -> V)
      requires Valid() && Faithful(decode)
      modifies this`index, this`slots
      ensures Valid() && Faithful(decode) && |slots| == old(|slots|)
      ensures forall key :: key in index <==> key in old(index) && keep(key.file)
    {
      for at := 0 to |slots|
        invariant Valid() && Faithful(decode) && |slots| == old(|slots|)
        invariant forall i :: at <= i < |slots| ==> slots[i] == old(slots)[i]
        invariant forall key :: key in index <==> key in old(index) && (keep(key.file) || old(index)[key] >= at)
        invariant forall key :: key in index ==> index[key] == old(index)[key]
      {
        match slots[at] {
          case None =>
          case Some(slot) =>
            if !keep(slot.key.file) {
              slots := slots[at := None];
              index := index - {slot.key};
            }
        }
      }
    }

    /** Pager::page: a cached page or the one just read and decoded; the two never differ. */
    method Page(key: PageKey, decode: PageKey -> V) returns (r: V)
      requires Valid() && Faithful(decode)
      modifies this
      ensures Valid() && Faithful(decode) && r == decode(key) && key in index
    {
      var cached := Get(key, decode);
      if cached.Some? {
        return cached.value;
      }
      r := decode(key);
      Insert(key, r, decode);
    }
  }
}
