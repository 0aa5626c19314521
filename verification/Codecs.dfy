/** Fixed-width integers as they stand in files. */
module LittleEndian {
  import opened Results

  /** Little-endian, `width` bytes. */
  function Le(n: nat, width: nat): (r: seq<byte>)
    ensures |r| == width
  {
    if width == 0 then [] else [(n % 256) as byte] + Le(n / 256, width - 1)
  }

  /** The number whose `width` bytes start at `at`. */
  function Number(data: seq<byte>, at: nat, width: nat): nat
    requires at + width <= |data|
    decreases |data| - at
  {
    if width == 0 then 0 else data[at] as nat + 256 * Number(data, at + 1, width - 1)
  }

  function FromLe(bytes: seq<byte>): nat {
    Number(bytes, 0, |bytes|)
  }

  function Power(width: nat): nat {
    if width == 0 then 1 else 256 * Power(width - 1)
  }

  lemma {:induction false} NumberRoundTrip(data: seq<byte>, at: nat, n: nat, width: nat)
    requires at + width <= |data| && n < Power(width)
    requires data[at..at + width] == Le(n, width)
    ensures Number(data, at, width) == n
    decreases width
  {
    if width > 0 {
      assert data[at + 1..at + width] == data[at..at + width][1..] == Le(n / 256, width - 1);
      assert data[at] == data[at..at + width][0];
      NumberRoundTrip(data, at + 1, n / 256, width - 1);
    }
  }

  lemma LeRoundTrip(n: nat, width: nat)
    requires n < Power(width)
    ensures FromLe(Le(n, width)) == n
  {
    assert Le(n, width)[0..0 + width] == Le(n, width);
    NumberRoundTrip(Le(n, width), 0, n, width);
  }

  /** A number does not depend on where its bytes stand. */
  lemma {:induction false} NumberMoved(a: seq<byte>, i: nat, b: seq<byte>, j: nat, width: nat)
    requires i + width <= |a| && j + width <= |b|
    requires a[i..i + width] == b[j..j + width]
    ensures Number(a, i, width) == Number(b, j, width)
    decreases width
  {
    if width > 0 {
      assert a[i] == a[i..i + width][0] && b[j] == b[j..j + width][0];
      assert a[i + 1..i + width] == a[i..i + width][1..] && b[j + 1..j + width] == b[j..j + width][1..];
      NumberMoved(a, i + 1, b, j + 1, width - 1);
    }
  }

  lemma Widths()
    ensures Power(2) == 0x1_0000 && Power(4) == 0x1_0000_0000 && Power(8) == 0x1_0000_0000_0000_0000
  {
    assert Power(1) == 256 && Power(2) == 256 * Power(1) && Power(3) == 256 * Power(2) && Power(4) == 256 * Power(3);
    assert Power(5) == 256 * Power(4) && Power(6) == 256 * Power(5) && Power(7) == 256 * Power(6)
        && Power(8) == 256 * Power(7);
  }
}

/**
 Byte encodings (codec.rs): an encoder that appends and a decoder that advances over its input.

 `Parse...` functions say what a decoder reads at an offset; `Holds` says which bytes stand there.
 Integers are little-endian; a string is its length and its bytes.
 */
module ByteStreams {
  import opened Results
  import opened LittleEndian

  /** `bytes` stand in `data` at `at`. */
  ghost predicate Holds(data: seq<byte>, at: nat, bytes: seq<byte>) {
    at + |bytes| <= |data| && forall same: seq<byte> :: same == bytes ==> Stands(data, at, same)
  }

  predicate Stands(data: seq<byte>, at: nat, bytes: seq<byte>) {
    at + |bytes| <= |data| && data[at..at + |bytes|] == bytes
  }

  lemma HoldsSplit(data: seq<byte>, at: nat, a: seq<byte>, b: seq<byte>)
    requires Holds(data, at, a + b)
    ensures Holds(data, at, a) && Holds(data, at + |a|, b)
  {
    assert Stands(data, at, a + b);
    var both := data[at..at + |a + b|];
    assert both[..|a|] == a && both[|a|..] == b;
    assert data[at..at + |a|] == both[..|a|] && data[at + |a|..at + |a| + |b|] == both[|a|..];
  }

  /** Three byte strings one after the other. */
  lemma HoldsThree(data: seq<byte>, at: nat, a: seq<byte>, b: seq<byte>, c: seq<byte>, second: nat, third: nat)
    requires Holds(data, at, a + (b + c)) && second == at + |a| && third == second + |b|
    ensures Holds(data, at, a) && Holds(data, second, b) && Holds(data, third, c)
  {
    HoldsSplit(data, at, a, b + c);
    HoldsSplit(data, second, b, c);
  }

  datatype Parsed<+T> = Parsed(value: T, next: nat)

  function ParseTake(data: seq<byte>, at: nat, count: nat): (r: Result<Parsed<seq<byte>>>)
    ensures r.Ok? <==> at + count <= |data|
    ensures r.Ok? ==> r.value.next == at + count && |r.value.value| == count
  {
    if at + count <= |data| then Ok(Parsed(data[at..at + count], at + count)) else Err(Corrupt)
  }

  function ParseLe(data: seq<byte>, at: nat, width: nat): (r: Result<Parsed<nat>>)
    ensures r.Ok? ==> at + width == r.value.next <= |data|
  {
    if at + width <= |data| then Ok(Parsed(Number(data, at, width), at + width)) else Err(Corrupt)
  }

  /** A count of items that each take at least `minimum` of the bytes still there. */
  function ParseCount(data: seq<byte>, at: nat, minimum: nat): (r: Result<Parsed<nat>>)
    ensures r.Ok? ==> at + 8 == r.value.next <= |data|
    ensures r.Ok? && minimum > 0 ==> r.value.value * minimum <= |data| - r.value.next
  {
    var n :- ParseLe(data, at, 8);
    var room := (|data| - n.next) / (if minimum == 0 then 1 else minimum);
    if n.value > room then Err(Corrupt)
    else
      CountFits(n.value, room, minimum, |data| - n.next);
      Ok(n)
  }

  lemma CountFits(n: nat, room: nat, minimum: nat, rest: nat)
    requires minimum > 0 ==> n <= room == rest / minimum
    ensures minimum > 0 ==> n * minimum <= rest
  {
  }

  function ParseBytes(data: seq<byte>, at: nat): (r: Result<Parsed<seq<byte>>>)
    ensures r.Ok? ==> r.value.next == at + 8 + |r.value.value| <= |data|
  {
    var n :- ParseCount(data, at, 1);
    ParseTake(data, n.next, n.value)
  }

  /** `n` items one after the other; `item` reads one at an offset, given what was read before it. */
  function ParseMany<A>(item: (A, nat) -> Result<Parsed<A>>, at: nat, n: nat, acc: A): Result<Parsed<A>>
    decreases n
  {
    if n == 0 then Ok(Parsed(acc, at))
    else
      var one :- item(acc, at);
      ParseMany(item, one.next, n - 1, one.value)
  }

  /** Equality of what two parsers give; naming it keeps proofs from taking the values apart. */
  ghost predicate Same<A>(a: Result<Parsed<A>>, b: Result<Parsed<A>>) {
    a == b
  }

  ghost predicate Yields<A>(parsed: Result<Parsed<A>>, value: A, next: nat) {
    parsed == Ok(Parsed(value, next))
  }

  ghost predicate Gives<A>(item: (A, nat) -> Result<Parsed<A>>, at: nat, acc: A, one: Parsed<A>) {
    item(acc, at) == Ok(one)
  }

  ghost predicate GivesMany<A>(item: (A, nat) -> Result<Parsed<A>>, at: nat, n: nat, acc: A, all: Parsed<A>) {
    ParseMany(item, at, n, acc) == Ok(all)
  }

  lemma GivesNone<A>(item: (A, nat) -> Result<Parsed<A>>, at: nat, acc: A)
    ensures GivesMany(item, at, 0, acc, Parsed(acc, at))
  {
  }

  lemma GivesOneMore<A>(item: (A, nat) -> Result<Parsed<A>>, at: nat, n: nat, acc: A, one: Parsed<A>, all: Parsed<A>)
    requires Gives(item, at, acc, one) && GivesMany(item, one.next, n, one.value, all)
    ensures GivesMany(item, at, n + 1, acc, all)
  {
  }

  lemma ManyNext<A>(item: (A, nat) -> Result<Parsed<A>>, at: nat, n: nat, acc: A)
    requires n > 0
    ensures match item(acc, at)
            case Ok(one) => ParseMany(item, at, n, acc) == ParseMany(item, one.next, n - 1, one.value)
            case Err(e) => ParseMany(item, at, n, acc) == Err(e)
  {
  }

  function LengthPrefixed(bytes: seq<byte>): (r: seq<byte>)
    ensures |r| == 8 + |bytes|
  {
    Le(|bytes|, 8) + bytes
  }

  lemma LeParses(data: seq<byte>, at: nat, n: nat, width: nat)
    requires Holds(data, at, Le(n, width)) && n < Power(width)
    ensures ParseLe(data, at, width) == Ok(Parsed(n, at + width))
  {
    assert Stands(data, at, Le(n, width));
    NumberRoundTrip(data, at, n, width);
  }

  /** A count followed by that many items of at least `minimum` bytes. */
  lemma CountParses(data: seq<byte>, at: nat, n: nat, minimum: nat, items: seq<byte>)
    requires Holds(data, at, Le(n, 8) + items) && n <= U64_MAX && minimum > 0 && n * minimum <= |items|
    ensures ParseCount(data, at, minimum) == Ok(Parsed(n, at + 8)) && Holds(data, at + 8, items)
  {
    Widths();
    HoldsSplit(data, at, Le(n, 8), items);
    LeParses(data, at, n, 8);
    Quotient(n, minimum, |data| - (at + 8));
  }

  lemma Quotient(n: nat, minimum: nat, rest: nat)
    requires minimum > 0 && n * minimum <= rest
    ensures n <= rest / minimum
  {
    var q := rest / minimum;
    assert rest < (q + 1) * minimum;
    assert q < n ==> (n - q - 1) * minimum >= 0;
  }

  lemma BytesParse(data: seq<byte>, at: nat, bytes: seq<byte>)
    requires Holds(data, at, LengthPrefixed(bytes)) && |bytes| <= U64_MAX
    ensures ParseBytes(data, at) == Ok(Parsed(bytes, at + 8 + |bytes|))
  {
    CountParses(data, at, |bytes|, 1, bytes);
    assert Stands(data, at + 8, bytes);
  }

  lemma WordParses(data: seq<byte>, at: nat, n: nat, next: nat)
    requires Holds(data, at, Le(n, 8)) && n <= U64_MAX && next == at + 8
    ensures Yields<nat>(ParseLe(data, at, 8), n, next)
  {
    Widths();
    LeParses(data, at, n, 8);
  }

  lemma StringParses(data: seq<byte>, at: nat, bytes: seq<byte>, next: nat)
    requires Holds(data, at, LengthPrefixed(bytes)) && |bytes| <= U64_MAX && next == at + 8 + |bytes|
    ensures Yields<seq<byte>>(ParseBytes(data, at), bytes, next)
  {
    BytesParse(data, at, bytes);
  }

  class Encoder {
    var bytes: seq<byte>

    constructor ()
      ensures bytes == []
    {
      bytes := [];
    }

    method U8(v: byte)
      modifies this
      ensures bytes == old(bytes) + [v]
    {
      bytes := bytes + [v];
    }

    /** The u32 and u64 methods, by width. */
    method Unsigned(v: nat, width: nat)
      modifies this
      ensures bytes == old(bytes) + Le(v, width)
    {
      bytes := bytes + Le(v, width);
    }

    method Bytes(v: seq<byte>)
      modifies this
      ensures bytes == old(bytes) + LengthPrefixed(v)
    {
      Unsigned(|v|, 8);
      bytes := bytes + v;
    }
  }

  class Decoder {
    const data: seq<byte>
    var offset: nat

    constructor (data: seq<byte>)
      ensures this.data == data && offset == 0
    {
      this.data, offset := data, 0;
    }

    ghost predicate Valid()
      reads this
    {
      offset <= |data|
    }

    method Take(count: nat) returns (r: Result<seq<byte>>)
      requires Valid()
      modifies this
      ensures Valid() && Reads(old(offset), ParseTake(data, old(offset), count), r)
    {
      if offset + count > |data| {
        return Err(Corrupt);
      }
      r := Ok(data[offset..offset + count]);
      offset := offset + count;
    }

    method Unsigned(width: nat) returns (r: Result<nat>)
      requires Valid()
      modifies this
      ensures Valid() && Reads(old(offset), ParseLe(data, old(offset), width), r)
    {
      var taken :- Take(width);
      assert taken[0..0 + width] == taken;
      NumberMoved(taken, 0, data, old(offset), width);
      return Ok(FromLe(taken));
    }

    method Count(minimum: nat) returns (r: Result<nat>)
      requires Valid()
      modifies this
      ensures Valid() && Reads(old(offset), ParseCount(data, old(offset), minimum), r)
    {
      var n :- Unsigned(8);
      if n > (|data| - offset) / (if minimum == 0 then 1 else minimum) {
        return Err(Corrupt);
      }
      return Ok(n);
    }

    method Bytes() returns (r: Result<seq<byte>>)
      requires Valid()
      modifies this
      ensures Valid() && Reads(old(offset), ParseBytes(data, old(offset)), r)
    {
      var n :- Count(1);
      r := Take(n);
    }

    /** The decoder returned what stands at `start`, and has moved past it. */
    ghost predicate Reads<T(!new)>(start: nat, parsed: Result<Parsed<T>>, r: Result<T>)
      reads this
    {
      match parsed
      case Ok(p) => r == Ok(p.value) && offset == p.next
      case Err(e) => r == Err(e)
    }
  }
}

/** Counted lists of items, each encoded by `enc`. */
module ItemLists {
  import opened Results
  import opened LittleEndian
  import opened ByteStreams

  function ManyBytes<T>(enc: T -> seq<byte>, items: seq<T>): seq<byte> {
    if items == [] then [] else enc(items[0]) + ManyBytes(enc, items[1..])
  }

  function Sum<T>(length: T -> nat, items: seq<T>): nat {
    if items == [] then 0 else length(items[0]) + Sum(length, items[1..])
  }

  lemma {:induction false} SumOneMore<T(!new)>(length: T -> nat, items: seq<T>, item: T)
    ensures Sum(length, items + [item]) == Sum(length, items) + length(item)
  {
    if items != [] {
      assert (items + [item])[1..] == items[1..] + [item];
      SumOneMore(length, items[1..], item);
    }
  }

  /** Every item is `length` bytes, at least `minimum`. */
  ghost predicate Sized<T(!new)>(enc: T -> seq<byte>, length: T -> nat, minimum: nat) {
    forall x :: |enc(x)| == length(x) && length(x) >= minimum
  }

  lemma {:induction false} ManySized<T(!new)>(enc: T -> seq<byte>, length: T -> nat, minimum: nat, items: seq<T>)
    requires Sized(enc, length, minimum)
    ensures |ManyBytes(enc, items)| == Sum(length, items) >= |items| * minimum
  {
    if items != [] {
      ManySized(enc, length, minimum, items[1..]);
      assert |items| * minimum == |items[1..]| * minimum + minimum;
    }
  }

  /** Where item `k` of the list stands, `item` reads it after the ones before it. */
  ghost predicate ReadsItem<T>(
    item: (seq<T>, nat) -> Result<Parsed<seq<T>>>, enc: T -> seq<byte>, data: seq<byte>, items: seq<T>, k: nat,
    at: nat)
  {
    k < |items| && Holds(data, at, enc(items[k])) ==>
        Gives(item, at, items[..k], Parsed(items[..k] + [items[k]], at + |enc(items[k])|))
  }

  lemma ReadsGiven<T>(
    item: (seq<T>, nat) -> Result<Parsed<seq<T>>>, enc: T -> seq<byte>, data: seq<byte>, items: seq<T>, k: nat,
    at: nat, bytes: seq<byte>)
    requires k < |items| && bytes == enc(items[k])
    requires Holds(data, at, bytes) ==> Gives(item, at, items[..k], Parsed(items[..k] + [items[k]], at + |bytes|))
    ensures ReadsItem(item, enc, data, items, k, at)
  {
  }

  /** A list of encoded items parses back to itself. */
  lemma {:induction false} ManyParse<T(!new)>(
    item: (seq<T>, nat) -> Result<Parsed<seq<T>>>, enc: T -> seq<byte>, data: seq<byte>, items: seq<T>, k: nat,
    at: nat)
    requires k <= |items| && Holds(data, at, ManyBytes(enc, items[k..]))
    requires forall j: nat, x: nat :: ReadsItem(item, enc, data, items, j, x)
    ensures GivesMany(item, at, |items| - k, items[..k], Parsed(items, at + |ManyBytes(enc, items[k..])|))
    decreases |items| - k
  {
    if k == |items| {
      assert items[..k] == items;
      GivesNone(item, at, items);
    } else {
      var one := Parsed(items[..k] + [items[k]], at + |enc(items[k])|);
      assert items[k..][1..] == items[k + 1..] && items[..k] + [items[k]] == items[..k + 1];
      HoldsSplit(data, at, enc(items[k]), ManyBytes(enc, items[k + 1..]));
      assert ReadsItem(item, enc, data, items, k, at);
      ManyParse(item, enc, data, items, k + 1, one.next);
      GivesOneMore(item, at, |items| - k - 1, items[..k], one, Parsed(items, at + |ManyBytes(enc, items[k..])|));
    }
  }

  ghost predicate ReadsAll<T>(
    item: (seq<T>, nat) -> Result<Parsed<seq<T>>>, enc: T -> seq<byte>, data: seq<byte>, items: seq<T>)
  {
    forall k: nat, at: nat :: ReadsItem(item, enc, data, items, k, at)
  }

  lemma ManyParseAll<T(!new)>(
    item: (seq<T>, nat) -> Result<Parsed<seq<T>>>, enc: T -> seq<byte>, data: seq<byte>, items: seq<T>, at: nat,
    next: nat)
    requires Holds(data, at, ManyBytes(enc, items)) && ReadsAll(item, enc, data, items)
             && next == at + |ManyBytes(enc, items)|
    ensures GivesMany<seq<T>>(item, at, |items|, [], Parsed(items, next))
  {
    assert items[0..] == items && items[..0] == [];
    ManyParse(item, enc, data, items, 0, at);
  }

  lemma CountedItems<T(!new)>(
    enc: T -> seq<byte>, length: T -> nat, minimum: nat, data: seq<byte>, at: nat, items: seq<T>)
    requires Holds(data, at, Counted(enc, items)) && |items| <= U64_MAX && minimum > 0 && Sized(enc, length, minimum)
    ensures ParseCount(data, at, minimum) == Ok(Parsed(|items|, at + 8))
    ensures Holds(data, at + 8, ManyBytes(enc, items)) && |ManyBytes(enc, items)| == Sum(length, items)
  {
    ManySized(enc, length, minimum, items);
    CountParses(data, at, |items|, minimum, ManyBytes(enc, items));
  }

  function Counted<T>(enc: T -> seq<byte>, items: seq<T>): seq<byte> {
    Le(|items|, 8) + ManyBytes(enc, items)
  }

  function ParseCounted<T>(
    item: (seq<T>, nat) -> Result<Parsed<seq<T>>>, minimum: nat, data: seq<byte>, at: nat): Result<Parsed<seq<T>>>
  {
    var n :- ParseCount(data, at, minimum);
    ParseMany<seq<T>>(item, n.next, n.value, [])
  }

  /** A counted list stands at `at`, each item of it is one that `item` reads, and it ends before `next`. */
  ghost predicate Listed<T(!new)>(
    item: (seq<T>, nat) -> Result<Parsed<seq<T>>>, enc: T -> seq<byte>, length: T -> nat, minimum: nat,
    data: seq<byte>, at: nat, items: seq<T>, next: nat)
  {
    && Holds(data, at, Counted(enc, items)) && |items| <= U64_MAX && minimum > 0 && next == at + 8 + Sum(length, items)
    && Sized(enc, length, minimum) && ReadsAll(item, enc, data, items)
  }

  /** A counted list of encoded items parses back to itself. */
  lemma ListParses<T(!new)>(
    item: (seq<T>, nat) -> Result<Parsed<seq<T>>>, enc: T -> seq<byte>, length: T -> nat, minimum: nat,
    data: seq<byte>, at: nat, items: seq<T>, next: nat)
    requires Listed(item, enc, length, minimum, data, at, items, next)
    ensures Yields<seq<T>>(ParseCounted(item, minimum, data, at), items, next)
  {
    CountedItems(enc, length, minimum, data, at, items);
    ManyParseAll(item, enc, data, items, at + 8, next);
    CountedYields(item, minimum, data, at, |items|, items, next);
  }

  lemma CountedYields<T>(
    item: (seq<T>, nat) -> Result<Parsed<seq<T>>>, minimum: nat, data: seq<byte>, at: nat, n: nat, items: seq<T>,
    next: nat)
    requires ParseCount(data, at, minimum) == Ok(Parsed(n, at + 8))
    requires GivesMany<seq<T>>(item, at + 8, n, [], Parsed(items, next))
    ensures Yields<seq<T>>(ParseCounted(item, minimum, data, at), items, next)
  {
  }

  /** The same, when only the items of this list are known to be long enough. */
  lemma CountedParses<T(!new)>(
    item: (seq<T>, nat) -> Result<Parsed<seq<T>>>, enc: T -> seq<byte>, minimum: nat, data: seq<byte>, at: nat,
    items: seq<T>, next: nat)
    requires Holds(data, at, Counted(enc, items)) && |items| <= U64_MAX && minimum > 0
    requires |items| * minimum <= |ManyBytes(enc, items)| && next == at + |Counted(enc, items)|
    requires ReadsAll(item, enc, data, items)
    ensures Yields<seq<T>>(ParseCounted(item, minimum, data, at), items, next)
  {
    CountParses(data, at, |items|, minimum, ManyBytes(enc, items));
    ManyParseAll(item, enc, data, items, at + 8, next);
    CountedYields(item, minimum, data, at, |items|, items, next);
  }

  lemma {:induction false} ManyAtLeast<T>(enc: T -> seq<byte>, minimum: nat, items: seq<T>)
    requires forall i :: 0 <= i < |items| ==> |enc(items[i])| >= minimum
    ensures |items| * minimum <= |ManyBytes(enc, items)|
  {
    if items != [] {
      ManyAtLeast(enc, minimum, items[1..]);
      assert |items| * minimum == |items[1..]| * minimum + minimum;
    }
  }

  /** What `item` adds takes exactly its length. */
  ghost predicate TakesItem<T>(item: (seq<T>, nat) -> Result<Parsed<seq<T>>>, length: T -> nat, acc: seq<T>, at: nat) {
    match item(acc, at)
    case Ok(one) => |one.value| == |acc| + 1 && one.value[..|acc|] == acc && one.next == at + length(one.value[|acc|])
    case Err(_) => true
  }

  lemma {:induction false} ManyTake<T(!new)>(
    item: (seq<T>, nat) -> Result<Parsed<seq<T>>>, length: T -> nat, at: nat, n: nat, acc: seq<T>)
    requires forall before: seq<T>, x: nat :: TakesItem(item, length, before, x)
    requires ParseMany(item, at, n, acc).Ok?
    ensures var all := ParseMany(item, at, n, acc).value;
            |all.value| == |acc| + n && all.value[..|acc|] == acc && all.next == at + Sum(length, all.value[|acc|..])
    decreases n
  {
    var all := ParseMany(item, at, n, acc).value;
    if n == 0 {
      assert all.value[|acc|..] == [];
    } else {
      assert TakesItem(item, length, acc, at);
      var one := item(acc, at).value;
      ManyTake(item, length, one.next, n - 1, one.value);
      assert all.value[..|acc|] == all.value[..|acc| + 1][..|acc|] == acc;
      assert all.value[|acc|..][1..] == all.value[|acc| + 1..];
      assert all.value[|acc|] == all.value[..|acc| + 1][|acc|];
    }
  }
}

/** The members of a set of identifiers in some order, each once. */
module Listings {

  /** Each member once; a quantifier keeps the multisets out of proofs that only pass this on. */
  ghost predicate Lists(ids: seq<nat>, s: set<nat>) {
    forall same: seq<nat> :: same == ids ==> Permutes(same, s)
  }

  ghost predicate Permutes(ids: seq<nat>, s: set<nat>) {
    Distinct(ids) && multiset(ids) == multiset(s)
  }

  predicate Distinct(ids: seq<nat>) {
    forall i, j :: 0 <= i < j < |ids| ==> ids[i] != ids[j]
  }

  lemma Members(ids: seq<nat>, s: set<nat>)
    requires Lists(ids, s)
    ensures forall id :: id in s <==> id in ids
    ensures |ids| == |s| && Distinct(ids)
  {
    assert Permutes(ids, s);
    assert forall id :: id in ids <==> id in multiset(ids);
    assert |multiset(ids)| == |ids| && |multiset(s)| == |s|;
  }

  /** The ascending order in which a BTreeMap yields its keys. */
  function Sorted(s: set<nat>): (ids: seq<nat>)
    ensures Lists(ids, s) && |ids| == |s|
    ensures forall i, j :: 0 <= i < j < |ids| ==> ids[i] < ids[j]
    ensures forall i :: 0 <= i < |ids| ==> ids[i] in s
  {
    if s == {} then assert Permutes([], s); []
    else
      var least := Least(s);
      var rest := Sorted(s - {least});
      assert multiset([least] + rest) == multiset(s) by {
        assert Permutes(rest, s - {least});
        assert multiset(s) == multiset{least} + multiset(s - {least});
      }
      assert Permutes([least] + rest, s);
      [least] + rest
  }

  function Least(s: set<nat>): (least: nat)
    requires s != {}
    ensures least in s && forall other :: other in s ==> least <= other
  {
    LeastExists(s);
    var least :| least in s && forall other :: other in s ==> least <= other;
    least
  }

  lemma {:induction false} LeastBelow(s: set<nat>, some: nat)
    requires some in s
    ensures exists least :: least in s && forall other :: other in s ==> least <= other
  {
    if other :| other in s && other < some {
      LeastBelow(s, other);
    }
  }

  lemma LeastExists(s: set<nat>)
    requires s != {}
    ensures exists least :: least in s && forall other :: other in s ==> least <= other
  {
    var some :| some in s;
    LeastBelow(s, some);
  }

  lemma ListsWithout(ids: seq<nat>, s: set<nat>, i: nat)
    requires Lists(ids, s) && i < |ids|
    ensures Lists(ids[..i] + ids[i + 1..], s - {ids[i]})
  {
    var without := ids[..i] + ids[i + 1..];
    assert Permutes(ids, s);
    assert ids == ids[..i] + [ids[i]] + ids[i + 1..];
    assert forall j :: 0 <= j < |without| ==> without[j] == ids[if j < i then j else j + 1];
    assert multiset(s - {ids[i]}) == multiset(s) - multiset{ids[i]};
    assert Permutes(without, s - {ids[i]});
  }

  lemma OneListed(id: nat, rest: seq<nat>, all: set<nat>, before: set<nat>)
    requires Lists(rest, all - (before + {id})) && id in all && id !in before
    ensures Lists([id] + rest, all - before)
  {
    Members(rest, all - (before + {id}));
    assert Permutes(rest, all - (before + {id}));
    assert all - before == {id} + (all - (before + {id}));
    assert multiset(all - before) == multiset{id} + multiset(all - (before + {id}));
    assert Permutes([id] + rest, all - before);
  }
}

/**
 Encodings of values and rows (model.rs), and their exact lengths.

 `Encodable...` predicates collect what the program's types and its validation guarantee; for those
 values decoding what was encoded gives the value back, wherever it stands in the input.
 */
module RowCodecs {
  import opened Results
  import opened LittleEndian
  import opened ByteStreams
  import opened Listings
  import opened Model

  // ----- values and rows -----

  const TWO63: int := 0x8000_0000_0000_0000

  /** The 64 bits of a signed integer, and back. */
  function Unsigned(i: int): nat {
    if i < 0 then (if -2 * TWO63 <= i then i + 2 * TWO63 else 0) else i
  }

  function Signed(n: nat): int {
    if n < TWO63 then n else n - 2 * TWO63
  }

  predicate EncodableValue(value: Value) {
    match value
    case Null => true
    case Bool(_) => true
    case Int64(i) => -TWO63 <= i < TWO63
    case UInt64(u) => u <= U64_MAX
    case Float64(bits) => bits <= U64_MAX && Finite(bits)
    case Text(text) => |text| <= U64_MAX
    case Bytes(bytes) => |bytes| <= U64_MAX
  }

  function ValueBytes(value: Value): (r: seq<byte>)
    ensures |r| == 1 + ValueLength(value)
  {
    match value
    case Null => [0]
    case Bool(b) => [1, if b then 1 else 0]
    case Int64(i) => [2] + Le(Unsigned(i), 8)
    case UInt64(u) => [3] + Le(u, 8)
    case Float64(bits) => [4] + Le(bits, 8)
    case Text(text) => [5] + LengthPrefixed(text)
    case Bytes(bytes) => [6] + LengthPrefixed(bytes)
  }

  function ParseFlag(data: seq<byte>, at: nat): (r: Result<Parsed<bool>>)
    ensures r.Ok? ==> at + 1 == r.value.next <= |data|
  {
    var n :- ParseLe(data, at, 1);
    if n.value == 0 then Ok(Parsed(false, n.next)) else if n.value == 1 then Ok(Parsed(true, n.next)) else Err(Corrupt)
  }

  function ParseValue(data: seq<byte>, at: nat): (r: Result<Parsed<Value>>)
    ensures r.Ok? ==> r.value.next == at + 1 + ValueLength(r.value.value) <= |data|
  {
    var tag :- ParseLe(data, at, 1);
    match tag.value
    case 0 => Ok(Parsed(Null, tag.next))
    case 1 => var b :- ParseFlag(data, tag.next); Ok(Parsed(Bool(b.value), b.next))
    case 2 => var n :- ParseLe(data, tag.next, 8); Ok(Parsed(Int64(Signed(n.value)), n.next))
    case 3 => var n :- ParseLe(data, tag.next, 8); Ok(Parsed(UInt64(n.value), n.next))
    case 4 => var n :- ParseLe(data, tag.next, 8); if Finite(n.value) then Ok(Parsed(Float64(n.value), n.next))
        else Err(Corrupt)
    case 5 => var t :- ParseBytes(data, tag.next); Ok(Parsed(Text(t.value), t.next))
    case 6 => var t :- ParseBytes(data, tag.next); Ok(Parsed(Value.Bytes(t.value), t.next))
    case _ => Err(Corrupt)
  }

  lemma TagParses(data: seq<byte>, at: nat, tag: byte, rest: seq<byte>)
    requires Holds(data, at, [tag] + rest)
    ensures ParseLe(data, at, 1) == Ok(Parsed(tag as nat, at + 1)) && Holds(data, at + 1, rest)
  {
    assert Power(1) == 256 * Power(0);
    assert Le(tag as nat, 1) == [tag] + Le(0, 0) == [tag];
    HoldsSplit(data, at, [tag], rest);
    LeParses(data, at, tag as nat, 1);
  }

  lemma FlagParses(data: seq<byte>, at: nat, b: bool, rest: seq<byte>)
    requires Holds(data, at, [if b then 1 else 0] + rest)
    ensures ParseFlag(data, at) == Ok(Parsed(b, at + 1)) && Holds(data, at + 1, rest)
  {
    TagParses(data, at, if b then 1 else 0, rest);
  }

  lemma ValueParses(data: seq<byte>, at: nat, value: Value)
    requires Holds(data, at, ValueBytes(value)) && EncodableValue(value)
    ensures ParseValue(data, at) == Ok(Parsed(value, at + |ValueBytes(value)|))
  {
    Widths();
    TagParses(data, at, ValueBytes(value)[0], ValueBytes(value)[1..]);
    assert ValueBytes(value) == [ValueBytes(value)[0]] + ValueBytes(value)[1..];
    match value
    case Null =>
    case Bool(b) => FlagParses(data, at + 1, b, []);
    case Int64(i) => LeParses(data, at + 1, Unsigned(i), 8);
    case UInt64(u) => LeParses(data, at + 1, u, 8);
    case Float64(bits) => LeParses(data, at + 1, bits, 8);
    case Text(text) => BytesParse(data, at + 1, text);
    case Bytes(bytes) => BytesParse(data, at + 1, bytes);
  }

  // A row's entries stand in the order of their field identifiers.

  ghost predicate EncodableRow(row: Fields) {
    |row| <= 4096 && forall same: Fields :: same == row ==> Encodable(same)
  }

  predicate Encodable(row: Fields) {
    forall id :: id in row ==> id < 0x1_0000_0000 && EncodableValue(row[id])
  }

  predicate Within(ids: seq<nat>, row: Fields) {
    forall i :: 0 <= i < |ids| ==> ids[i] in row
  }

  function EntryBytes(id: nat, value: Value): (r: seq<byte>)
    ensures |r| == 5 + ValueLength(value)
  {
    Le(id, 4) + ValueBytes(value)
  }

  function EntriesBytes(ids: seq<nat>, row: Fields): (r: seq<byte>)
    requires Within(ids, row)
    ensures |r| == EntriesLength(ids, row)
  {
    if ids == [] then [] else EntryBytes(ids[0], row[ids[0]]) + EntriesBytes(ids[1..], row)
  }

  function EntriesLength(ids: seq<nat>, row: Fields): (r: nat)
    requires Within(ids, row)
    ensures r >= 5 * |ids|
  {
    if ids == [] then 0 else 5 + ValueLength(row[ids[0]]) + EntriesLength(ids[1..], row)
  }

  /** encode_fields; its length is fields_encoded_len. */
  function RowBytes(row: Fields): (r: seq<byte>)
    ensures |r| == 8 + EntriesLength(Sorted(row.Keys), row)
  {
    Le(|row|, 8) + EntriesBytes(Sorted(row.Keys), row)
  }

  /** One entry, which must not repeat a field of `acc`. */
  function ParseEntry(data: seq<byte>, acc: Fields, at: nat): (r: Result<Parsed<Fields>>)
    ensures r.Ok? ==> at <= r.value.next <= |data|
  {
    var id :- ParseLe(data, at, 4);
    var value :- ParseValue(data, id.next);
    if id.value in acc then Err(Corrupt) else Ok(Parsed(acc[id.value := value.value], value.next))
  }

  function EntryItem(data: seq<byte>): (Fields, nat) -> Result<Parsed<Fields>> {
    (acc, at) => ParseEntry(data, acc, at)
  }

  ghost predicate IsEntryItem(item: (Fields, nat) -> Result<Parsed<Fields>>, data: seq<byte>) {
    forall same: seq<byte> :: same == data ==> item == EntryItem(same)
  }

  function ParseRow(data: seq<byte>, at: nat): Result<Parsed<Fields>> {
    var n :- ParseCount(data, at, 5);
    if n.value > 4096 then Err(Corrupt) else ParseMany<Fields>(EntryItem(data), n.next, n.value, map[])
  }

  /** `acc` with the entries of `ids` put in. */
  function With(acc: Fields, ids: seq<nat>, row: Fields): Fields
    requires Within(ids, row)
    decreases |ids|
  {
    if ids == [] then acc else With(acc[ids[0] := row[ids[0]]], ids[1..], row)
  }

  lemma {:induction false} WithMeans(acc: Fields, ids: seq<nat>, row: Fields, id: nat)
    requires Within(ids, row)
    ensures id in With(acc, ids, row) <==> id in acc || id in ids
    ensures id in ids ==> With(acc, ids, row)[id] == row[id]
    ensures id in acc && id !in ids ==> With(acc, ids, row)[id] == acc[id]
    decreases |ids|
  {
    if ids != [] {
      WithMeans(acc[ids[0] := row[ids[0]]], ids[1..], row, id);
    }
  }

  /** The entries of `ids` stand at `at`, none of them read before. */
  ghost predicate Ready(data: seq<byte>, at: nat, ids: seq<nat>, row: Fields, acc: Fields) {
    at <= |data| && forall same: Fields :: same == row ==> Stand(data, at, ids, same, acc)
  }

  ghost predicate Stand(data: seq<byte>, at: nat, ids: seq<nat>, row: Fields, acc: Fields) {
    && Within(ids, row) && Holds(data, at, EntriesBytes(ids, row)) && EncodableRow(row)
    && Distinct(ids) && forall i :: 0 <= i < |ids| ==> ids[i] !in acc
  }

  lemma ReadyNext(
    item: (Fields, nat) -> Result<Parsed<Fields>>, data: seq<byte>, at: nat, ids: seq<nat>, row: Fields, acc: Fields)
    requires IsEntryItem(item, data) && Ready(data, at, ids, row, acc) && Within(ids, row) && ids != []
    ensures Gives<Fields>(item, at, acc, Parsed(acc[ids[0] := row[ids[0]]], at + 5 + ValueLength(row[ids[0]])))
    ensures Ready(data, at + 5 + ValueLength(row[ids[0]]), ids[1..], row, acc[ids[0] := row[ids[0]]])
  {
    assert Stand(data, at, ids, row, acc) && Encodable(row);
    EntryStands(data, at, ids[0], row[ids[0]], EntriesBytes(ids[1..], row));
    EntryItemParses(item, data, at, ids[0], row[ids[0]], acc);
    StandNext(data, at, ids, row, acc);
  }

  lemma EntryItemParses(
    item: (Fields, nat) -> Result<Parsed<Fields>>, data: seq<byte>, at: nat, id: nat, value: Value, acc: Fields)
    requires IsEntryItem(item, data) && id !in acc && id < 0x1_0000_0000 && EncodableValue(value)
    requires Holds(data, at, Le(id, 4)) && Holds(data, at + 4, ValueBytes(value))
    ensures Gives<Fields>(item, at, acc, Parsed(acc[id := value], at + 5 + ValueLength(value)))
  {
    EntryParses(data, at, id, value);
    assert item == EntryItem(data);
  }

  lemma StandNext(data: seq<byte>, at: nat, ids: seq<nat>, row: Fields, acc: Fields)
    requires Stand(data, at, ids, row, acc) && ids != []
    requires Holds(data, at + 5 + ValueLength(row[ids[0]]), EntriesBytes(ids[1..], row))
    ensures Ready(data, at + 5 + ValueLength(row[ids[0]]), ids[1..], row, acc[ids[0] := row[ids[0]]])
  {
    assert Stand(data, at + 5 + ValueLength(row[ids[0]]), ids[1..], row, acc[ids[0] := row[ids[0]]]);
  }

  /** The same, with the end of the entries named. */
  lemma EntriesParseTo(
    item: (Fields, nat) -> Result<Parsed<Fields>>, data: seq<byte>, at: nat, ids: seq<nat>, row: Fields, next: nat)
    requires IsEntryItem(item, data) && Ready(data, at, ids, row, map[]) && Within(ids, row)
    requires With(map[], ids, row) == row && next == at + EntriesLength(ids, row)
    ensures GivesMany<Fields>(item, at, |ids|, map[], Parsed(row, next))
  {
    EntriesParse(item, data, at, ids, row, map[]);
  }

  lemma {:induction false} EntriesParse(
    item: (Fields, nat) -> Result<Parsed<Fields>>, data: seq<byte>, at: nat, ids: seq<nat>, row: Fields, acc: Fields)
    requires IsEntryItem(item, data) && Ready(data, at, ids, row, acc) && Within(ids, row)
    ensures GivesMany<Fields>(item, at, |ids|, acc, Parsed(With(acc, ids, row), at + EntriesLength(ids, row)))
    decreases |ids|
  {
    if ids == [] {
      GivesNone(item, at, acc);
    } else {
      var one := Parsed(acc[ids[0] := row[ids[0]]], at + 5 + ValueLength(row[ids[0]]));
      ReadyNext(item, data, at, ids, row, acc);
      EntriesParse(item, data, one.next, ids[1..], row, one.value);
      GivesOneMore(item, at, |ids| - 1, acc, one, Parsed(With(acc, ids, row), at + EntriesLength(ids, row)));
    }
  }

  lemma EntryStands(data: seq<byte>, at: nat, id: nat, value: Value, rest: seq<byte>)
    requires Holds(data, at, EntryBytes(id, value) + rest)
    ensures Holds(data, at, Le(id, 4)) && Holds(data, at + 4, ValueBytes(value))
    ensures Holds(data, at + 5 + ValueLength(value), rest)
  {
    HoldsSplit(data, at, EntryBytes(id, value), rest);
    HoldsSplit(data, at, Le(id, 4), ValueBytes(value));
  }

  lemma EntryParses(data: seq<byte>, at: nat, id: nat, value: Value)
    requires Holds(data, at, Le(id, 4)) && Holds(data, at + 4, ValueBytes(value)) && id < 0x1_0000_0000
             && EncodableValue(value)
    ensures ParseLe(data, at, 4) == Ok(Parsed(id, at + 4))
    ensures ParseValue(data, at + 4) == Ok(Parsed(value, at + 5 + ValueLength(value)))
  {
    Widths();
    LeParses(data, at, id, 4);
    ValueParses(data, at + 4, value);
  }

  /** Decoding an encoded row gives it back. */
  lemma RowParses(data: seq<byte>, at: nat, row: Fields, next: nat)
    requires Holds(data, at, RowBytes(row)) && EncodableRow(row) && next == at + |RowBytes(row)|
    ensures Yields<Fields>(ParseRow(data, at), row, next)
  {
    RowParsesIn(data, at, at + 8, Sorted(row.Keys), row, next);
  }

  lemma RowParsesIn(data: seq<byte>, at: nat, start: nat, ids: seq<nat>, row: Fields, next: nat)
    requires EncodableRow(row) && Lists(ids, row.Keys) && |ids| == |row| && Within(ids, row)
    requires Holds(data, at, Le(|row|, 8) + EntriesBytes(ids, row))
    requires start == at + 8 && next == start + EntriesLength(ids, row)
    ensures Yields<Fields>(ParseRow(data, at), row, next)
  {
    RowCountParses(data, at, start, ids, row);
    EntriesGive(EntryItem(data), data, start, ids, row, next);
    RowGiven(EntryItem(data), data, at, start, |ids|, row, next);
  }

  lemma RowCountParses(data: seq<byte>, at: nat, start: nat, ids: seq<nat>, row: Fields)
    requires |row| <= 4096 && |ids| == |row| && start == at + 8
    requires Within(ids, row) && Holds(data, at, Le(|row|, 8) + EntriesBytes(ids, row))
    ensures Yields<nat>(ParseCount(data, at, 5), |ids|, start) && Holds(data, start, EntriesBytes(ids, row))
  {
    CountParses(data, at, |row|, 5, EntriesBytes(ids, row));
  }

  lemma EntriesGive(
    item: (Fields, nat) -> Result<Parsed<Fields>>, data: seq<byte>, at: nat, ids: seq<nat>, row: Fields, next: nat)
    requires IsEntryItem(item, data) && EncodableRow(row) && Lists(ids, row.Keys)
    requires Within(ids, row) && Holds(data, at, EntriesBytes(ids, row)) && next == at + EntriesLength(ids, row)
    ensures GivesMany<Fields>(item, at, |ids|, map[], Parsed(row, next))
  {
    ReadyFirst(data, at, ids, row);
    OnlyAll(ids, row);
    EntriesParseTo(item, data, at, ids, row, next);
  }

  lemma ReadyFirst(data: seq<byte>, at: nat, ids: seq<nat>, row: Fields)
    requires EncodableRow(row) && Lists(ids, row.Keys) && Within(ids, row) && Holds(data, at, EntriesBytes(ids, row))
    ensures Ready(data, at, ids, row, map[])
  {
    Members(ids, row.Keys);
    assert Stand(data, at, ids, row, map[]);
  }

  lemma OnlyAll(ids: seq<nat>, row: Fields)
    requires Lists(ids, row.Keys) && Within(ids, row)
    ensures With(map[], ids, row) == row
  {
    Members(ids, row.Keys);
    forall id: nat ensures id in With(map[], ids, row) <==> id in row
                   ensures id in row ==> With(map[], ids, row)[id] == row[id] {
      WithMeans(map[], ids, row, id);
    }
  }

  lemma RowGiven(
    item: (Fields, nat) -> Result<Parsed<Fields>>, data: seq<byte>, at: nat, start: nat, n: nat, row: Fields, next: nat)
    requires Yields<nat>(ParseCount(data, at, 5), n, start) && n <= 4096 && IsEntryItem(item, data)
    requires GivesMany<Fields>(item, start, n, map[], Parsed(row, next))
    ensures Yields<Fields>(ParseRow(data, at), row, next)
  {
    assert item == EntryItem(data);
  }

  lemma EntryStood(item: (Fields, nat) -> Result<Parsed<Fields>>, data: seq<byte>, at: nat, acc: Fields)
    returns (id: nat, value: Value)
    requires IsEntryItem(item, data) && item(acc, at).Ok?
    ensures id !in acc && item(acc, at) == Ok(Parsed(acc[id := value], at + 5 + ValueLength(value)))
  {
    assert item == EntryItem(data);
    id := ParseLe(data, at, 4).value.value;
    value := ParseValue(data, at + 4).value.value;
  }

  /** A decoded row stood there as its entries in some order, each once. */
  lemma {:induction false} EntriesStood(
    item: (Fields, nat) -> Result<Parsed<Fields>>, data: seq<byte>, at: nat, n: nat, acc: Fields)
    returns (ids: seq<nat>)
    requires IsEntryItem(item, data) && ParseMany<Fields>(item, at, n, acc).Ok?
    ensures var p := ParseMany<Fields>(item, at, n, acc).value;
            && Lists(ids, p.value.Keys - acc.Keys)
            && (forall id :: id in acc ==> id in p.value && p.value[id] == acc[id])
            && Within(ids, p.value) && p.next == at + EntriesLength(ids, p.value)
    decreases n
  {
    if n == 0 {
      assert Sorted({}) == [];
      return [];
    }
    var id, value := EntryStood(item, data, at, acc);
    var more := acc[id := value];
    var rest := EntriesStood(item, data, at + 5 + ValueLength(value), n - 1, more);
    assert more.Keys == acc.Keys + {id};
    OneListed(id, rest, ParseMany<Fields>(item, at, n, acc).value.value.Keys, acc.Keys);
    ids := [id] + rest;
    assert ids[1..] == rest;
  }

  lemma {:induction false} LengthWithout(ids: seq<nat>, row: Fields, i: nat)
    requires Within(ids, row) && i < |ids|
    ensures Within(ids[..i] + ids[i + 1..], row)
    ensures EntriesLength(ids, row) == EntriesLength(ids[..i] + ids[i + 1..], row) + 5 + ValueLength(row[ids[i]])
  {
    var without := ids[..i] + ids[i + 1..];
    if i > 0 {
      LengthWithout(ids[1..], row, i - 1);
      assert without[1..] == ids[1..][..i - 1] + ids[1..][i..];
    } else {
      assert without == ids[1..];
    }
  }

  /** The length does not depend on the order. */
  lemma {:induction false} SameLength(a: seq<nat>, b: seq<nat>, s: set<nat>, row: Fields)
    requires Lists(a, s) && Lists(b, s) && Within(a, row) && Within(b, row)
    ensures EntriesLength(a, row) == EntriesLength(b, row)
  {
    Members(a, s);
    Members(b, s);
    if a != [] {
      assert a[0] in s && a[0] in b;
      var i :| 0 <= i < |b| && b[i] == a[0];
      var others := s - {b[i]};
      LengthWithout(b, row, i);
      ListsWithout(b, s, i);
      assert Lists(a[1..], others) by {
        ListsWithout(a, s, 0);
        assert a[..0] + a[1..] == a[1..];
      }
      SameLength(a[1..], b[..i] + b[i + 1..], others, row);
    }
  }

  /** Whatever order its entries stood in, a decoded row took exactly its encoded length. */
  lemma RowTakes(data: seq<byte>, at: nat)
    requires ParseRow(data, at).Ok?
    ensures ParseRow(data, at).value.next == at + |RowBytes(ParseRow(data, at).value.value)|
  {
    var n := ParseCount(data, at, 5).value;
    var row := ParseRow(data, at).value.value;
    var ids := EntriesStood(EntryItem(data), data, n.next, n.value, map[]);
    var none: Fields := map[];
    assert row.Keys - none.Keys == row.Keys;
    SameLength(ids, Sorted(row.Keys), row.Keys, row);
  }

  method EncodeValue(value: Value, e: Encoder)
    modifies e
    ensures e.bytes == old(e.bytes) + ValueBytes(value)
  {
    ghost var before := e.bytes;
    match value {
      case Null => e.U8(0);
      case Bool(b) =>
        e.U8(1);
        e.U8(if b then 1 else 0);
        Appended(before, [1], [if b then 1 else 0]);
      case Int64(i) =>
        e.U8(2);
        e.Unsigned(Unsigned(i), 8);
        Appended(before, [2], Le(Unsigned(i), 8));
      case UInt64(u) =>
        e.U8(3);
        e.Unsigned(u, 8);
        Appended(before, [3], Le(u, 8));
      case Float64(bits) =>
        e.U8(4);
        e.Unsigned(bits, 8);
        Appended(before, [4], Le(bits, 8));
      case Text(text) =>
        e.U8(5);
        e.Bytes(text);
        Appended(before, [5], LengthPrefixed(text));
      case Bytes(bytes) =>
        e.U8(6);
        e.Bytes(bytes);
        Appended(before, [6], LengthPrefixed(bytes));
    }
  }

  lemma Appended(before: seq<byte>, a: seq<byte>, b: seq<byte>)
    ensures before + a + b == before + (a + b)
  {
  }

  method EncodeFields(row: Fields, e: Encoder)
    modifies e
    ensures e.bytes == old(e.bytes) + RowBytes(row)
  {
    e.Unsigned(|row|, 8);
    Appended(old(e.bytes), Le(|row|, 8), EntriesBytes(Sorted(row.Keys), row));
    EncodeEntries(Sorted(row.Keys), row, e);
  }

  method EncodeEntries(ids: seq<nat>, row: Fields, e: Encoder)
    requires Within(ids, row)
    modifies e
    ensures e.bytes == old(e.bytes) + EntriesBytes(ids, row)
  {
    for i := 0 to |ids|
      invariant e.bytes + EntriesBytes(ids[i..], row) == old(e.bytes) + EntriesBytes(ids, row)
    {
      EncodeEntry(ids[i], row[ids[i]], EntriesBytes(ids[i + 1..], row), e);
      assert ids[i..][1..] == ids[i + 1..];
    }
  }

  method EncodeEntry(id: nat, value: Value, ghost later: seq<byte>, e: Encoder)
    modifies e
    ensures e.bytes == old(e.bytes) + EntryBytes(id, value)
    ensures e.bytes + later == old(e.bytes) + (EntryBytes(id, value) + later)
  {
    e.Unsigned(id, 4);
    EncodeValue(value, e);
    Appended(old(e.bytes), Le(id, 4), ValueBytes(value));
  }

  method DecodeValue(d: Decoder) returns (r: Result<Value>)
    requires d.Valid()
    modifies d
    ensures d.Valid() && d.Reads(old(d.offset), ParseValue(d.data, old(d.offset)), r)
  {
    var tag :- d.Unsigned(1);
    match tag {
      case 0 => return Ok(Null);
      case 1 =>
        var b :- DecodeFlag(d);
        return Ok(Bool(b));
      case 2 =>
        var n :- d.Unsigned(8);
        return Ok(Int64(Signed(n)));
      case 3 =>
        var n :- d.Unsigned(8);
        return Ok(UInt64(n));
      case 4 =>
        var n :- d.Unsigned(8);
        if !Finite(n) {
          return Err(Corrupt);
        }
        return Ok(Float64(n));
      case 5 =>
        var text :- d.Bytes();
        return Ok(Text(text));
      case 6 =>
        var bytes :- d.Bytes();
        return Ok(Value.Bytes(bytes));
      case _ => return Err(Corrupt);
    }
  }

  method DecodeFlag(d: Decoder) returns (r: Result<bool>)
    requires d.Valid()
    modifies d
    ensures d.Valid() && d.Reads(old(d.offset), ParseFlag(d.data, old(d.offset)), r)
  {
    var n :- d.Unsigned(1);
    match n {
      case 0 => return Ok(false);
      case 1 => return Ok(true);
      case _ => return Err(Corrupt);
    }
  }

  method DecodeFields(d: Decoder) returns (r: Result<Fields>)
    requires d.Valid()
    modifies d
    ensures d.Valid() && d.Reads(old(d.offset), ParseRow(d.data, old(d.offset)), r)
  {
    var n :- d.Count(5);
    if n > 4096 {
      return Err(Corrupt);
    }
    r := DecodeEntries(d, n, EntryItem(d.data));
  }

  method DecodeEntries(d: Decoder, n: nat, ghost item: (Fields, nat) -> Result<Parsed<Fields>>)
    returns (r: Result<Fields>)
    requires d.Valid() && IsEntryItem(item, d.data)
    modifies d
    ensures d.Valid() && d.Reads(old(d.offset), ParseMany<Fields>(item, old(d.offset), n, map[]), r)
  {
    var row: Fields := map[];
    for i := 0 to n
      invariant d.Valid()
      invariant Same<Fields>(ParseMany<Fields>(item, d.offset, n - i, row),
                ParseMany<Fields>(item, old(d.offset), n, map[]))
    {
      ManyNext<Fields>(item, d.offset, n - i, row);
      row :- DecodeEntry(d, row, item);
    }
    return Ok(row);
  }

  method DecodeEntry(d: Decoder, acc: Fields, ghost item: (Fields, nat) -> Result<Parsed<Fields>>)
    returns (r: Result<Fields>)
    requires d.Valid() && IsEntryItem(item, d.data)
    modifies d
    ensures d.Valid() && d.Reads(old(d.offset), item(acc, old(d.offset)), r)
  {
    assert item == EntryItem(d.data);
    var id :- d.Unsigned(4);
    var value :- DecodeValue(d);
    if id in acc {
      return Err(Corrupt);
    }
    return Ok(acc[id := value]);
  }
}
