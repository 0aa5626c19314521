/** How many keys a map sends to one value. */
module Counting {
  function Keys(m: map<nat, nat>, value: nat): set<nat> {
    set key | key in m && m[key] == value
  }

  function CountAt(m: map<nat, nat>, value: nat): nat {
    |Keys(m, value)|
  }

  lemma CountOneMore(m: map<nat, nat>, key: nat, value: nat, other: nat)
    requires key !in m
    ensures CountAt(m[key := value], other) == CountAt(m, other) + if other == value then 1 else 0
  {
    KeysOneMore(m, key, value, other);
    assert key !in Keys(m, other);
  }

  lemma KeysOneMore(m: map<nat, nat>, key: nat, value: nat, other: nat)
    requires key !in m
    ensures Keys(m[key := value], other) == Keys(m, other) + if other == value then {key} else {}
  {
  }

  lemma CountUnion(m: map<nat, nat>, n: map<nat, nat>, value: nat)
    requires m.Keys !! n.Keys
    ensures CountAt(m + n, value) == CountAt(m, value) + CountAt(n, value)
  {
    assert Keys(m + n, value) == Keys(m, value) + Keys(n, value);
    assert Keys(m, value) !! Keys(n, value);
  }

  lemma CountNone(value: nat)
    ensures CountAt(map[], value) == 0
  {
    assert Keys(map[], value) == {};
  }
}
