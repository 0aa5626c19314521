/**
 The commit queue (commit_queue.rs, and Leadership in shared.rs).

 Writers submit requests; one of them becomes leader, claims a group, and answers it -- with results
 or, when it fails, with an error for everybody it claimed.  `claimed` and `answered` are history
 variables: the requests the leader holds, and those that already have their result.
 */
module CommitQueues {
  import opened Results

  datatype Outcome = Committed(sequence: nat) | Conflict | DeadlineExceeded | NeedsRecovery

  class Ticket {
    var batch: bool
    var result: Option<Outcome>
    const bytes: nat

    constructor (bytes: nat)
      ensures batch && result.None? && this.bytes == bytes
    {
      batch, result, this.bytes := true, None, bytes;
    }
  }

  function Bytes(tickets: seq<Ticket>): nat {
    if tickets == [] then 0 else tickets[0].bytes + Bytes(tickets[1..])
  }

  lemma {:induction false} BytesSplit(a: seq<Ticket>, b: seq<Ticket>)
    ensures Bytes(a + b) == Bytes(a) + Bytes(b)
  {
    if a == [] {
      assert a + b == b;
    } else {
      assert (a + b)[1..] == a[1..] + b;
      BytesSplit(a[1..], b);
    }
  }

  lemma BytesWithout(tickets: seq<Ticket>, i: nat)
    requires i < |tickets|
    ensures Bytes(tickets) == Bytes(tickets[..i] + tickets[i + 1..]) + tickets[i].bytes
  {
    assert tickets == tickets[..i] + ([tickets[i]] + tickets[i + 1..]);
    BytesSplit(tickets[..i], [tickets[i]] + tickets[i + 1..]);
    BytesSplit(tickets[..i], tickets[i + 1..]);
    assert ([tickets[i]] + tickets[i + 1..])[1..] == tickets[i + 1..];
  }

  lemma MultisetWithout(s: seq<Ticket>, i: nat)
    requires i < |s|
    ensures multiset(s[..i] + s[i + 1..]) == multiset(s) - multiset{s[i]}
  {
    assert s == s[..i] + [s[i]] + s[i + 1..];
  }

  lemma {:induction false} BytesPermuted(a: seq<Ticket>, b: seq<Ticket>)
    requires multiset(a) == multiset(b)
    ensures Bytes(a) == Bytes(b) && |a| == |b|
  {
    assert |multiset(a)| == |a| && |multiset(b)| == |b|;
    if a != [] {
      assert a[0] in multiset(b);
      var i :| 0 <= i < |b| && b[i] == a[0];
      BytesWithout(b, i);
      MultisetWithout(a, 0);
      MultisetWithout(b, i);
      assert a[..0] + a[1..] == a[1..];
      BytesPermuted(a[1..], b[..i] + b[i + 1..]);
    }
  }

  ghost predicate NoneTwice(tickets: seq<Ticket>) {
    forall i, j :: 0 <= i < j < |tickets| ==> tickets[i] != tickets[j]
  }

  /** No ticket waits or is claimed twice; the quantifier keeps the definition folded until it is asked for. */
  ghost predicate Separate(waiting: seq<Ticket>, claimed: seq<Ticket>) {
    forall same: seq<Ticket> :: same == waiting + claimed ==> NoneTwice(same)
  }

  datatype Bounds = Bounds(maxTransactions: nat, maxBytes: nat)

  /** The group is within the bounds, and this is its size. */
  predicate Bounded(group: seq<Ticket>, size: nat, bounds: Bounds) {
    size == Bytes(group) && |group| <= bounds.maxTransactions && (|group| <= 1 || size <= bounds.maxBytes)
  }

  /** One more request for the group, unless it is full. */
  lemma ClaimMore(group: seq<Ticket>, waiting: seq<Ticket>, size: nat, bounds: Bounds)
    requires waiting != [] && Bounded(group, size, bounds) && bounds.maxTransactions > 0
    ensures Bytes(group + [waiting[0]]) == size + waiting[0].bytes
    ensures group == [] || !(|group| == bounds.maxTransactions || size + waiting[0].bytes > bounds.maxBytes) ==>
              Bounded(group + [waiting[0]], size + waiting[0].bytes, bounds)
  {
    BytesMore(group, waiting[0]);
  }

  lemma BytesMore(group: seq<Ticket>, ticket: Ticket)
    ensures Bytes(group + [ticket]) == Bytes(group) + ticket.bytes
  {
    BytesSplit(group, [ticket]);
    assert [ticket][1..] == [];
  }

  lemma Moved(group: seq<Ticket>, waiting: seq<Ticket>)
    requires waiting != []
    ensures (group + [waiting[0]]) + waiting[1..] == group + waiting
    ensures waiting[0] in waiting && waiting[0] in group + waiting
  {
    assert (group + waiting)[|group|] == waiting[0];
  }

  class CommitQueue {
    var waiting: seq<Ticket>
    var running: bool
    var count: nat
    var bytes: nat
    ghost var claimed: seq<Ticket>
    ghost var answered: set<Ticket>

    /** Counters are exact, and every request is in exactly one place with a result only once answered. */
    ghost predicate Valid()
      reads this, waiting, claimed, answered
    {
      && Separate(waiting, claimed)
      && (forall t :: t in waiting ==> t.batch && t.result.None? && t !in answered)
      && (forall t :: t in claimed ==> !t.batch && t.result.None? && t !in answered)
      && (forall t :: t in answered ==> !t.batch && t.result.Some?)
      && count == |waiting| + |claimed|
      && bytes == Bytes(waiting) + Bytes(claimed)
      && (claimed != [] ==> running)
    }

    constructor ()
      ensures Valid() && waiting == [] && !running && claimed == [] && answered == {}
    {
      waiting, running, count, bytes, claimed, answered := [], false, 0, 0, [], {};
    }

    /** Refused exactly when a limit would be passed. */
    method Submit(size: nat, maxCount: nat, maxBytes: nat) returns (r: Result<Ticket>)
      requires Valid()
      modifies this
      ensures Valid() && running == old(running) && claimed == old(claimed) && answered == old(answered)
      ensures r.Ok? <==> old(count) + 1 <= maxCount && old(bytes) + size <= maxBytes
      ensures r.Ok? ==> fresh(r.value) && r.value.bytes == size && waiting == old(waiting) + [r.value]
      ensures r.Err? ==> waiting == old(waiting) && count == old(count) && bytes == old(bytes)
    {
      if count + 1 > maxCount || bytes + size > maxBytes {
        return Err(LimitExceeded);
      }
      var ticket := new Ticket(size);
      Added(waiting, claimed, ticket);
      count, bytes := count + 1, bytes + size;
      BytesSplit(waiting, [ticket]);
      assert [ticket][1..] == [];
      waiting := waiting + [ticket];
      return Ok(ticket);
    }

    /** A request is cancelled exactly while it still waits; a claimed one never is. */
    method Cancel(ticket: Ticket) returns (cancelled: bool)
      requires Valid() && (ticket in waiting || ticket in claimed || ticket in answered)
      modifies this, ticket
      ensures Valid() && running == old(running) && claimed == old(claimed)
      ensures cancelled <==> ticket in old(waiting)
      ensures cancelled ==>
                ticket.result == Some(DeadlineExceeded) && waiting == Retained(old(waiting), ticket)
                && ticket !in waiting
      ensures answered == old(answered) + if cancelled then {ticket} else {}
      ensures !cancelled ==> waiting == old(waiting) && ticket.result == old(ticket.result)
    {
      if !ticket.batch {
        return false;
      }
      ghost var at :| 0 <= at < |waiting| && waiting[at] == ticket;
      BytesWithout(waiting, at);
      Removed(waiting, claimed, at);
      ticket.batch := false;
      waiting := Retained(waiting, ticket);
      count, bytes := count - 1, bytes - ticket.bytes;
      ticket.result := Some(DeadlineExceeded);
      answered := answered + {ticket};
      return true;
    }

    /** A writer becomes leader when there is none. */
    method Lead() returns (leading: bool)
      requires Valid()
      modifies this`running
      ensures Valid() && running && (leading <==> !old(running))
      ensures leading ==> claimed == []
    {
      leading := !running;
      running := true;
    }

    /** The group is the longest run from the front within the bounds; a single request may exceed the bytes. */
    method Claim(bounds: Bounds) returns (group: seq<Ticket>)
      requires Valid() && running && claimed == [] && bounds.maxTransactions > 0
      modifies this`waiting, this`claimed, waiting
      ensures Valid() && running && claimed == group && answered == old(answered)
      ensures group + waiting == old(waiting)
      ensures old(waiting) != [] ==> group != []
      ensures |group| <= bounds.maxTransactions && (|group| <= 1 || Bytes(group) <= bounds.maxBytes)
      ensures waiting == [] || |group| == bounds.maxTransactions || Bytes(group + [waiting[0]]) > bounds.maxBytes
      ensures count == old(count) && bytes == old(bytes)
      ensures forall t :: t in old(answered) ==> t.result == old(t.result)
    {
      group := [];
      var size: nat := 0;
      while waiting != []
        invariant Valid() && running && claimed == group && answered == old(answered)
        invariant group + waiting == old(waiting) && Bounded(group, size, bounds)
        invariant old(waiting) != [] && waiting == [] ==> group != []
        invariant count == old(count) && bytes == old(bytes)
        invariant forall t :: t in answered ==> t.result == old(t.result)
        decreases |waiting|
      {
        ClaimMore(group, waiting, size, bounds);
        Moved(group, waiting);
        if group != [] && (|group| == bounds.maxTransactions || size + waiting[0].bytes > bounds.maxBytes) {
          break;
        }
        var ticket := Take();
        size := size + ticket.bytes;
        group := group + [ticket];
      }
    }

    /** The oldest waiting request goes to the leader. */
    method Take() returns (ticket: Ticket)
      requires Valid() && running && waiting != []
      modifies this`waiting, this`claimed, waiting[0]
      ensures Valid() && ticket == old(waiting[0])
      ensures waiting == old(waiting)[1..] && claimed == old(claimed) + [ticket]
      ensures forall t :: t in answered ==> t.result == old(t.result)
    {
      ticket := waiting[0];
      Front(waiting, claimed);
      BytesSplit(claimed, [ticket]);
      ticket.batch := false;
      waiting, claimed := waiting[1..], claimed + [ticket];
    }

    /** The leader answers everything it claimed, and steps down. */
    method Finish(tickets: seq<Ticket>, results: seq<Outcome>)
      requires Valid() && running && |results| == |tickets| && multiset(tickets) == multiset(claimed)
      modifies this, claimed
      ensures Valid() && !running && claimed == [] && waiting == old(waiting)
      ensures answered == old(answered) + (set t | t in tickets)
      ensures forall i :: 0 <= i < |tickets| ==> tickets[i].result == Some(results[i])
      ensures forall t :: t in old(answered) ==> t.result == old(t.result)
    {
      Permuted(tickets, claimed, waiting);
      BytesPermuted(tickets, claimed);
      Respond(tickets, results);
      answered := answered + (set t | t in tickets);
      claimed, running := [], false;
      assert waiting + [] == waiting;
    }

    /** Every ticket gets its result, and leaves the counters. */
    method Respond(tickets: seq<Ticket>, results: seq<Outcome>)
      requires |results| == |tickets| && NoneTwice(tickets) && forall t :: t in tickets ==> t in claimed
      requires count == |waiting| + |tickets| && bytes == Bytes(waiting) + Bytes(tickets)
      modifies this`count, this`bytes, claimed`result
      ensures count == |waiting| && bytes == Bytes(waiting)
      ensures forall i :: 0 <= i < |tickets| ==> tickets[i].result == Some(results[i])
      ensures forall t :: t in tickets ==> t.result.Some?
    {
      assert forall i :: 0 <= i < |tickets| ==> tickets[i] in tickets;
      for i := 0 to |tickets|
        invariant count == |waiting| + |tickets| - i && bytes == Bytes(waiting) + Bytes(tickets[i..])
        invariant forall j :: 0 <= j < i ==> tickets[j].result == Some(results[j])
      {
        assert tickets[i..][1..] == tickets[i + 1..];
        count, bytes := count - 1, bytes - tickets[i].bytes;
        tickets[i].result := Some(results[i]);
      }
    }

    /** A leader that fails or unwinds refuses everything it still holds, and the queue goes on. */
    method LoseLeader(tickets: seq<Ticket>)
      requires Valid() && running && multiset(tickets) == multiset(claimed)
      modifies this, claimed
      ensures Valid() && !running && claimed == [] && waiting == old(waiting)
      ensures answered == old(answered) + (set t | t in tickets)
      ensures forall t :: t in tickets ==> t.result == Some(NeedsRecovery)
    {
      Finish(tickets, seq(|tickets|, _ => NeedsRecovery));
      forall t | t in tickets ensures t.result == Some(NeedsRecovery) {
        var i :| 0 <= i < |tickets| && tickets[i] == t;
      }
    }
  }

  /** What remains after every occurrence of `t` is dropped. */
  function Retained(tickets: seq<Ticket>, t: Ticket): seq<Ticket> {
    if tickets == [] then []
    else (if tickets[0] == t then [] else [tickets[0]]) + Retained(tickets[1..], t)
  }

  lemma {:induction false} RetainedAbsent(tickets: seq<Ticket>, t: Ticket)
    requires t !in tickets
    ensures Retained(tickets, t) == tickets
  {
    if tickets != [] {
      assert tickets == [tickets[0]] + tickets[1..];
      RetainedAbsent(tickets[1..], t);
    }
  }

  lemma {:induction false} RetainedSplit(a: seq<Ticket>, b: seq<Ticket>, t: Ticket)
    ensures Retained(a + b, t) == Retained(a, t) + Retained(b, t)
  {
    if a == [] {
      assert a + b == b;
    } else {
      assert (a + b)[1..] == a[1..] + b;
      RetainedSplit(a[1..], b, t);
    }
  }

  /** Cancelling takes out the one place the request stands in, and keeps the order of the others. */
  lemma Removed(waiting: seq<Ticket>, claimed: seq<Ticket>, at: nat)
    requires Separate(waiting, claimed) && at < |waiting|
    ensures Retained(waiting, waiting[at]) == waiting[..at] + waiting[at + 1..]
    ensures Separate(Retained(waiting, waiting[at]), claimed)
    ensures waiting[at] !in Retained(waiting, waiting[at]) && waiting[at] !in claimed
  {
    var t, front, back := waiting[at], waiting[..at], waiting[at + 1..];
    Around(waiting, claimed, at);
    OnlyOnce(front, t, back + claimed);
    RetainedAround(front, t, back);
  }

  lemma Around(waiting: seq<Ticket>, claimed: seq<Ticket>, at: nat)
    requires at < |waiting|
    ensures waiting == waiting[..at] + [waiting[at]] + waiting[at + 1..]
    ensures waiting + claimed == waiting[..at] + [waiting[at]] + (waiting[at + 1..] + claimed)
    ensures waiting[..at] + waiting[at + 1..] + claimed == waiting[..at] + (waiting[at + 1..] + claimed)
  {
  }

  lemma RetainedAround(front: seq<Ticket>, t: Ticket, back: seq<Ticket>)
    requires t !in front && t !in back
    ensures Retained(front + [t] + back, t) == front + back
    ensures t !in Retained(front + [t] + back, t)
  {
    assert front + [t] + back == front + ([t] + back);
    RetainedSplit(front, [t] + back, t);
    assert Retained([t] + back, t) == back by {
      assert ([t] + back)[1..] == back;
      RetainedAbsent(back, t);
    }
    RetainedAbsent(front, t);
  }

  lemma OnlyOnce(a: seq<Ticket>, t: Ticket, b: seq<Ticket>)
    requires NoneTwice(a + [t] + b)
    ensures t !in a && t !in b && NoneTwice(a + b)
  {
    var all := a + [t] + b;
    assert all[|a|] == t;
    assert forall i :: 0 <= i < |a| ==> all[i] == a[i];
    assert forall i :: 0 <= i < |b| ==> all[|a| + 1 + i] == b[i];
    forall i: nat, j: nat ensures Apart(a + b, i, j) {
      if i < |a + b| && j < |a + b| && i != j {
        var x, y := if i < |a| then i else i + 1, if j < |a| then j else j + 1;
        assert (a + b)[i] == all[x] && (a + b)[j] == all[y] && x != y;
        assert if x < y then all[x] != all[y] else all[y] != all[x];
      }
    }
    NoneTwiceFrom(a + b);
  }

  lemma Added(waiting: seq<Ticket>, claimed: seq<Ticket>, t: Ticket)
    requires Separate(waiting, claimed) && t !in waiting && t !in claimed
    ensures Separate(waiting + [t], claimed)
  {
    assert NoneTwice(waiting + claimed);
    var all, more, n := waiting + claimed, waiting + [t] + claimed, |waiting|;
    forall i, j | 0 <= i < j < |more| ensures more[i] != more[j] {
      if i != n && j != n {
        assert more[i] == all[if i < n then i else i - 1] && more[j] == all[if j < n then j else j - 1];
      }
    }
  }

  /** The front ticket is nowhere else, and moving it to the end keeps the tickets apart. */
  lemma Front(waiting: seq<Ticket>, claimed: seq<Ticket>)
    requires Separate(waiting, claimed) && waiting != []
    ensures waiting[0] !in claimed && waiting[0] !in waiting[1..]
    ensures Separate(waiting[1..], claimed + [waiting[0]])
  {
    assert NoneTwice(waiting + claimed);
    var t, rest := waiting[0], waiting[1..];
    assert waiting + claimed == [t] + (rest + claimed) == [] + [t] + (rest + claimed);
    OnlyOnce([], t, rest + claimed);
    SwappedApart([t], rest + claimed);
    assert waiting[1..] + (claimed + [t]) == rest + claimed + [t];
  }

  ghost predicate Apart(tickets: seq<Ticket>, i: nat, j: nat) {
    i < |tickets| && j < |tickets| && i != j ==> tickets[i] != tickets[j]
  }

  lemma NoneTwiceFrom(tickets: seq<Ticket>)
    requires forall i: nat, j: nat :: Apart(tickets, i, j)
    ensures NoneTwice(tickets)
  {
    forall i, j | 0 <= i < j < |tickets| ensures tickets[i] != tickets[j] {
      assert Apart(tickets, i, j);
    }
  }

  lemma SwappedApart(a: seq<Ticket>, b: seq<Ticket>)
    requires NoneTwice(a + b)
    ensures NoneTwice(b + a)
  {
    var all := a + b;
    forall i: nat, j: nat ensures Apart(b + a, i, j) {
      if i < |b + a| && j < |b + a| && i != j {
        var x := if i < |b| then |a| + i else i - |b|;
        var y := if j < |b| then |a| + j else j - |b|;
        assert (b + a)[i] == all[x] && (b + a)[j] == all[y] && x != y;
        assert if x < y then all[x] != all[y] else all[y] != all[x];
      }
    }
    NoneTwiceFrom(b + a);
  }

  lemma Permuted(tickets: seq<Ticket>, claimed: seq<Ticket>, waiting: seq<Ticket>)
    requires multiset(tickets) == multiset(claimed) && Separate(waiting, claimed)
    ensures NoneTwice(tickets) && Separate(waiting, [])
    ensures forall t :: t in tickets <==> t in claimed
    ensures forall t :: t in tickets ==> t !in waiting
  {
    assert NoneTwice(waiting + claimed);
    assert waiting + [] == waiting;
    var all := waiting + claimed;
    assert forall i :: 0 <= i < |waiting| ==> all[i] == waiting[i];
    assert forall i :: 0 <= i < |claimed| ==> all[|waiting| + i] == claimed[i];
    assert forall t :: t in tickets <==> t in multiset(tickets);
    assert forall t :: t in claimed <==> t in multiset(claimed);
    OnceEach(tickets, claimed);
  }

  lemma {:induction false} OnceEach(a: seq<Ticket>, b: seq<Ticket>)
    requires multiset(a) == multiset(b) && NoneTwice(b)
    ensures NoneTwice(a)
  {
    forall t ensures multiset(a)[t] <= 1 {
      AtMostOnce(b, t);
    }
    forall i, j | 0 <= i < j < |a| ensures a[i] != a[j] {
      assert a == a[..i] + [a[i]] + a[i + 1..j] + [a[j]] + a[j + 1..];
      assert multiset(a)[a[i]] <= 1;
    }
  }

  lemma {:induction false} AtMostOnce(s: seq<Ticket>, t: Ticket)
    requires NoneTwice(s)
    ensures multiset(s)[t] <= 1
  {
    if s != [] {
      assert s == [s[0]] + s[1..];
      AtMostOnce(s[1..], t);
      assert s[0] !in s[1..];
    }
  }
}
