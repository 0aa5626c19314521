/**
 Reading an entity's events in bounded batches (cursor.rs, model.rs).

 A cursor walks an inclusive range of versions over one pinned view: first the checkpointed events,
 then the committed ones, then the staged ones.  A batch ends at the event or byte limit, or where
 cancellation or the deadline -- the oracle `stop`, asked once per check -- ends the whole cursor.
 */
module Cursors {
  import opened Results
  import opened Model
  import opened Histories

  datatype Limits = Limits(maxEvents: nat, maxBytes: nat)

  /** A batch under construction: its bytes, the version that must come next, and the checks made so far. */
  datatype Reading = Reading(total: nat, expected: Option<nat>, events: seq<Event>, checks: nat)

  // ----- the range a cursor is for -----

  predicate Covers(events: map<nat, Event>, first: nat, end: nat) {
    forall v :: first <= v < end ==> v in events && events[v].version == v
  }

  /** The events of versions first, first + 1, ..., end - 1. */
  function Span(events: map<nat, Event>, first: nat, end: nat): (r: seq<Event>)
    requires first <= end && Covers(events, first, end)
    ensures |r| == end - first && forall i :: 0 <= i < |r| ==> r[i] == events[first + i]
  {
    if first == end then [] else Span(events, first, end - 1) + [events[end - 1]]
  }

  /** What those events cost, slots included. */
  function Costs(cost: nat -> nat, first: nat, end: nat): nat
    requires first <= end
  {
    if first == end then 0 else Costs(cost, first, end - 1) + cost(end - 1)
  }

  lemma {:induction false} SpanSplit(events: map<nat, Event>, cost: nat -> nat, first: nat, middle: nat, end: nat)
    requires first <= middle <= end && Covers(events, first, end)
    ensures Span(events, first, end) == Span(events, first, middle) + Span(events, middle, end)
    ensures Costs(cost, first, end) == Costs(cost, first, middle) + Costs(cost, middle, end)
  {
    if middle < end {
      SpanSplit(events, cost, first, middle, end - 1);
    }
  }

  ghost predicate Sound(d: EntityData, table: Table) {
    d.base.version <= d.current.version && forall x: EntityData :: x == d ==> Valid(x, table)
  }

  /** Every retained version has its event. */
  lemma RetainedVersions(d: EntityData, table: Table, first: nat, end: nat)
    requires Sound(d, table) && d.base.version < first && end <= d.current.version + 1
    ensures Covers(Events(d), first, end)
  {
    var events := Events(d);
    assert Valid(d, table);
    forall v | first <= v < end ensures v in events && events[v].version == v {
      EarlierStates(d.base, events, table, v, d.current.version);
      EarlierStates(d.base, events, table, v - 1, d.current.version);
      StateAtVersion(d.base, events, table, v - 1);
    }
  }

  /** One batch to read: the versions `first` to `last` of an entity, what each costs, and the limits. */
  datatype Walk = Walk(d: EntityData, table: Table, cost: nat -> nat, limits: Limits, first: nat, last: nat)

  /** `rd` holds exactly the versions from the first up to, not including, `at`, within the limits. */
  predicate Progress(w: Walk, rd: Reading, at: nat) {
    && w.first <= at <= w.last + 1
    && Covers(Events(w.d), w.first, w.last + 1)
    && rd.events == Span(Events(w.d), w.first, at)
    && rd.total == Costs(w.cost, w.first, at) <= w.limits.maxBytes
    && |rd.events| <= w.limits.maxEvents
    && rd.expected == if at == w.last + 1 then None else Some(at)
  }

  /** The batch is as long as the limits allow. */
  predicate Full(w: Walk, at: nat) {
    && w.first < at <= w.last + 1
    && (at == w.first + w.limits.maxEvents || (at <= w.last && Costs(w.cost, w.first, at + 1) > w.limits.maxBytes))
  }

  ghost predicate Stops(stop: nat -> bool) {
    exists n: nat :: stop(n)
  }

  lemma {:induction false} CostsGrow(cost: nat -> nat, first: nat, end: nat)
    requires first < end && forall v: nat :: cost(v) > 0
    ensures Costs(cost, first, end) > 0
  {
    assert cost(end - 1) > 0;
  }

  // ----- one event -----

  /** The checks around one event, whether it is admitted, and what it adds. */
  method Offer(rd: Reading, event: Event, size: nat, limits: Limits, last: nat, stop: nat -> bool)
    returns (r: Result<Reading>, more: bool)
    ensures r == Err(Interrupted) ==> Stops(stop)
    ensures r == Err(LimitExceeded) ==> rd.total == 0 && size > limits.maxBytes
    ensures r == Err(Corrupt) ==> rd.expected != Some(event.version)
    ensures r.Err? ==> r.error in {Interrupted, LimitExceeded, Corrupt}
    ensures r.Ok? && rd.total + size > limits.maxBytes ==> !more && rd.total > 0 && r.value.(checks := rd.checks) == rd
    ensures r.Ok? && rd.total + size <= limits.maxBytes ==>
              && rd.expected == Some(event.version)
              && r.value.events == rd.events + [event] && r.value.total == rd.total + size
              && r.value.expected == (if event.version == last then None else Some(event.version + 1))
              && more == (|r.value.events| < limits.maxEvents)
  {
    if stop(rd.checks) || stop(rd.checks + 1) {
      return Err(Interrupted), false;
    }
    var next := rd.(checks := rd.checks + 2);
    if rd.total + size > limits.maxBytes {
      if rd.total == 0 {
        return Err(LimitExceeded), false;
      }
      return Ok(next), false;
    }
    if rd.expected != Some(event.version) {
      return Err(Corrupt), false;
    }
    next := next.(expected := if event.version == last then None else Some(event.version + 1),
                  total := rd.total + size, events := rd.events + [event]);
    return Ok(next), |next.events| < limits.maxEvents;
  }

  /** How far the batch has come: at `at`, and stopped only where it is full. */
  predicate Walked(w: Walk, rd: Reading, at: nat, more: bool) {
    && Progress(w, rd, at)
    && (more ==> |rd.events| < w.limits.maxEvents)
    && (!more ==> Full(w, at))
  }

  /** The walk goes on at `at`; the quantifier keeps the definition folded until it is asked for. */
  ghost predicate Goes(w: Walk, rd: Reading, at: nat) {
    forall same: Reading :: same == rd ==> Walked(w, same, at, true)
  }

  /** One event of the walk; it fails only for an interruption or an event that is too big on its own. */
  method Step(w: Walk, rd: Reading, at: nat, event: Event, stop: nat -> bool) returns (r: Result<Reading>, more: bool)
    requires Goes(w, rd, at) && at <= w.last && at in Events(w.d) && event == Events(w.d)[at]
    requires forall v: nat :: w.cost(v) > 0
    ensures Outcome(w, r, more, at + 1, stop)
  {
    assert Walked(w, rd, at, true);
    if w.first < at {
      CostsGrow(w.cost, w.first, at);
    }
    r, more := Offer(rd, event, w.cost(at), w.limits, w.last, stop);
    assert Costs(w.cost, w.first, at + 1) == Costs(w.cost, w.first, at) + w.cost(at);
    if r.Ok? {
      if rd.total + w.cost(at) > w.limits.maxBytes {
        assert Walked(w, r.value, at, false);
      } else {
        assert Walked(w, r.value, at + 1, more);
      }
    }
  }

  // ----- the three tiers -----

  function Max(a: int, b: int): int {
    if a < b then b else a
  }

  /** Where the checkpointed versions of the range end. */
  function AfterDisk(w: Walk): nat {
    if w.d.disk.None? then w.first else Max(w.first, Min(w.last, w.d.disk.value.current.version) + 1)
  }

  /** How far the committed versions below `v` reach. */
  function AfterCommitted(w: Walk, v: nat): nat {
    Max(AfterDisk(w), if v <= Settled(w.d) then v else Settled(w.d) + 1)
  }

  /** How far the first `i` staged events reach. */
  function AfterStaged(w: Walk, i: nat): nat {
    Min(w.last + 1, Max(w.first, Settled(w.d) + 1 + i))
  }

  /** The versions are retained, and the limits admit something. */
  ghost predicate InRange(w: Walk) {
    && Sound(w.d, w.table)
    && w.d.base.version < w.first <= w.last <= w.d.current.version
    && w.limits.maxEvents > 0 && w.limits.maxBytes > 0
    && forall v: nat :: w.cost(v) > 0
  }

  lemma DiskAt(w: Walk, v: nat)
    requires InRange(w) && w.first <= v <= w.last && OnDisk(w.d, v)
    ensures v in w.d.disk.value.events && w.d.disk.value.events[v] == Events(w.d)[v]
  {
    RetainedVersions(w.d, w.table, v, v + 1);
    assert v in Events(w.d) && Valid(w.d, w.table);
  }

  /** A version is among the committed ones exactly when the walk has come to it. */
  lemma CommittedAt(w: Walk, v: nat)
    requires InRange(w) && w.first <= v <= w.last
    ensures v in w.d.committed ==> v == AfterCommitted(w, v) && w.d.committed[v] == Events(w.d)[v]
    ensures AfterCommitted(w, v + 1) == if v in w.d.committed then v + 1 else AfterCommitted(w, v)
  {
    RetainedVersions(w.d, w.table, v, v + 1);
    assert v in Events(w.d) && Valid(w.d, w.table);
  }

  lemma StagedAt(w: Walk, i: nat)
    requires InRange(w) && i < |w.d.events|
    ensures var v := w.d.events[i].version;
            && (w.first <= v <= w.last ==>
                  v == AfterStaged(w, i) && v in Events(w.d) && w.d.events[i] == Events(w.d)[v])
            && AfterStaged(w, i + 1) == if w.first <= v <= w.last then v + 1 else AfterStaged(w, i)
  {
    assert Valid(w.d, w.table);
  }

  /** Nothing is left out between the tiers. */
  lemma TiersMeet(w: Walk)
    requires InRange(w)
    ensures AfterCommitted(w, w.first) == AfterDisk(w)
    ensures AfterCommitted(w, w.last + 1) == AfterStaged(w, 0)
    ensures AfterStaged(w, |w.d.events|) == w.last + 1
  {
    assert Valid(w.d, w.table);
  }

  /** The batch ended early, where it is full. */
  ghost predicate Ended(w: Walk, rd: Reading) {
    exists at: nat :: Walked(w, rd, at, false)
  }

  /** What a walk up to `end` promises. */
  ghost predicate Outcome(w: Walk, r: Result<Reading>, more: bool, end: nat, stop: nat -> bool) {
    && (r == Err(Interrupted) ==> Stops(stop))
    && (r.Err? && r.error != Interrupted ==> r.error == LimitExceeded && w.cost(w.first) > w.limits.maxBytes)
    && (r.Ok? && more ==> Goes(w, r.value, end))
    && (r.Ok? && !more ==> Ended(w, r.value))
  }

  method VisitDisk(w: Walk, start: Reading, stop: nat -> bool) returns (r: Result<Reading>, more: bool)
    requires InRange(w) && Goes(w, start, w.first)
    ensures Outcome(w, r, more, AfterDisk(w), stop)
  {
    r, more := Ok(start), true;
    if w.d.disk.None? || w.first > Min(w.last, w.d.disk.value.current.version) {
      return;
    }
    for v := w.first to Min(w.last, w.d.disk.value.current.version) + 1
      invariant r.Ok? && more && Goes(w, r.value, v)
    {
      DiskAt(w, v);
      if v in w.d.disk.value.events {
        r, more := Step(w, r.value, v, w.d.disk.value.events[v], stop);
        if r.Err? || !more {
          return;
        }
      }
    }
  }

  method VisitCommitted(w: Walk, start: Reading, stop: nat -> bool) returns (r: Result<Reading>, more: bool)
    requires InRange(w) && Goes(w, start, AfterDisk(w))
    ensures Outcome(w, r, more, AfterCommitted(w, w.last + 1), stop)
  {
    r, more := Ok(start), true;
    TiersMeet(w);
    for v := w.first to w.last + 1
      invariant r.Ok? && more && Goes(w, r.value, AfterCommitted(w, v))
    {
      CommittedAt(w, v);
      if v in w.d.committed {
        r, more := Step(w, r.value, v, w.d.committed[v], stop);
        if r.Err? || !more {
          return;
        }
      }
    }
  }

  method VisitStaged(w: Walk, start: Reading, stop: nat -> bool) returns (r: Result<Reading>, more: bool)
    requires InRange(w) && Goes(w, start, AfterCommitted(w, w.last + 1))
    ensures Outcome(w, r, more, w.last + 1, stop)
  {
    r, more := Ok(start), true;
    TiersMeet(w);
    for i := 0 to |w.d.events|
      invariant r.Ok? && more && Goes(w, r.value, AfterStaged(w, i))
    {
      var v := w.d.events[i].version;
      StagedAt(w, i);
      if w.first <= v <= w.last {
        r, more := Step(w, r.value, v, w.d.events[i], stop);
        if r.Err? || !more {
          return;
        }
      }
    }
  }

  /** Visits the range in version order across the tiers until it ends or a batch is full. */
  method VisitEvents(w: Walk, checks: nat, stop: nat -> bool) returns (r: Result<Reading>, complete: bool)
    requires InRange(w)
    ensures Outcome(w, r, complete, w.last + 1, stop)
  {
    RetainedVersions(w.d, w.table, w.first, w.last + 1);
    var start := Reading(0, Some(w.first), [], checks);
    r, complete := VisitDisk(w, start, stop);
    if r.Ok? && complete {
      r, complete := VisitCommitted(w, r.value, stop);
    }
    if r.Ok? && complete {
      r, complete := VisitStaged(w, r.value, stop);
    }
  }

  // ----- the cursor -----

  datatype Batch = Batch(events: seq<Event>, bytes: nat)

  /** The batch that starts at the first version and ends before `end`, as long as the limits allow. */
  ghost predicate BatchOf(w: Walk, end: nat, batch: Batch) {
    && w.first < end <= w.last + 1
    && Covers(Events(w.d), w.first, end)
    && batch.events == Span(Events(w.d), w.first, end) && |batch.events| <= w.limits.maxEvents
    && batch.bytes == Costs(w.cost, w.first, end) <= w.limits.maxBytes
    && (end <= w.last ==> Full(w, end))
  }

  /** Where the next batch starts. */
  function After(w: Walk, end: nat): Option<nat> {
    if end == w.last + 1 then None else Some(end)
  }

  /** A batch as long as the limits allow, and the version the next one starts at, if any is left. */
  ghost predicate Gives(w: Walk, batch: Batch, next: Option<nat>) {
    exists end: nat :: BatchOf(w, end, batch) && next == After(w, end)
  }

  /** What reading a batch promises: apart from an interruption only an event too big for a batch fails. */
  ghost predicate Answers(w: Walk, r: Result<Option<Batch>>, next: Option<nat>, stop: nat -> bool) {
    && (r == Err(Interrupted) ==> Stops(stop))
    && (r.Err? && r.error != Interrupted ==> r.error == LimitExceeded && w.cost(w.first) > w.limits.maxBytes)
    && (r.Ok? ==> r.value.Some? && Gives(w, r.value.value, next))
  }

  lemma WalkedGives(w: Walk, rd: Reading, complete: bool)
    requires InRange(w)
    requires if complete then Goes(w, rd, w.last + 1) else Ended(w, rd)
    ensures rd.events != [] && (complete ==> rd.expected.None?)
    ensures Gives(w, Batch(rd.events, rd.total), rd.expected)
  {
    assert complete ==> Walked(w, rd, w.last + 1, true);
    var end: nat :| Walked(w, rd, end, complete) && (complete ==> end == w.last + 1);
    assert BatchOf(w, end, Batch(rd.events, rd.total)) && rd.expected == After(w, end);
  }

  class HistoryCursor {
    var next: Option<nat>
    var snapshot: Option<EntityData>
    var limits: Limits
    const last: nat
    const table: Table
    const cost: nat -> nat

    /** What is left to read. */
    function Rest(): Walk
      requires next.Some? && snapshot.Some?
      reads this
    {
      Walk(snapshot.value, table, cost, limits, next.value, last)
    }

    ghost predicate Valid()
      reads this
    {
      next.Some? ==> snapshot.Some? && InRange(Rest())
    }

    constructor (w: Walk, first: Option<nat>)
      requires first.Some? ==> first.value == w.first && InRange(w)
      ensures Valid() && next == first && (first.Some? ==> snapshot == Some(w.d))
      ensures last == w.last && table == w.table && cost == w.cost && limits == w.limits
    {
      table, cost, limits, last := w.table, w.cost, w.limits, w.last;
      next, snapshot := first, if first.Some? then Some(w.d) else None;
    }

    /** Cancellation and the deadline are consulted before, during and after the walk. */
    method ReadBatch(stop: nat -> bool) returns (r: Result<Option<Batch>>)
      requires Valid()
      modifies this`next
      ensures if old(next).None? then r == Ok(None) && next.None? else Answers(old(Rest()), r, next, stop)
    {
      if next.None? {
        return Ok(None);
      }
      if stop(0) || stop(1) {
        return Err(Interrupted);
      }
      var w := Rest();
      var visited, complete := VisitEvents(w, 2, stop);
      if visited.Err? {
        return Err(visited.error);
      }
      var rd := visited.value;
      if stop(rd.checks) {
        return Err(Interrupted);
      }
      WalkedGives(w, rd, complete);
      if (complete && rd.expected.Some?) || rd.events == [] {
        assert false;
        return Err(Corrupt);
      }
      next := rd.expected;
      return Ok(Some(Batch(rd.events, rd.total)));
    }

    /** The cursor lets go of its view when it ends, however it ends; until then the next version only grows. */
    method NextBatch(stop: nat -> bool) returns (r: Result<Option<Batch>>)
      requires Valid()
      modifies this`next, this`snapshot
      ensures Valid() && (r.Err? || next.None? ==> next.None? && snapshot.None?)
      ensures next.Some? ==> old(next).Some? && snapshot == old(snapshot) && old(next.value) < next.value <= last
      ensures r.Ok? && r.value.Some? ==>
                0 < |r.value.value.events| <= limits.maxEvents && r.value.value.bytes <= limits.maxBytes
      ensures if old(next).None? then r == Ok(None)
              else if r.Ok? then Answers(old(Rest()), r, next, stop) else Answers(old(Rest()), r, old(next), stop)
    {
      r := ReadBatch(stop);
      if r.Err? || next.None? {
        snapshot, next := None, None;
      }
    }
  }

  // ----- opening -----

  datatype Options = Options(first: Option<nat>, last: Option<nat>, limits: Limits)

  function Capped(options: Limits, most: Limits): Limits {
    Limits(Min(options.maxEvents, most.maxEvents), Min(options.maxBytes, most.maxBytes))
  }

  /** Neither limit is exceeded, and no more is refused than they ask for. */
  ghost predicate Tightest(limit: nat, asked: nat, most: nat) {
    limit <= asked && limit <= most && (limit == asked || limit == most)
  }

  /** A version the caller asked for by number and the entity no longer (or does not yet) have an event for. */
  predicate Unavailable(d: EntityData, requested: Option<nat>) {
    requested.Some? && !(d.base.version < requested.value <= d.current.version)
  }

  /** A cursor is refused exactly for empty limits, a version without an event, or a reversed range. */
  method History(d: EntityData, table: Table, cost: nat -> nat, options: Options, most: Limits)
    returns (r: Result<HistoryCursor>)
    requires Sound(d, table) && most.maxEvents > 0 && most.maxBytes > 0
    requires forall v: nat :: cost(v) > 0
    ensures r.Ok? <==>
              && options.limits.maxEvents > 0 && options.limits.maxBytes > 0
              && !Unavailable(d, options.first) && !Unavailable(d, options.last)
              && (options.first.Some? && options.last.Some? ==> options.first.value <= options.last.value)
    ensures r.Ok? ==>
              && fresh(r.value) && r.value.Valid() && r.value.table == table && r.value.cost == cost
              && Tightest(r.value.limits.maxEvents, options.limits.maxEvents, most.maxEvents)
              && Tightest(r.value.limits.maxBytes, options.limits.maxBytes, most.maxBytes)
              && r.value.last == (if options.last.Some? then options.last.value else d.current.version)
              && (r.value.next.Some? ==> r.value.snapshot == Some(d))
              && r.value.next == if options.first.Some? then options.first
                                 else if d.base.version < d.current.version then Some(d.base.version + 1) else None
  {
    if options.limits.maxEvents == 0 || options.limits.maxBytes == 0 {
      return Err(Invalid);
    }
    var available := if d.base.version + 1 <= d.current.version then Some(d.base.version + 1) else None;
    if options.first.Some?
       && (available.None? || options.first.value < available.value || options.first.value > d.current.version)
    {
      return Err(VersionUnavailable(options.first.value, d.base.version + 1, d.current.version));
    }
    if options.last.Some?
       && (available.None? || options.last.value < available.value || options.last.value > d.current.version)
    {
      return Err(VersionUnavailable(options.last.value, d.base.version + 1, d.current.version));
    }
    var first := if options.first.Some? then options.first else available;
    var last := if options.last.Some? then options.last.value else d.current.version;
    if first.Some? && first.value > last {
      return Err(Invalid);
    }
    var from := if first.Some? then first.value else 0;
    var cursor := new HistoryCursor(Walk(d, table, cost, Capped(options.limits, most), from, last), first);
    return Ok(cursor);
  }

  // ----- collecting a whole history -----

  /** No single event is refused: each one fits a batch. */
  ghost predicate EachFits(cost: nat -> nat, first: nat, end: nat, most: nat) {
    forall v: nat :: first <= v < end ==> cost(v) <= most
  }

  lemma {:induction false} OneOfMany(cost: nat -> nat, first: nat, v: nat, end: nat)
    requires first <= v < end
    ensures cost(v) <= Costs(cost, first, end)
  {
    if v < end - 1 {
      OneOfMany(cost, first, v, end - 1);
    }
  }

  lemma {:induction false} EachWithinSum(cost: nat -> nat, first: nat, end: nat, most: nat)
    requires first <= end && Costs(cost, first, end) <= most
    ensures EachFits(cost, first, end, most)
  {
    forall v: nat | first <= v < end ensures cost(v) <= most {
      OneOfMany(cost, first, v, end);
    }
  }

  /** What has been collected: every retained event below `at`, each of which fits a batch. */
  ghost predicate Collected(d: EntityData, cost: nat -> nat, most: nat, at: nat, result: seq<Event>, bytes: nat) {
    && d.base.version < at <= d.current.version + 1
    && Covers(Events(d), d.base.version + 1, d.current.version + 1)
    && result == Span(Events(d), d.base.version + 1, at)
    && bytes == Costs(cost, d.base.version + 1, at)
    && EachFits(cost, d.base.version + 1, at, most)
  }

  lemma StartCollecting(d: EntityData, table: Table, cost: nat -> nat, most: nat)
    requires Sound(d, table)
    ensures Collected(d, cost, most, d.base.version + 1, [], 0)
  {
    RetainedVersions(d, table, d.base.version + 1, d.current.version + 1);
  }

  lemma CollectMore(w: Walk, most: nat, result: seq<Event>, bytes: nat, end: nat, batch: Batch)
    requires Collected(w.d, w.cost, most, w.first, result, bytes) && w.last == w.d.current.version
    requires BatchOf(w, end, batch) && w.limits.maxBytes <= most
    ensures Collected(w.d, w.cost, most, end, result + batch.events, bytes + batch.bytes)
  {
    SpanSplit(Events(w.d), w.cost, w.d.base.version + 1, w.first, end);
    EachWithinSum(w.cost, w.first, end, most);
  }

  /** An event that alone exceeds what is left keeps the whole from fitting. */
  lemma TooBig(w: Walk, most: nat, result: seq<Event>, bytes: nat, maxResult: nat)
    requires Collected(w.d, w.cost, most, w.first, result, bytes) && w.last == w.d.current.version && w.first <= w.last
    requires bytes <= maxResult && w.cost(w.first) > Min(maxResult - bytes, most)
    ensures !Fits(w.d, w.cost, most, maxResult)
  {
    var start, end := w.d.base.version + 1, w.d.current.version + 1;
    SpanSplit(Events(w.d), w.cost, start, w.first, end);
    OneOfMany(w.cost, w.first, w.first, end);
  }

  /** Each event fits a batch, and together they fit a result. */
  ghost predicate Fits(d: EntityData, cost: nat -> nat, most: nat, maxResult: nat)
  {
    && d.base.version <= d.current.version
    && EachFits(cost, d.base.version + 1, d.current.version + 1, most)
    && Costs(cost, d.base.version + 1, d.current.version + 1) <= maxResult
  }

  /** The next batch of the collector, with what is left of the result as its byte limit. */
  method CollectBatch(
    cursor: HistoryCursor, d: EntityData, most: nat, maxResult: nat, at: nat, result: seq<Event>, bytes: nat,
    stop: nat -> bool)
    returns (r: Result<Batch>, ghost end: nat)
    requires cursor.Valid() && cursor.next == Some(at) && cursor.snapshot == Some(d) && cursor.last == d.current.version
    requires Collected(d, cursor.cost, most, at, result, bytes) && bytes <= maxResult && most > 0
    modifies cursor
    ensures cursor.Valid()
    ensures r == Err(Interrupted) ==> Stops(stop)
    ensures r.Err? && r.error != Interrupted ==> !Fits(d, cursor.cost, most, maxResult)
    ensures r.Ok? ==>
              && at < end && Collected(d, cursor.cost, most, end, result + r.value.events, bytes + r.value.bytes)
              && bytes + r.value.bytes <= maxResult
              && cursor.next == (if end == d.current.version + 1 then None else Some(end))
              && (cursor.next.Some? ==> cursor.snapshot == Some(d))
  {
    end := at;
    ghost var whole := cursor.Rest();
    if maxResult - bytes == 0 {
      assert whole.cost(at) > 0;
      TooBig(whole, most, result, bytes, maxResult);
      return Err(LimitExceeded), end;
    }
    cursor.limits := Limits(cursor.limits.maxEvents, Min(maxResult - bytes, most));
    ghost var w := cursor.Rest();
    var batch := cursor.NextBatch(stop);
    if batch.Err? {
      if batch.error != Interrupted {
        TooBig(w, most, result, bytes, maxResult);
      }
      return Err(batch.error), end;
    }
    end :| BatchOf(w, end, batch.value.value) && cursor.next == After(w, end);
    CollectMore(w, most, result, bytes, end, batch.value.value);
    return Ok(batch.value.value), end;
  }

  /**
   The compatibility collector: every retained event, once each and in order, exactly when each
   fits a batch and together they fit a result -- unless it is interrupted.
   */
  method Collect(d: EntityData, table: Table, cost: nat -> nat, most: Limits, maxResult: nat, stop: nat -> bool)
    returns (r: Result<seq<Event>>)
    requires Sound(d, table) && most.maxEvents > 0 && most.maxBytes > 0
    requires forall v: nat :: cost(v) > 0
    ensures r == Err(Interrupted) ==> Stops(stop)
    ensures r.Ok? ==>
              && Covers(Events(d), d.base.version + 1, d.current.version + 1)
              && r.value == Span(Events(d), d.base.version + 1, d.current.version + 1)
    ensures r != Err(Interrupted) ==> (r.Ok? <==> Fits(d, cost, most.maxBytes, maxResult))
  {
    var accepted := History(d, table, cost, Options(None, None, Limits(256, most.maxBytes)), most);
    var cursor := accepted.value;
    ghost var end, at: nat := d.current.version + 1, d.base.version + 1;
    StartCollecting(d, table, cost, most.maxBytes);
    var result, bytes: nat := [], 0;
    while cursor.next.Some?
      invariant fresh(cursor) && cursor.Valid() && cursor.last == d.current.version && cursor.cost == cost
      invariant cursor.next == if at == end then None else Some(at)
      invariant cursor.next.Some? ==> cursor.snapshot == Some(d)
      invariant Collected(d, cost, most.maxBytes, at, result, bytes) && bytes <= maxResult
      decreases end - at
    {
      var batch;
      batch, at := CollectBatch(cursor, d, most.maxBytes, maxResult, cursor.next.value, result, bytes, stop);
      if batch.Err? {
        return Err(batch.error);
      }
      if bytes + batch.value.bytes > maxResult {
        assert false;
        return Err(LimitExceeded);
      }
      bytes, result := bytes + batch.value.bytes, result + batch.value.events;
    }
    return Ok(result);
  }
}
