/**
 Versioned history of one entity (model.rs, snapshot.rs, database.rs).

 The meaning of an entity is its retained base, one event per later version, and its current
 state.  The engine stores that meaning in three tiers -- a published checkpoint, committed
 events in memory, and the events a transaction is staging -- with acceleration snapshots
 beside each tier.  Reconstruction through any mix of them is plain replay from the base.
 */
module Histories {
  import opened Results
  import opened Model

  datatype History = History(base: Entity, current: Entity, events: map<nat, Event>)

  /** Plain replay: the state `version` reached from `base` by one event at a time. */
  function StateAt(base: Entity, events: map<nat, Event>, table: Table, version: nat): Result<Entity> {
    if version < base.version then Err(Corrupt)
    else if version == base.version then Ok(base)
    else
      match StateAt(base, events, table, version - 1)
      case Err(e) => Err(e)
      case Ok(state) => if version in events then ApplyEvent(state, events[version], table) else Err(Corrupt)
  }

  predicate ValidHistory(h: History, table: Table) {
    && h.base.version <= h.current.version
    && (forall v :: v in h.events ==> h.base.version < v <= h.current.version)
    && StateAt(h.base, h.events, table, h.current.version) == Ok(h.current)
  }

  lemma {:induction false} StateAtVersion(base: Entity, events: map<nat, Event>, table: Table, version: nat)
    requires StateAt(base, events, table, version).Ok?
    ensures base.version <= version
    ensures StateAt(base, events, table, version).value.version == version
    ensures StateAt(base, events, table, version).value.id == base.id
  {
    if base.version < version {
      StateAtVersion(base, events, table, version - 1);
    }
  }

  lemma {:induction false} EarlierStates(base: Entity, events: map<nat, Event>, table: Table, version: nat, last: nat)
    requires base.version <= version <= last
    requires StateAt(base, events, table, last).Ok?
    ensures StateAt(base, events, table, version).Ok?
    ensures forall v :: base.version < v <= last ==> v in events
    decreases last
  {
    if base.version < last {
      EarlierStates(base, events, table, if version < last then version else last - 1, last - 1);
    }
  }

  /** One step of a replay that is known to reach `last`. */
  lemma NextState(base: Entity, events: map<nat, Event>, table: Table, state: Entity, last: nat)
    requires StateAt(base, events, table, state.version) == Ok(state)
    requires base.version <= state.version < last
    requires StateAt(base, events, table, last).Ok?
    ensures state.version + 1 in events
    ensures ApplyEvent(state, events[state.version + 1], table).Ok?
    ensures ApplyEvent(state, events[state.version + 1], table) == StateAt(base, events, table, state.version + 1)
    ensures ApplyEvent(state, events[state.version + 1], table).value.version == state.version + 1
  {
    EarlierStates(base, events, table, state.version + 1, last);
    StateAtVersion(base, events, table, state.version + 1);
  }

  /** Replay depends only on the events between the base and the version. */
  lemma {:induction false} StateAtAgrees(
    base: Entity, a: map<nat, Event>, b: map<nat, Event>, table: Table, version: nat)
    requires forall v :: base.version < v <= version && v in a ==> v in b && b[v] == a[v]
    requires StateAt(base, a, table, version).Ok?
    ensures StateAt(base, b, table, version) == StateAt(base, a, table, version)
  {
    if base.version < version {
      StateAtAgrees(base, a, b, table, version - 1);
    }
  }

  /** Replay may start from any state it passes through. */
  lemma {:induction false} StateAtFrom(base: Entity, events: map<nat, Event>, table: Table, middle: nat, version: nat)
    requires base.version <= middle <= version
    requires StateAt(base, events, table, middle).Ok?
    ensures StateAt(StateAt(base, events, table, middle).value, events, table, version)
            == StateAt(base, events, table, version)
  {
    StateAtVersion(base, events, table, middle);
    if middle < version {
      StateAtFrom(base, events, table, middle, version - 1);
    }
  }

  /** Later schema versions do not change any state already reached. */
  lemma {:induction false} StateAtUnderExtension(
    base: Entity, events: map<nat, Event>, prior: Table, later: Table, version: nat)
    requires Extends(prior, later)
    requires StateAt(base, events, prior, version).Ok?
    ensures StateAt(base, events, later, version) == StateAt(base, events, prior, version)
  {
    if base.version < version {
      StateAtUnderExtension(base, events, prior, later, version - 1);
      ApplyUnderExtension(StateAt(base, events, prior, version - 1).value, events[version], prior, later);
    }
  }

  // ----- retention -----

  function From<X>(m: map<nat, X>, first: nat): map<nat, X> {
    map k | k in m && first <= k :: m[k]
  }

  /** The oldest version `count` retained events still reach, by saturating subtraction. */
  function RetainedFrom(current: Entity, count: nat): nat {
    if current.version < count then 0 else current.version - count
  }

  /** Keeps the last `count` events: the base moves to `current - count` when that is later. */
  function RetainHistory(h: History, table: Table, count: nat): History {
    var version := RetainedFrom(h.current, count);
    if version <= h.base.version then h
    else
      match StateAt(h.base, h.events, table, version)
      case Err(_) => h
      case Ok(base) => History(base, h.current, From(h.events, version + 1))
  }

  /** Moving the base forward along the replay leaves every later version unchanged. */
  lemma MovedBase(h: History, table: Table, version: nat, base: Entity)
    requires ValidHistory(h, table)
    requires h.base.version <= version <= h.current.version
    requires StateAt(h.base, h.events, table, version) == Ok(base)
    ensures base.version == version
    ensures ValidHistory(History(base, h.current, From(h.events, version + 1)), table)
    ensures forall v :: version <= v <= h.current.version ==>
              StateAt(base, From(h.events, version + 1), table, v) == StateAt(h.base, h.events, table, v)
  {
    StateAtVersion(h.base, h.events, table, version);
    var kept := From(h.events, version + 1);
    forall v | version <= v <= h.current.version
      ensures StateAt(base, kept, table, v) == StateAt(h.base, h.events, table, v)
    {
      EarlierStates(h.base, h.events, table, v, h.current.version);
      StateAtFrom(h.base, h.events, table, version, v);
      StateAtAgrees(base, h.events, kept, table, v);
    }
  }

  /** Every version that is still retained reads as before; the base is at `current - count` or later. */
  lemma RetentionKeepsVersions(h: History, table: Table, count: nat, version: nat)
    requires ValidHistory(h, table)
    ensures var r := RetainHistory(h, table, count);
            && ValidHistory(r, table)
            && r.current == h.current
            && (h.current.version >= count && h.current.version - count > h.base.version ==>
               r.base.version == h.current.version - count)
            && (h.current.version <= count + h.base.version ==> r == h)
            && (r.base.version <= version <= h.current.version ==>
                  StateAt(r.base, r.events, table, version) == StateAt(h.base, h.events, table, version))
  {
    var first := RetainedFrom(h.current, count);
    if first > h.base.version {
      EarlierStates(h.base, h.events, table, first, h.current.version);
      MovedBase(h, table, first, StateAt(h.base, h.events, table, first).value);
    }
  }

  // ----- the checkpointed tier -----

  /** One entity as a published checkpoint holds it, with the table definition of that checkpoint. */
  datatype Persisted = Persisted(table: Table, current: Entity, base: Entity, events: map<nat, Event>,
      snapshots: map<nat, Entity>)

  predicate PersistedOk(p: Persisted) {
    && p.base.version <= p.current.version
    && StateAt(p.base, p.events, p.table, p.current.version) == Ok(p.current)
    && forall v :: v in p.snapshots ==>
         p.base.version <= v <= p.current.version && StateAt(p.base, p.events, p.table, v) == Ok(p.snapshots[v])
  }

  /** The greatest key not above `key`. */
  function Floor<X>(m: map<nat, X>, key: nat): (r: Option<nat>)
    ensures r.Some? ==> r.value in m && r.value <= key && forall k :: r.value < k <= key ==> k !in m
    ensures r.None? ==> forall k :: 0 <= k <= key ==> k !in m
  {
    if key in m then Some(key) else if key == 0 then None else Floor(m, key - 1)
  }

  /** Root::advance: from a known state to `version`, optionally through the nearest snapshot. */
  method Advance(p: Persisted, from: Entity, version: nat, useSnapshots: bool) returns (r: Result<Entity>)
    requires PersistedOk(p)
    requires p.base.version <= from.version <= version <= p.current.version
    requires StateAt(p.base, p.events, p.table, from.version) == Ok(from)
    ensures r.Ok? && r == StateAt(p.base, p.events, p.table, version)
  {
    var state := from;
    if useSnapshots {
      var floor := Floor(p.snapshots, version);
      if floor.Some? && floor.value >= state.version {
        state := p.snapshots[floor.value];
        StateAtVersion(p.base, p.events, p.table, floor.value);
      }
    }
    for v := state.version + 1 to version + 1
      invariant state.version == v - 1
      invariant StateAt(p.base, p.events, p.table, v - 1) == Ok(state)
    {
      NextState(p.base, p.events, p.table, state, p.current.version);
      if v in p.events {
        match ApplyEvent(state, p.events[v], p.table)
        case Err(e) => return Err(e);
        case Ok(next) => state := next;
      }
    }
    if state.version != version {
      return Err(Corrupt);
    }
    return Ok(state);
  }

  // ----- an entity in memory -----

  datatype EntityData = EntityData(
    current: Entity,
    base: Entity,
    events: seq<Event>,
    committed: map<nat, Event>,
    snapshots: map<nat, Entity>,
    disk: Option<Persisted>)

  /** The last version this transaction did not itself stage. */
  function Settled(d: EntityData): int {
    d.current.version - |d.events|
  }

  predicate OnDisk(d: EntityData, version: nat) {
    d.disk.Some? && version <= d.disk.value.current.version
  }

  /** The event that produced `version`, wherever it is kept. */
  function EventOf(d: EntityData, version: nat): Option<Event> {
    if OnDisk(d, version) then (if version in d.disk.value.events then Some(d.disk.value.events[version]) else None)
    else if version in d.committed then Some(d.committed[version])
    else if Settled(d) < version <= d.current.version then Some(d.events[version - Settled(d) - 1])
    else None
  }

  function Events(d: EntityData): map<nat, Event> {
    map v | d.base.version < v <= d.current.version && EventOf(d, v).Some? :: EventOf(d, v).value
  }

  function Meaning(d: EntityData): History {
    History(d.base, d.current, Events(d))
  }

  /** The tiers are disjoint and in order: checkpoint, then committed, then staged. */
  predicate Tiered(d: EntityData) {
    && d.base.version <= d.current.version
    && d.base.version <= Settled(d)
    && (forall i :: 0 <= i < |d.events| ==> d.events[i].version == Settled(d) + 1 + i)
    && (forall v :: v in d.committed ==> d.base.version < v <= Settled(d) && !OnDisk(d, v))
    && (d.disk.Some? ==>
          && d.disk.value.current.version <= Settled(d)
          && forall v :: v in d.snapshots ==> d.disk.value.current.version <= v)
  }

  predicate DiskAgrees(d: EntityData, p: Persisted, table: Table) {
    && PersistedOk(p)
    && Extends(p.table, table)
    && p.base.version <= d.base.version
    && (d.base.version <= p.current.version ==> StateAt(p.base, p.events, p.table, d.base.version) == Ok(d.base))
  }

  predicate Valid(d: EntityData, table: Table) {
    && Tiered(d)
    && (d.disk.Some? ==> DiskAgrees(d, d.disk.value, table))
    && ValidHistory(Meaning(d), table)
    && SnapshotsAgree(d, table)
  }

  /** Inside the checkpointed range both replays agree. */
  lemma DiskStates(d: EntityData, table: Table, version: nat)
    requires Valid(d, table) && d.disk.Some?
    requires d.base.version <= version <= d.disk.value.current.version
    ensures StateAt(d.base, Events(d), table, version)
            == StateAt(d.disk.value.base, d.disk.value.events, d.disk.value.table, version)
    ensures StateAt(d.base, Events(d), table, version).Ok?
  {
    var p := d.disk.value;
    EarlierStates(p.base, p.events, p.table, version, p.current.version);
    StateAtFrom(p.base, p.events, p.table, d.base.version, version);
    StateAtUnderExtension(d.base, p.events, p.table, table, version);
    StateAtAgrees(d.base, p.events, Events(d), table, version);
  }

  /** The closest state not above `version` that no in-memory event is needed for. */
  method Nearest(d: EntityData, table: Table, version: nat, useSnapshots: bool) returns (r: Result<Entity>)
    requires Valid(d, table)
    requires d.base.version <= version <= d.current.version
    ensures r.Ok? && d.base.version <= r.value.version <= version
    ensures StateAt(d.base, Events(d), table, r.value.version) == r
    ensures !OnDisk(d, r.value.version + 1) || r.value.version == version
  {
    var state := d.base;
    if useSnapshots {
      var floor := Floor(d.snapshots, version);
      if floor.Some? && d.snapshots[floor.value].version >= state.version {
        state := d.snapshots[floor.value];
      }
    }
    if d.disk.Some? && state.version < Min(version, d.disk.value.current.version) {
      var p := d.disk.value;
      var target := Min(version, p.current.version);
      DiskStates(d, table, target);
      StateAtVersion(p.base, p.events, p.table, target);
      if useSnapshots && version >= p.current.version {
        state := p.current;
      } else {
        DiskStates(d, table, state.version);
        r := Advance(p, state, target, useSnapshots);
        return r;
      }
    }
    return Ok(state);
  }

  /** Above the checkpoint and below the staged events, the next event is a committed one. */
  lemma NextCommitted(d: EntityData, table: Table, state: Entity)
    requires Valid(d, table)
    requires d.base.version <= state.version < Settled(d) && !OnDisk(d, state.version + 1)
    requires StateAt(d.base, Events(d), table, state.version) == Ok(state)
    ensures state.version + 1 in d.committed
    ensures ApplyEvent(state, d.committed[state.version + 1], table).Ok?
    ensures ApplyEvent(state, d.committed[state.version + 1], table)
            == StateAt(d.base, Events(d), table, state.version + 1)
    ensures ApplyEvent(state, d.committed[state.version + 1], table).value.version == state.version + 1
  {
    NextState(d.base, Events(d), table, state, d.current.version);
  }

  /** Above the committed events, the next event is a staged one. */
  lemma NextStaged(d: EntityData, table: Table, state: Entity)
    requires Valid(d, table)
    requires Settled(d) <= state.version < d.current.version
    requires StateAt(d.base, Events(d), table, state.version) == Ok(state)
    ensures ApplyEvent(state, d.events[state.version - Settled(d)], table).Ok?
    ensures ApplyEvent(state, d.events[state.version - Settled(d)], table)
            == StateAt(d.base, Events(d), table, state.version + 1)
    ensures ApplyEvent(state, d.events[state.version - Settled(d)], table).value.version == state.version + 1
  {
    NextState(d.base, Events(d), table, state, d.current.version);
  }

  /** The committed events above `from`, applied up to `version`. */
  method ThroughCommitted(d: EntityData, table: Table, from: Entity, version: nat) returns (r: Result<Entity>)
    requires Valid(d, table)
    requires d.base.version <= from.version <= version <= d.current.version
    requires StateAt(d.base, Events(d), table, from.version) == Ok(from)
    requires !OnDisk(d, from.version + 1) || from.version == version
    ensures r.Ok? && StateAt(d.base, Events(d), table, r.value.version) == r
    ensures r.value.version == if version <= Settled(d) then version
            else if from.version <= Settled(d) then Settled(d) else from.version
  {
    var state := from;
    for v := from.version + 1 to version + 1
      invariant StateAt(d.base, Events(d), table, state.version) == Ok(state)
      invariant state.version == if v - 1 <= Settled(d) then v - 1 else if from.version <= Settled(d) then Settled(d)
                else from.version
    {
      if v <= Settled(d) {
        NextCommitted(d, table, state);
      }
      if v in d.committed {
        match ApplyEvent(state, d.committed[v], table)
        case Err(e) => return Err(e);
        case Ok(next) => state := next;
      }
    }
    return Ok(state);
  }

  /** The staged events above `from`, applied up to `version`. */
  method ThroughStaged(d: EntityData, table: Table, from: Entity, version: nat) returns (r: Result<Entity>)
    requires Valid(d, table)
    requires d.base.version <= from.version <= version <= d.current.version
    requires StateAt(d.base, Events(d), table, from.version) == Ok(from)
    requires from.version == version || Settled(d) <= from.version
    ensures r.Ok? && r.value.version == version
    ensures StateAt(d.base, Events(d), table, version) == r
  {
    var state := from;
    for i := 0 to |d.events|
      invariant from.version <= state.version <= version && ReachedIn(d, table, state)
      invariant state.version == version || state.version >= Settled(d) + i
    {
      var next := ThroughOne(d, table, state, i, version);
      match next
      case Err(e) => return Err(e);
      case Ok(later) => state := later;
    }
    return Ok(state);
  }

  /** A state the replay passes through; folded. */
  ghost predicate ReachedIn(d: EntityData, table: Table, state: Entity) {
    forall same: EntityData :: same == d ==> StateAt(same.base, Events(same), table, state.version) == Ok(state)
  }

  /** One staged event, when it lies ahead and within the version asked for. */
  method ThroughOne(d: EntityData, table: Table, state: Entity, i: nat, version: nat) returns (r: Result<Entity>)
    requires Valid(d, table) && i < |d.events| && d.base.version <= state.version <= version <= d.current.version
    requires ReachedIn(d, table, state) && (state.version == version || state.version >= Settled(d) + i)
    ensures r.Ok? && state.version <= r.value.version <= version && ReachedIn(d, table, r.value)
    ensures r.value.version == version || r.value.version >= Settled(d) + i + 1
  {
    if d.events[i].version <= version && d.events[i].version > state.version {
      NextStaged(d, table, state);
      match ApplyEvent(state, d.events[i], table)
      case Err(e) => return Err(e);
      case Ok(next) => return Ok(next);
    }
    return Ok(state);
  }

  /** EntityData::at. Every retained version, through snapshots or not, is plain replay from the base. */
  method At(d: EntityData, table: Table, version: nat, useSnapshots: bool) returns (r: Result<Entity>)
    requires Valid(d, table)
    ensures version < d.base.version || d.current.version < version ==>
              r == Err(VersionUnavailable(version, d.base.version, d.current.version))
    ensures d.base.version <= version <= d.current.version ==> r.Ok? && r == StateAt(d.base, Events(d), table, version)
  {
    if version < d.base.version || version > d.current.version {
      return Err(VersionUnavailable(version, d.base.version, d.current.version));
    }
    if useSnapshots && version == d.current.version {
      return Ok(d.current);
    }
    var nearest := Nearest(d, table, version, useSnapshots);
    match nearest
    case Err(e) => return Err(e);
    case Ok(start) =>
      var settled := ThroughCommitted(d, table, start, version);
      match settled
      case Err(e) => return Err(e);
      case Ok(state) =>
        r := ThroughStaged(d, table, state, version);
  }

  function Min(a: nat, b: nat): nat {
    if a < b then a else b
  }

  // ----- edits -----

  predicate SnapshotsAgree(d: EntityData, table: Table) {
    forall v :: v in d.snapshots ==>
      && v <= d.current.version
      && d.snapshots[v].version == v
      && (d.base.version <= v ==> StateAt(d.base, Events(d), table, v) == Ok(d.snapshots[v]))
  }

  /** All but the staged events reach version `from`, or only the base does. */
  predicate BuildsOn(d: EntityData, from: nat) {
    from <= Settled(d) && (Settled(d) == from || Settled(d) <= d.base.version)
  }

  /** EntityData::retain. The meaning is exactly the retained history. */
  method Retain(d: EntityData, table: Table, count: nat) returns (r: Result<EntityData>)
    requires Valid(d, table)
    ensures r.Ok? && Valid(r.value, table)
    ensures Meaning(r.value) == RetainHistory(Meaning(d), table, count) && r.value.disk == d.disk
    ensures forall from: nat :: BuildsOn(d, from) ==> BuildsOn(r.value, from)
  {
    var version := RetainedFrom(d.current, count);
    if version <= d.base.version {
      return Ok(d);
    }
    var base := At(d, table, version, true);
    match base
    case Err(e) => return Err(e);
    case Ok(state) =>
      r := Ok(Retained(d, version, state));
      RetainedValid(d, table, version, state);
      assert r.value.base == state && r.value.current == d.current;
  }

  function Retained(d: EntityData, version: nat, base: Entity): EntityData
    requires Tiered(d) && d.base.version < version <= d.current.version
  {
    EntityData(d.current, base, if version <= Settled(d) then d.events else d.events[version - Settled(d)..],
               From(d.committed, version + 1), From(d.snapshots, version), d.disk)
  }

  lemma RetainedTiers(d: EntityData, version: nat, base: Entity)
    requires Tiered(d) && d.base.version < version <= d.current.version && base.version == version
    ensures Tiered(Retained(d, version, base))
    ensures Events(Retained(d, version, base)) == From(Events(d), version + 1)
  {
    var next := Retained(d, version, base);
    forall v | version < v <= d.current.version ensures EventOf(next, v) == EventOf(d, v) {}
  }

  lemma RetainedValid(d: EntityData, table: Table, version: nat, base: Entity)
    requires Valid(d, table) && d.base.version < version <= d.current.version
    requires StateAt(d.base, Events(d), table, version) == Ok(base)
    ensures Valid(Retained(d, version, base), table)
    ensures Events(Retained(d, version, base)) == From(Events(d), version + 1)
  {
    MovedBase(Meaning(d), table, version, base);
    RetainedTiers(d, version, base);
    if OnDisk(d, version) {
      DiskStates(d, table, version);
    }
  }

  /** Two layouts of the same versions: only the tiers differ. */
  lemma SameVersions(d: EntityData, r: EntityData, table: Table)
    requires Valid(d, table) && Tiered(r)
    requires r.base == d.base && r.current == d.current
    requires forall v :: d.base.version < v <= d.current.version ==> EventOf(r, v) == EventOf(d, v)
    requires r.disk.Some? ==> DiskAgrees(r, r.disk.value, table)
    requires forall v :: v in r.snapshots ==>
               (v == d.current.version && r.snapshots[v] == d.current)
                   || (v in d.snapshots && d.snapshots[v] == r.snapshots[v])
    ensures Valid(r, table) && Meaning(r) == Meaning(d)
  {
    assert Events(r) == Events(d);
  }

  /** EntityData::seal: publishing moves the staged events into the committed tier and changes no version. */
  method Seal(d: EntityData, table: Table) returns (r: EntityData)
    requires Valid(d, table)
    ensures r.events == [] && r.disk == d.disk && r.snapshots == d.snapshots
    ensures Valid(r, table) && Meaning(r) == Meaning(d)
  {
    var committed := d.committed;
    for i := 0 to |d.events|
      invariant forall v :: v in committed <==> v in d.committed || Settled(d) < v <= Settled(d) + i
      invariant forall v :: v in d.committed ==> committed[v] == d.committed[v]
      invariant forall v :: Settled(d) < v <= Settled(d) + i ==>
                v in committed && committed[v] == d.events[v - Settled(d) - 1]
    {
      committed := committed[d.events[i].version := d.events[i]];
    }
    r := EntityData(d.current, d.base, [], committed, d.snapshots, d.disk);
    SealedTiers(d, r);
    SameVersions(d, r, table);
  }

  lemma SealedTiers(d: EntityData, r: EntityData)
    requires Tiered(d)
    requires r == EntityData(d.current, d.base, [], r.committed, d.snapshots, d.disk)
    requires forall v :: v in r.committed <==> v in d.committed || Settled(d) < v <= d.current.version
    requires forall v :: v in d.committed ==> r.committed[v] == d.committed[v]
    requires forall v :: Settled(d) < v <= d.current.version ==> r.committed[v] == d.events[v - Settled(d) - 1]
    ensures Tiered(r)
    ensures forall v :: d.base.version < v <= d.current.version ==> EventOf(r, v) == EventOf(d, v)
  {
  }

  /** A checkpoint record holds an earlier part of this entity's history. */
  predicate EarlierRecord(p: Persisted, d: EntityData, table: Table) {
    && DiskAgrees(d, p, table)
    && p.current.version <= Settled(d)
    && forall v :: d.base.version < v <= p.current.version ==> v in p.events && EventOf(d, v) == Some(p.events[v])
  }

  /** The commit-time rebind to a newer checkpoint changes no version. */
  method Rebind(d: EntityData, p: Persisted, table: Table) returns (r: EntityData)
    requires Valid(d, table)
    requires EarlierRecord(p, d, table)
    requires d.disk.Some? ==> d.disk.value.current.version <= p.current.version
    ensures r.disk == Some(p) && r.events == d.events && r.base == d.base && r.current == d.current
    ensures Valid(r, table) && Meaning(r) == Meaning(d)
  {
    r := Rebound(d, p);
    ReboundTiers(d, p, table);
    SameVersions(d, r, table);
  }

  function Rebound(d: EntityData, p: Persisted): EntityData {
    EntityData(d.current, d.base, d.events, From(d.committed, p.current.version + 1),
        From(d.snapshots, p.current.version), Some(p))
  }

  lemma ReboundTiers(d: EntityData, p: Persisted, table: Table)
    requires Tiered(d) && EarlierRecord(p, d, table)
    requires d.disk.Some? ==> d.disk.value.current.version <= p.current.version
    ensures Tiered(Rebound(d, p))
    ensures forall v :: d.base.version < v <= d.current.version ==> EventOf(Rebound(d, p), v) == EventOf(d, v)
  {
  }

  lemma PushedStates(h: History, table: Table, event: Event)
    requires ValidHistory(h, table)
    requires ApplyEvent(h.current, event, table).Ok?
    ensures event.version == h.current.version + 1
    ensures ValidHistory(History(h.base, ApplyEvent(h.current, event, table).value, h.events[event.version := event]),
            table)
    ensures forall v :: h.base.version <= v <= h.current.version ==>
              StateAt(h.base, h.events[event.version := event], table, v) == StateAt(h.base, h.events, table, v)
  {
    var grown := h.events[event.version := event];
    forall v | h.base.version <= v <= h.current.version
      ensures StateAt(h.base, grown, table, v) == StateAt(h.base, h.events, table, v)
    {
      EarlierStates(h.base, h.events, table, v, h.current.version);
      StateAtAgrees(h.base, h.events, grown, table, v);
    }
  }

  /** A staged event extends the history by one version. */
  method Push(d: EntityData, table: Table, event: Event) returns (r: Result<EntityData>)
    requires Valid(d, table)
    ensures r.Ok? <==> ApplyEvent(d.current, event, table).Ok?
    ensures r.Ok? ==> Valid(r.value, table) && r.value.disk == d.disk
    ensures r.Ok? ==> Meaning(r.value) == History(d.base, ApplyEvent(d.current, event, table).value,
            Events(d)[event.version := event])
    ensures r.Ok? ==> forall from: nat :: BuildsOn(d, from) ==> BuildsOn(r.value, from)
  {
    match ApplyEvent(d.current, event, table)
    case Err(e) => return Err(e);
    case Ok(next) =>
      var grown := EntityData(next, d.base, d.events + [event], d.committed, d.snapshots, d.disk);
      PushedStates(Meaning(d), table, event);
      PushedEvents(d, event, next);
      return Ok(grown);
  }

  lemma PushedEvents(d: EntityData, event: Event, next: Entity)
    requires Tiered(d) && event.version == next.version == d.current.version + 1
    ensures var grown := EntityData(next, d.base, d.events + [event], d.committed, d.snapshots, d.disk);
            Tiered(grown) && Events(grown) == Events(d)[event.version := event]
  {
    var grown := EntityData(next, d.base, d.events + [event], d.committed, d.snapshots, d.disk);
    forall v | d.base.version < v <= d.current.version ensures EventOf(grown, v) == EventOf(d, v) {}
  }

  /** An acceleration snapshot of the current state leaves the meaning alone. */
  method Snapshot(d: EntityData, table: Table) returns (r: EntityData)
    requires Valid(d, table)
    ensures Valid(r, table) && Meaning(r) == Meaning(d) && r.disk == d.disk
    ensures forall from: nat :: BuildsOn(d, from) ==> BuildsOn(r, from)
  {
    r := EntityData(d.current, d.base, d.events, d.committed, d.snapshots[d.current.version := d.current], d.disk);
    SameVersions(d, r, table);
  }

  /** Loading a checkpoint record gives an entity with exactly the record's history. */
  method Load(p: Persisted, table: Table) returns (r: EntityData)
    requires PersistedOk(p) && Extends(p.table, table)
    ensures Valid(r, table) && r.disk == Some(p) && r.events == []
    ensures Meaning(r) == History(p.base, p.current, map v | v in p.events
            && p.base.version < v <= p.current.version :: p.events[v])
  {
    r := EntityData(p.current, p.base, [], map[], map[], Some(p));
    EarlierStates(p.base, p.events, p.table, p.current.version, p.current.version);
    StateAtUnderExtension(p.base, p.events, p.table, table, p.current.version);
    StateAtAgrees(p.base, p.events, Events(r), table, p.current.version);
  }

  /** Tiers that are right under one definition are right under every later one. */
  lemma DataUnderExtension(d: EntityData, prior: Table, later: Table)
    requires Valid(d, prior) && Extends(prior, later)
    ensures Valid(d, later)
  {
    StateAtUnderExtension(d.base, Events(d), prior, later, d.current.version);
    forall v | v in d.snapshots && d.base.version <= v
      ensures StateAt(d.base, Events(d), later, v) == Ok(d.snapshots[v])
    {
      StateAtUnderExtension(d.base, Events(d), prior, later, v);
    }
    if d.disk.Some? {
      var n := |prior.schemas|;
      assert later.schemas[..n] == prior.schemas;
    }
  }
}
