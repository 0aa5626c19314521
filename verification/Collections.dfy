/**
 One whole checkpoint (database.rs, checkpoint): the occupancy of the generations decides what is drained,
 and the build moves that and no more.
 */
module Collections {
  import opened Results
  import opened Partitions
  import opened Archives
  import opened SortedKeys
  import opened Numberings
  import opened TableBuilds
  import opened Occupancies
  import opened Manifests
  import C = Checkpoints
  import P = CollectionPlans
  import T = Transactions

  // ----- the occupancy of a generation -----

  /** The counters of one slot, added up over the tables below `bound`. */
  function TotalTo(counters: Counters, slot: nat, bound: nat): Occupancy {
    if bound == 0 then Occupancy(0, 0)
    else
      var rest, one := TotalTo(counters, slot, bound - 1), OccupancyOf(counters, bound - 1, slot);
      Occupancy(rest.entities + one.entities, rest.dead + one.dead)
  }

  lemma {:induction false} NothingBetween(counters: Counters, slot: nat, low: nat, high: nat)
    requires low <= high && forall table :: low <= table < high ==> (table, slot) !in counters
    ensures TotalTo(counters, slot, high) == TotalTo(counters, slot, low)
  {
    if low < high {
      NothingBetween(counters, slot, low, high - 1);
    }
  }

  /** Above all tables with counters. */
  ghost predicate AboveAll(counters: Counters, slot: nat, bound: nat) {
    forall key :: key in counters && key.1 == slot ==> key.0 < bound
  }

  /** Root::totals. */
  method Totals(counters: Counters, slot: nat) returns (total: Occupancy, ghost bound: nat)
    ensures AboveAll(counters, slot, bound) && total == TotalTo(counters, slot, bound)
  {
    total, bound := Occupancy(0, 0), 0;
    var tables := Sorted(set key | key in counters && key.1 == slot :: (key.0, 0));
    for i := 0 to |tables|
      invariant total == TotalTo(counters, slot, bound) && bound == if i == 0 then 0 else tables[i - 1].0 + 1
      invariant forall j :: 0 <= j < |tables| ==> tables[j] in tables
    {
      var table := tables[i].0;
      Between(counters, slot, tables, i, bound);
      NothingBetween(counters, slot, bound, table);
      total := Occupancy(total.entities + counters[(table, slot)].entities, total.dead + counters[(table, slot)].dead);
      bound := table + 1;
    }
    forall key | key in counters && key.1 == slot ensures key.0 < bound {
      assert (key.0, 0) in tables;
      var j :| 0 <= j < |tables| && tables[j] == (key.0, 0);
      assert j < |tables| - 1 ==> Less(tables[j], tables[|tables| - 1]);
    }
  }

  lemma Between(counters: Counters, slot: nat, tables: seq<Pair>, i: nat, bound: nat)
    requires Ascending(tables) && i < |tables| && bound == if i == 0 then 0 else tables[i - 1].0 + 1
    requires forall pair :: pair in tables <==> pair.1 == 0 && (pair.0, slot) in counters
    ensures (tables[i].0, slot) in counters && bound <= tables[i].0
    ensures forall table :: bound <= table < tables[i].0 ==> (table, slot) !in counters
  {
    assert tables[i] in tables;
    if i > 0 {
      assert tables[i - 1] in tables && Less(tables[i - 1], tables[i]);
    }
    forall table | bound <= table < tables[i].0 ensures (table, slot) !in counters {
      forall j | 0 <= j < |tables| ensures tables[j] != (table, 0) {
        if j < i {
          assert j < i - 1 ==> Less(tables[j], tables[i - 1]);
        } else {
          assert i < j ==> Less(tables[i], tables[j]);
        }
      }
      assert (table, 0) !in tables;
    }
  }

  // ----- what the counters count -----

  /** The entities located in a generation, over the tables below `bound`. */
  function LocatedTo(s: State, slot: nat, bound: nat): set<T.Key> {
    set table, id |
      table in s.tables && table < bound && id in s.tables[table].disk
      && C.At(Sealed(s.tables[table].source.parts), id, slot) :: (table, id)
  }

  /** Those of all tables. */
  function LocatedKeys(s: State, slot: nat): set<T.Key> {
    set table, id |
      table in s.tables && id in s.tables[table].disk && C.At(Sealed(s.tables[table].source.parts), id, slot)
      :: (table, id)
  }

  lemma MoreLocated(s: State, slot: nat, table: nat)
    ensures LocatedTo(s, slot, table + 1) == LocatedTo(s, slot, table) + Tagged(table, LocatedIn(s, slot, table))
    ensures |LocatedTo(s, slot, table + 1)| == |LocatedTo(s, slot, table)| + |LocatedIn(s, slot, table)|
  {
    var before, more, after := LocatedTo(s, slot, table), Tagged(table, LocatedIn(s, slot, table)),
        LocatedTo(s, slot, table + 1);
    forall key ensures key in after <==> key in before || key in more {
    }
    assert after == before + more && before !! more;
    TaggedCount(table, LocatedIn(s, slot, table));
  }

  /** The entities of one table in a generation. */
  function LocatedIn(s: State, slot: nat, table: nat): set<nat> {
    if table in s.tables then IdsAt(s.tables[table].source.parts, s.tables[table].disk.Keys, slot) else {}
  }

  /** A table's counter is right. */
  ghost predicate OneCounts(s: State, slot: nat, table: nat) {
    var one := OccupancyOf(s.manifest.occupancy, table, slot);
    one.entities == one.dead + |LocatedIn(s, slot, table)|
  }

  lemma OneTable(s: State, slot: nat, table: nat)
    requires TableOk(s, table) && slot < |s.manifest.generations|
    ensures OneCounts(s, slot, table)
  {
    if table in s.catalog {
      assert SlotOk(s.manifest, table, s.tables[table].disk.Keys, slot);
    } else {
      assert NoneCounted(s.manifest, table, slot);
    }
  }

  ghost predicate CountsAt(counters: Counters, slot: nat, one: nat -> nat, table: nat) {
    OccupancyOf(counters, table, slot).entities == OccupancyOf(counters, table, slot).dead + one(table)
  }

  ghost predicate AddsAt(one: nat -> nat, all: nat -> nat, table: nat) {
    all(table + 1) == all(table) + one(table)
  }

  /** Sums of right counters are right. */
  lemma {:induction false} SumsCount(
    counters: Counters, slot: nat, one: nat -> nat, all: nat -> nat, bound: nat)
    requires forall table :: CountsAt(counters, slot, one, table) && AddsAt(one, all, table)
    requires all(0) == 0
    ensures TotalTo(counters, slot, bound).entities == TotalTo(counters, slot, bound).dead + all(bound)
  {
    if bound > 0 {
      SumsCount(counters, slot, one, all, bound - 1);
      assert CountsAt(counters, slot, one, bound - 1) && AddsAt(one, all, bound - 1);
    }
  }

  /** entities - dead is the number of entities located there. */
  lemma TotalsCount(s: State, slot: nat, bound: nat)
    requires forall table :: OneCounts(s, slot, table)
    ensures var total := TotalTo(s.manifest.occupancy, slot, bound);
            total.entities == total.dead + |LocatedTo(s, slot, bound)|
  {
    var one, all := (table: nat) => |LocatedIn(s, slot, table)|, (table: nat) => |LocatedTo(s, slot, table)|;
    NoneLocated(s, slot);
    forall table: nat ensures CountsAt(s.manifest.occupancy, slot, one, table) && AddsAt(one, all, table) {
      MoreLocated(s, slot, table);
      assert OneCounts(s, slot, table);
    }
    SumsCount(s.manifest.occupancy, slot, one, all, bound);
  }

  lemma NoneLocated(s: State, slot: nat)
    ensures LocatedTo(s, slot, 0) == {}
  {
  }

  lemma AllLocated(s: State, slot: nat, bound: nat)
    requires AboveAll(s.manifest.occupancy, slot, bound) && forall table :: OneCounts(s, slot, table)
    ensures LocatedTo(s, slot, bound) == LocatedKeys(s, slot)
  {
    forall key | key in LocatedKeys(s, slot) ensures key.0 < bound {
      assert OneCounts(s, slot, key.0) && key.1 in LocatedIn(s, slot, key.0);
      assert OccupancyOf(s.manifest.occupancy, key.0, slot) != Occupancy(0, 0);
    }
  }

  // ----- the survey -----

  /** Of what was ever written into a generation, less than this part is still live. */
  predicate Sparse(total: Occupancy, ratio: real) {
    total.entities > 0 && (total.entities - total.dead) as real / total.entities as real < ratio
  }

  /** What the plan is made from: the entities that are really there, and whether they are few. */
  ghost predicate Surveyed(s: State, ratio: real, gens: seq<P.Generation>) {
    |gens| == |s.manifest.generations| && forall i :: 0 <= i < |gens| ==> SurveyedAt(s, ratio, i, gens[i])
  }

  ghost predicate SurveyedAt(s: State, ratio: real, i: nat, g: P.Generation)
    requires i < |s.manifest.generations|
  {
    && g.number == s.manifest.generations[i] && g.live == |LocatedKeys(s, i)|
    && exists bound ::
         && AboveAll(s.manifest.occupancy, i, bound)
         && var total := TotalTo(s.manifest.occupancy, i, bound);
            g.live + total.dead == total.entities
            && (g.live > 0 ==> (g.sparse <==> g.live as real < ratio * total.entities as real))
  }

  lemma SparseMeans(live: nat, entities: nat, ratio: real)
    requires 0 < live <= entities
    ensures live as real / entities as real < ratio <==> live as real < ratio * entities as real
  {
    var share := live as real / entities as real;
    assert share * entities as real == live as real;
    if share < ratio {
      assert share * entities as real < ratio * entities as real;
    } else {
      assert share * entities as real >= ratio * entities as real;
    }
  }

  lemma TotalIsLive(s: State, i: nat, bound: nat, total: Occupancy)
    requires StateOk(s) && i < |s.manifest.generations| && AboveAll(s.manifest.occupancy, i, bound)
    requires total == TotalTo(s.manifest.occupancy, i, bound)
    ensures total.entities == total.dead + |LocatedKeys(s, i)|
  {
    forall table: nat ensures OneCounts(s, i, table) {
      assert TableOk(s, table);
      OneTable(s, i, table);
    }
    TotalsCount(s, i, bound);
    AllLocated(s, i, bound);
  }

  lemma SurveyOne(s: State, ratio: real, i: nat, bound: nat, total: Occupancy, g: P.Generation)
    requires i < |s.manifest.generations| && AboveAll(s.manifest.occupancy, i, bound)
    requires total == TotalTo(s.manifest.occupancy, i, bound) && total.entities == total.dead + |LocatedKeys(s, i)|
    requires g == P.Generation(s.manifest.generations[i], total.entities - total.dead, Sparse(total, ratio))
    ensures SurveyedAt(s, ratio, i, g)
  {
    if g.live > 0 {
      SparseMeans(g.live, total.entities, ratio);
    }
  }

  method Survey(s: State, ratio: real) returns (gens: seq<P.Generation>)
    requires StateOk(s)
    ensures Surveyed(s, ratio, gens)
  {
    gens := [];
    for i := 0 to |s.manifest.generations|
      invariant |gens| == i && forall j :: 0 <= j < i ==> SurveyedAt(s, ratio, j, gens[j])
    {
      var total; ghost var bound;
      total, bound := Totals(s.manifest.occupancy, i);
      TotalIsLive(s, i, bound, total);
      var g := P.Generation(s.manifest.generations[i], total.entities - total.dead, Sparse(total, ratio));
      SurveyOne(s, ratio, i, bound, total, g);
      gens := gens + [g];
    }
  }

  // ----- the plan and the build -----

  /** How many untouched entities were moved out of the first `n` generations. */
  function MovedTotal(s: State, next: Manifest, n: nat): nat
    requires |next.generations| > 0
  {
    if n == 0 then 0
    else MovedTotal(s, next, n - 1) + |MovedKeys(s, next.tables, n - 1, |next.generations| - 1)|
  }

  /** No more is moved out of a generation than the plan copies. */
  lemma MovedWithin(s: State, next: Manifest, plan: map<nat, nat>, i: nat, live: nat)
    requires |next.generations| > 0 && i < |s.manifest.generations| && KeepsToPlan(s, next, plan, i)
    requires live == |LocatedKeys(s, i)| && live <= U64_MAX
    ensures var generation := s.manifest.generations[i];
            |MovedKeys(s, next.tables, i, |next.generations| - 1)| <=
            if generation in plan then (if plan[generation] < live then plan[generation] else live) else 0
  {
    assert UntouchedKeys(s, i) <= LocatedKeys(s, i);
    SubsetCount(UntouchedKeys(s, i), LocatedKeys(s, i));
  }

  lemma {:induction false} MovedIsPlanned(
    s: State, next: Manifest, plan: map<nat, nat>, ratio: real, gens: seq<P.Generation>, n: nat)
    requires |next.generations| > 0 && Surveyed(s, ratio, gens) && FollowsPlan(s, next, plan) && n <= |gens|
    requires forall i :: 0 <= i < |gens| ==> gens[i].live <= U64_MAX
    ensures MovedTotal(s, next, n) <= P.Copies(gens[..n], plan)
  {
    if n > 0 {
      MovedIsPlanned(s, next, plan, ratio, gens, n - 1);
      assert SurveyedAt(s, ratio, n - 1, gens[n - 1]) && KeepsToPlan(s, next, plan, n - 1);
      MovedWithin(s, next, plan, n - 1, gens[n - 1].live);
      assert gens[..n][..n - 1] == gens[..n - 1];
    }
  }

  /** The next manifest has the generations that the plan leaves, and the new one. */
  lemma {:induction false} StayingIsKept(
    s: State, ratio: real, gens: seq<P.Generation>, plan: map<nat, nat>, n: nat)
    requires Surveyed(s, ratio, gens) && n <= |gens|
    ensures P.Staying(gens[..n], plan) == KeptCount(s.manifest.generations[..n], Absorbed(plan))
  {
    if n > 0 {
      StayingIsKept(s, ratio, gens, plan, n - 1);
      assert SurveyedAt(s, ratio, n - 1, gens[n - 1]);
      assert gens[..n][..n - 1] == gens[..n - 1];
      assert s.manifest.generations[..n][..n - 1] == s.manifest.generations[..n - 1];
    }
  }

  /** A generation nothing is located in is not in the next manifest. */
  ghost predicate EmptyGone(s: State, plan: map<nat, nat>) {
    forall i :: 0 <= i < |s.manifest.generations| && LocatedKeys(s, i) == {} ==>
      DrainedWhole(plan, s.manifest.generations[i])
  }

  /**
   checkpoint. It never fails for want of slots: the next manifest has at most 255 generations. It moves
   at most `limit` entities that nobody touched, unless it had to fill exactly 255 slots.
   */
  method Checkpoint(s: State, maxGenerations: nat, ratio: real, limit: nat, generation: nat, style: Style)
    returns (next: Manifest, grown: map<nat, Archive>, plan: map<nat, nat>, ghost gens: seq<P.Generation>)
    requires StateOk(s) && NewGeneration(s, generation) && StyleOk(style)
    requires maxGenerations >= 2 && Rising(s.manifest.generations)
    requires forall i :: 0 <= i < |s.manifest.generations| ==> |LocatedKeys(s, i)| <= U64_MAX
    ensures 0 < |next.generations| <= 255 && AllBuilt(s, next, grown)
    ensures (forall prior :: prior in s.manifest.generations ==> prior < generation) ==> Rising(next.generations)
    ensures Surveyed(s, ratio, gens) && P.InTurn(gens, plan) && EmptyGone(s, plan)
    ensures FollowsPlan(s, next, plan) && NoStrays(s, next, plan)
    ensures limit == 0 || |next.generations| == 255
            || MovedTotal(s, next, |s.manifest.generations|) <= limit
  {
    var surveyed := Survey(s, ratio);
    gens := surveyed;
    forall i | 0 <= i < |gens| ensures gens[i].live <= U64_MAX && gens[i].number == s.manifest.generations[i] {
      assert SurveyedAt(s, ratio, i, gens[i]);
    }
    ghost var chosen;
    plan, chosen := P.CollectionPlan(surveyed, maxGenerations, limit);
    var ok;
    ok, next, grown := Build(s, plan, generation, style);
    assert gens[..|gens|] == gens && s.manifest.generations[..|gens|] == s.manifest.generations;
    StayingIsKept(s, ratio, gens, plan, |gens|);
    MovedIsPlanned(s, next, plan, ratio, gens, |gens|);
    forall i | 0 <= i < |s.manifest.generations| && LocatedKeys(s, i) == {}
      ensures DrainedWhole(plan, s.manifest.generations[i])
    {
      assert SurveyedAt(s, ratio, i, gens[i]);
    }
  }
}
