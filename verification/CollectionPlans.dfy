/**
 Which generations a checkpoint drains, and how far (database.rs, collection_plan).
 */
module CollectionPlans {
  import opened Results

  const MAX_SLOTS: nat := 256

  /** A generation of the manifest: its live entities, and whether its density fell below the threshold. */
  datatype Generation = Generation(number: nat, live: nat, sparse: bool)

  /** A candidate: dense ones last, and the emptiest first within each group. */
  datatype Candidate = Candidate(dense: bool, live: nat, number: nat)

  predicate NotAfter(a: Candidate, b: Candidate) {
    if a.dense != b.dense then b.dense
    else if a.live != b.live then a.live < b.live
    else a.number <= b.number
  }

  ghost predicate InOrder(queue: seq<Candidate>) {
    forall i, j :: 0 <= i < j < |queue| ==> NotAfter(queue[i], queue[j])
  }

  ghost predicate Distinct(gens: seq<Generation>) {
    forall i, j :: 0 <= i < j < |gens| ==> gens[i].number != gens[j].number
  }

  /** Drained whole: the generation leaves the manifest. */
  predicate Whole(plan: map<nat, nat>, number: nat) {
    number in plan && plan[number] == U64_MAX
  }

  /** How many generations stay in the next manifest. */
  function Staying(gens: seq<Generation>, plan: map<nat, nat>): nat {
    if gens == [] then 0
    else Staying(gens[..|gens| - 1], plan) + if Whole(plan, gens[|gens| - 1].number) then 0 else 1
  }

  /** How many live entities the plan copies. */
  function Copies(gens: seq<Generation>, plan: map<nat, nat>): nat {
    if gens == [] then 0
    else
      var last := gens[|gens| - 1];
      Copies(gens[..|gens| - 1], plan) + if last.number in plan
          then (if plan[last.number] < last.live then plan[last.number] else last.live) else 0
  }

  lemma {:induction false} Elsewhere(gens: seq<Generation>, plan: map<nat, nat>, number: nat, quota: nat)
    requires forall i :: 0 <= i < |gens| ==> gens[i].number != number
    ensures Staying(gens, plan[number := quota]) == Staying(gens, plan)
    ensures Copies(gens, plan[number := quota]) == Copies(gens, plan)
  {
    if gens != [] {
      Elsewhere(gens[..|gens| - 1], plan, number, quota);
    }
  }

  /** What one more entry of the plan does to both counts. */
  lemma {:induction false} OneMore(gens: seq<Generation>, plan: map<nat, nat>, i: nat, quota: nat)
    requires i < |gens| && Distinct(gens) && !Whole(plan, gens[i].number)
    ensures Staying(gens, plan[gens[i].number := quota]) == Staying(gens, plan) - if quota == U64_MAX then 1 else 0
    ensures gens[i].number !in plan ==>
              Copies(gens, plan[gens[i].number := quota]) == Copies(gens, plan) + if quota < gens[i].live then quota
                  else gens[i].live
    ensures Staying(gens, plan) > 0
  {
    var n := |gens| - 1;
    if i == n {
      Elsewhere(gens[..n], plan, gens[i].number, quota);
    } else {
      OneMore(gens[..n], plan, i, quota);
    }
  }

  lemma {:induction false} NoneCopied(gens: seq<Generation>)
    ensures Staying(gens, map[]) == |gens| && Copies(gens, map[]) == 0
  {
    if gens != [] {
      NoneCopied(gens[..|gens| - 1]);
    }
  }

  lemma {:induction false} AllWhole(gens: seq<Generation>, plan: map<nat, nat>)
    requires forall i :: 0 <= i < |gens| ==> Whole(plan, gens[i].number)
    ensures Staying(gens, plan) == 0
  {
    if gens != [] {
      AllWhole(gens[..|gens| - 1], plan);
    }
  }

  method First(waiting: set<Candidate>) returns (first: Candidate)
    requires waiting != {}
    ensures first in waiting && forall c :: c in waiting ==> NotAfter(first, c)
  {
    first :| first in waiting;
    var rest := waiting - {first};
    while rest != {}
      invariant first in waiting && rest <= waiting
      invariant forall c :: c in waiting && c !in rest ==> NotAfter(first, c)
      decreases rest
    {
      var c :| c in rest;
      rest := rest - {c};
      if NotAfter(c, first) {
        first := c;
      }
    }
  }

  /** sort_unstable: candidates are distinct, so their order decides the queue. */
  method Sort(waiting: set<Candidate>) returns (queue: seq<Candidate>)
    ensures InOrder(queue) && (forall c :: c in queue <==> c in waiting)
    ensures forall i, j :: 0 <= i < j < |queue| ==> queue[i] != queue[j]
  {
    queue := [];
    var rest := waiting;
    while rest != {}
      invariant rest <= waiting && InOrder(queue)
      invariant forall c :: c in waiting <==> c in queue || c in rest
      invariant forall i, c :: 0 <= i < |queue| && c in rest ==> NotAfter(queue[i], c) && queue[i] != c
      invariant forall i, j :: 0 <= i < j < |queue| ==> queue[i] != queue[j]
      decreases rest
    {
      var first := First(rest);
      queue := queue + [first];
      rest := rest - {first};
    }
  }

  function Of(g: Generation): Candidate {
    Candidate(!g.sparse, g.live, g.number)
  }

  function Waiting(gens: seq<Generation>): set<Candidate> {
    set g | g in gens && g.live > 0 :: Of(g)
  }

  /** Empty generations cost nothing. */
  ghost predicate EmptyOnly(gens: seq<Generation>, plan: map<nat, nat>) {
    && (forall i :: 0 <= i < |gens| ==> (gens[i].live == 0 <==> gens[i].number in plan))
    && (forall number :: number in plan ==> plan[number] == U64_MAX)
  }

  /** The empty ones among the first `n`. */
  ghost predicate EmptyTo(gens: seq<Generation>, n: nat, plan: map<nat, nat>) {
    && (forall i :: 0 <= i < |gens| ==> (i < n && gens[i].live == 0 <==> gens[i].number in plan))
    && (forall number :: number in plan ==> plan[number] == U64_MAX)
  }

  /** What the first `n` generations were sorted into, and what that costs. */
  ghost predicate Classified(gens: seq<Generation>, n: nat, plan: map<nat, nat>, waiting: set<Candidate>) {
    && n <= |gens| && EmptyTo(gens, n, plan) && waiting == Waiting(gens[..n])
    && |plan| <= n && Copies(gens, plan) == 0 && Staying(gens, plan) == |gens| - |plan|
  }

  lemma WaitingMore(gens: seq<Generation>, n: nat)
    requires n < |gens|
    ensures Waiting(gens[..n + 1]) == Waiting(gens[..n]) + if gens[n].live > 0 then {Of(gens[n])} else {}
  {
    assert gens[..n + 1] == gens[..n] + [gens[n]];
  }

  lemma ClassifyEmpty(gens: seq<Generation>, n: nat, plan: map<nat, nat>, waiting: set<Candidate>)
    requires Distinct(gens) && n < |gens| && Classified(gens, n, plan, waiting) && gens[n].live == 0
    ensures Classified(gens, n + 1, plan[gens[n].number := U64_MAX], waiting)
  {
    OneMore(gens, plan, n, U64_MAX);
    WaitingMore(gens, n);
  }

  lemma ClassifyLive(gens: seq<Generation>, n: nat, plan: map<nat, nat>, waiting: set<Candidate>)
    requires Distinct(gens) && n < |gens| && Classified(gens, n, plan, waiting) && gens[n].live > 0
    ensures Classified(gens, n + 1, plan, waiting + {Of(gens[n])})
  {
    WaitingMore(gens, n);
  }

  method Classify(gens: seq<Generation>) returns (plan: map<nat, nat>, queue: seq<Candidate>, slots: nat)
    requires Distinct(gens)
    ensures EmptyOnly(gens, plan) && Copies(gens, plan) == 0 && slots == Staying(gens, plan) + 1
    ensures InOrder(queue) && (forall c :: c in queue <==> c in Waiting(gens))
    ensures forall i, j :: 0 <= i < j < |queue| ==> queue[i] != queue[j]
  {
    plan := map[];
    var waiting: set<Candidate> := {};
    NoneCopied(gens);
    for n := 0 to |gens|
      invariant Classified(gens, n, plan, waiting)
    {
      if gens[n].live == 0 {
        ClassifyEmpty(gens, n, plan, waiting);
        plan := plan[gens[n].number := U64_MAX];
      } else {
        ClassifyLive(gens, n, plan, waiting);
        waiting := waiting + {Of(gens[n])};
      }
    }
    assert gens[..|gens|] == gens;
    queue := Sort(waiting);
    slots := |gens| - |plan| + 1;
  }

  /** The generation a candidate stands for. */
  lemma Behind(gens: seq<Generation>, c: Candidate) returns (i: nat)
    requires c in Waiting(gens)
    ensures i < |gens| && Of(gens[i]) == c && c.live > 0
  {
    var g :| g in gens && g.live > 0 && Of(g) == c;
    i :| i < |gens| && gens[i] == g;
  }

  lemma DifferentNumbers(gens: seq<Generation>, a: Candidate, b: Candidate)
    requires Distinct(gens) && a in Waiting(gens) && b in Waiting(gens) && a != b
    ensures a.number != b.number
  {
    var i := Behind(gens, a);
    var j := Behind(gens, b);
    if i < j {
      assert gens[i].number != gens[j].number;
    } else {
      assert gens[j].number != gens[i].number;
    }
  }

  /** The queue up to `i` is drained whole, and the rest is untouched. */
  ghost predicate DrainedTo(gens: seq<Generation>, queue: seq<Candidate>, i: nat, plan: map<nat, nat>) {
    && (forall j :: 0 <= j < i && j < |queue| ==> Whole(plan, queue[j].number))
    && (forall j :: i <= j < |queue| ==> queue[j].number !in plan)
  }

  ghost predicate Ready(gens: seq<Generation>, queue: seq<Candidate>) {
    && Distinct(gens) && InOrder(queue)
    && (forall i :: 0 <= i < |gens| ==> gens[i].live <= U64_MAX)
    && (forall c :: c in queue <==> c in Waiting(gens))
    && (forall i, j :: 0 <= i < j < |queue| ==> queue[i] != queue[j])
  }

  lemma DrainOne(gens: seq<Generation>, queue: seq<Candidate>, i: nat, plan: map<nat, nat>)
    requires Ready(gens, queue) && i < |queue| && DrainedTo(gens, queue, i, plan)
    ensures DrainedTo(gens, queue, i + 1, plan[queue[i].number := U64_MAX])
    ensures Staying(gens, plan) > 0 && Staying(gens, plan[queue[i].number := U64_MAX]) == Staying(gens, plan) - 1
    ensures Copies(gens, plan[queue[i].number := U64_MAX]) == Copies(gens, plan) + queue[i].live
  {
    assert queue[i] in queue;
    var g := Behind(gens, queue[i]);
    OneMore(gens, plan, g, U64_MAX);
    forall j | 0 <= j < |queue| && j != i ensures queue[j].number != queue[i].number {
      assert queue[j] in queue && queue[j] != queue[i];
      DifferentNumbers(gens, queue[i], queue[j]);
    }
  }

  lemma DrainPart(gens: seq<Generation>, queue: seq<Candidate>, i: nat, plan: map<nat, nat>, quota: nat)
    requires Ready(gens, queue) && i < |queue| && DrainedTo(gens, queue, i, plan) && quota < queue[i].live
    ensures Staying(gens, plan[queue[i].number := quota]) == Staying(gens, plan)
    ensures Copies(gens, plan[queue[i].number := quota]) == Copies(gens, plan) + quota
  {
    assert queue[i] in queue;
    var g := Behind(gens, queue[i]);
    OneMore(gens, plan, g, quota);
  }

  /** When nothing waits, nothing stays. */
  lemma NothingStays(gens: seq<Generation>, queue: seq<Candidate>, empty: map<nat, nat>, plan: map<nat, nat>)
    requires Ready(gens, queue) && EmptyOnly(gens, empty)
    requires forall number :: number in empty ==> Whole(plan, number)
    requires forall j :: 0 <= j < |queue| ==> Whole(plan, queue[j].number)
    ensures Staying(gens, plan) == 0
  {
    forall i | 0 <= i < |gens| ensures Whole(plan, gens[i].number) {
      if gens[i].live > 0 {
        assert gens[i] in gens && Of(gens[i]) in Waiting(gens);
        assert Of(gens[i]) in queue;
      }
    }
    AllWhole(gens, plan);
  }

  /** Nothing sparse is left to drain. */
  ghost predicate NoneSparse(gens: seq<Generation>, plan: map<nat, nat>) {
    forall i :: 0 <= i < |gens| && gens[i].sparse ==> Whole(plan, gens[i].number)
  }

  lemma OnlyDenseLeft(gens: seq<Generation>, queue: seq<Candidate>, i: nat, empty: map<nat, nat>, plan: map<nat, nat>)
    requires Ready(gens, queue) && EmptyOnly(gens, empty) && DrainedTo(gens, queue, i, plan)
    requires forall number :: number in empty ==> Whole(plan, number)
    requires i < |queue| ==> queue[i].dense
    ensures NoneSparse(gens, plan)
  {
    forall g | 0 <= g < |gens| && gens[g].sparse ensures Whole(plan, gens[g].number) {
      if gens[g].live > 0 {
        assert gens[g] in gens && Of(gens[g]) in Waiting(gens);
        var j :| 0 <= j < |queue| && queue[j] == Of(gens[g]);
      }
    }
  }

  // ----- who comes first -----

  /** The plan takes one generation rather than another: a sparse one first, then the emptier, then the older. */
  ghost predicate Sooner(a: Generation, b: Generation) {
    || (a.sparse && !b.sparse)
    || (a.sparse == b.sparse && (a.live < b.live || (a.live == b.live && a.number <= b.number)))
  }

  /** Nothing is taken from a generation while one that comes sooner is not drained whole. */
  ghost predicate InTurn(gens: seq<Generation>, plan: map<nat, nat>) {
    forall i, j :: 0 <= i < |gens| && 0 <= j < |gens| ==> Turn(plan, gens[i], gens[j])
  }

  ghost predicate Turn(plan: map<nat, nat>, a: Generation, b: Generation) {
    a.live > 0 && a.number in plan && !(b.number in plan && plan[b.number] == U64_MAX) ==> Sooner(a, b)
  }

  /** A dense generation is taken only to make room, and only part of a generation when nothing more may be copied. */
  ghost predicate Thrifty(gens: seq<Generation>, plan: map<nat, nat>, maxGenerations: nat, limit: nat) {
    forall i :: 0 <= i < |gens| ==>
      && ThriftyAt(gens[i], plan, Staying(gens, plan) + 1, maxGenerations)
      && (gens[i].number in plan && plan[gens[i].number] != U64_MAX ==>
            && 0 < plan[gens[i].number] < gens[i].live
            && Copies(gens, plan) == if limit == 0 then U64_MAX else limit)
  }

  ghost predicate ThriftyAt(g: Generation, plan: map<nat, nat>, slots: nat, maxGenerations: nat) {
    g.live > 0 && !g.sparse && g.number in plan ==>
      slots >= maxGenerations && (plan[g.number] != U64_MAX ==> slots > maxGenerations)
  }

  /** Where a live generation stands in the queue. */
  lemma InQueue(gens: seq<Generation>, queue: seq<Candidate>, g: nat) returns (a: nat)
    requires Ready(gens, queue) && g < |gens| && gens[g].live > 0
    ensures a < |queue| && queue[a] == Of(gens[g])
  {
    assert gens[g] in gens && Of(gens[g]) in Waiting(gens);
    a :| a < |queue| && queue[a] == Of(gens[g]);
  }

  lemma QueueTurn(gens: seq<Generation>, queue: seq<Candidate>, g: nat, h: nat, a: nat, b: nat)
    requires InOrder(queue) && g < |gens| && h < |gens| && a <= b < |queue|
    requires queue[a] == Of(gens[g]) && queue[b] == Of(gens[h])
    ensures Sooner(gens[g], gens[h])
  {
    assert a < b ==> NotAfter(queue[a], queue[b]);
  }

  /** What stands before `i` is drained whole, and of the rest only the one at `i`, if any, is in the plan. */
  ghost predicate TakenTo(queue: seq<Candidate>, i: nat, plan: map<nat, nat>) {
    && (forall j :: 0 <= j < i && j < |queue| ==> Whole(plan, queue[j].number))
    && (forall j :: i < j < |queue| ==> queue[j].number !in plan)
  }

  lemma TakenInTurn(gens: seq<Generation>, queue: seq<Candidate>, i: nat, empty: map<nat, nat>, plan: map<nat, nat>)
    requires Ready(gens, queue) && EmptyOnly(gens, empty) && TakenTo(queue, i, plan)
    requires forall number :: number in empty ==> Whole(plan, number)
    ensures InTurn(gens, plan)
  {
    forall g, h | 0 <= g < |gens| && 0 <= h < |gens| ensures Turn(plan, gens[g], gens[h]) {
      if gens[g].live > 0 && gens[g].number in plan && !Whole(plan, gens[h].number) {
        var a := InQueue(gens, queue, g);
        var b := InQueue(gens, queue, h);
        QueueTurn(gens, queue, g, h, a, b);
      }
    }
  }

  /** Dense ones were drained whole only above the wanted number of generations, or the last one in part. */
  lemma TakenThrifty(
    gens: seq<Generation>, queue: seq<Candidate>, i: nat, plan: map<nat, nat>, slots: nat, maxGenerations: nat)
    requires Ready(gens, queue) && TakenTo(queue, i, plan) && i <= |queue|
    requires i > 0 && queue[i - 1].dense ==> slots >= maxGenerations
    requires i < |queue| && queue[i].number in plan && queue[i].dense ==> slots > maxGenerations
    ensures forall g :: 0 <= g < |gens| ==> ThriftyAt(gens[g], plan, slots, maxGenerations)
  {
    forall g | 0 <= g < |gens| ensures ThriftyAt(gens[g], plan, slots, maxGenerations) {
      if gens[g].live > 0 && gens[g].number in plan {
        var a := InQueue(gens, queue, g);
        assert a < i - 1 ==> NotAfter(queue[a], queue[i - 1]);
      }
    }
  }

  /** Everything in the plan but the one at `i` is drained whole. */
  lemma OnlyPart(
    gens: seq<Generation>, queue: seq<Candidate>, i: nat, empty: map<nat, nat>, plan: map<nat, nat>, g: nat)
    requires Ready(gens, queue) && EmptyOnly(gens, empty) && TakenTo(queue, i, plan) && g < |gens|
    requires forall number :: number in empty ==> Whole(plan, number)
    requires gens[g].number in plan && plan[gens[g].number] != U64_MAX
    ensures i < |queue| && queue[i] == Of(gens[g]) && gens[g].live > 0
  {
    if gens[g].live > 0 {
      var a := InQueue(gens, queue, g);
    }
  }

  /** The plan is right where the budgeted pass stops. */
  lemma Stopped(
    gens: seq<Generation>, queue: seq<Candidate>, i: nat, empty: map<nat, nat>, plan: map<nat, nat>, slots: nat,
    maxGenerations: nat, limit: nat)
    requires Ready(gens, queue) && EmptyOnly(gens, empty) && TakenTo(queue, i, plan) && i <= |queue|
    requires forall number :: number in empty ==> Whole(plan, number)
    requires slots == Staying(gens, plan) + 1 && (i > 0 && queue[i - 1].dense ==> slots >= maxGenerations)
    requires i < |queue| && queue[i].number in plan ==>
               && (queue[i].dense ==> slots > maxGenerations) && 0 < plan[queue[i].number] < queue[i].live
               && Copies(gens, plan) == if limit == 0 then U64_MAX else limit
    ensures InTurn(gens, plan) && Thrifty(gens, plan, maxGenerations, limit)
  {
    TakenInTurn(gens, queue, i, empty, plan);
    TakenThrifty(gens, queue, i, plan, slots, maxGenerations);
    forall g | 0 <= g < |gens| && gens[g].number in plan && plan[gens[g].number] != U64_MAX
      ensures 0 < plan[gens[g].number] < gens[g].live && Copies(gens, plan) == if limit == 0 then U64_MAX else limit
    {
      OnlyPart(gens, queue, i, empty, plan, g);
    }
  }

  /** Whole generations from the front of the queue, added to a plan that is in turn. */
  lemma FitInTurn(gens: seq<Generation>, queue: seq<Candidate>, i: nat, chosen: map<nat, nat>, plan: map<nat, nat>)
    requires Ready(gens, queue) && InTurn(gens, chosen) && i <= |queue|
    requires forall j :: 0 <= j < i ==> Whole(plan, queue[j].number)
    requires forall number :: Whole(chosen, number) ==> Whole(plan, number)
    requires forall g :: 0 <= g < |gens| && gens[g].live == 0 ==> Whole(plan, gens[g].number)
    requires forall number :: number in plan ==> number in chosen || exists j :: 0 <= j < i && queue[j].number == number
    ensures InTurn(gens, plan)
  {
    forall g, h | 0 <= g < |gens| && 0 <= h < |gens| ensures Turn(plan, gens[g], gens[h]) {
      if gens[g].live > 0 && gens[g].number in plan && !Whole(plan, gens[h].number) {
        if gens[g].number in chosen {
          assert Turn(chosen, gens[g], gens[h]);
        } else {
          var a := InQueue(gens, queue, g);
          var b := InQueue(gens, queue, h);
          var j :| 0 <= j < i && queue[j].number == gens[g].number;
          assert queue[j] in queue && queue[a] in queue;
          if queue[j] != queue[a] {
            DifferentNumbers(gens, queue[j], queue[a]);
          }
          QueueTurn(gens, queue, g, h, a, b);
        }
      }
    }
  }

  /** The budgeted pass: sparse generations first, then dense ones while there are too many generations. */
  method Choose(
    gens: seq<Generation>, empty: map<nat, nat>, queue: seq<Candidate>, start: nat, maxGenerations: nat, limit: nat)
    returns (plan: map<nat, nat>, slots: nat)
    requires Ready(gens, queue) && EmptyOnly(gens, empty) && maxGenerations >= 2
    requires Copies(gens, empty) == 0 && start == Staying(gens, empty) + 1
    ensures slots == Staying(gens, plan) + 1 && Copies(gens, plan) <= if limit == 0 then U64_MAX else limit
    ensures Copies(gens, plan) == (if limit == 0 then U64_MAX else limit)
            || (slots <= maxGenerations && NoneSparse(gens, plan))
    ensures forall number :: number in empty ==> Whole(plan, number)
    ensures InTurn(gens, plan) && Thrifty(gens, plan, maxGenerations, limit)
  {
    plan, slots := empty, start;
    var budget := if limit == 0 then U64_MAX else limit;
    ghost var most := budget;
    var i := 0;
    forall j | 0 <= j < |queue| ensures queue[j].number !in empty {
      assert queue[j] in queue;
      var g := Behind(gens, queue[j]);
    }
    while i < |queue|
      invariant 0 <= i <= |queue| && 0 <= budget && DrainedTo(gens, queue, i, plan)
      invariant slots == Staying(gens, plan) + 1 && Copies(gens, plan) + budget == most
      invariant forall number :: number in empty ==> Whole(plan, number)
      invariant i > 0 && queue[i - 1].dense ==> slots >= maxGenerations
    {
      if budget == 0 {
        Stopped(gens, queue, i, empty, plan, slots, maxGenerations, limit);
        return;
      }
      if queue[i].dense && slots <= maxGenerations {
        OnlyDenseLeft(gens, queue, i, empty, plan);
        Stopped(gens, queue, i, empty, plan, slots, maxGenerations, limit);
        return;
      }
      if queue[i].live > budget {
        DrainPart(gens, queue, i, plan, budget);
        PartTaken(gens, queue, i, plan, budget);
        plan := plan[queue[i].number := budget];
        Stopped(gens, queue, i, empty, plan, slots, maxGenerations, limit);
        return;
      }
      assert i > 0 ==> NotAfter(queue[i - 1], queue[i]);
      DrainOne(gens, queue, i, plan);
      plan := plan[queue[i].number := U64_MAX];
      budget, slots, i := budget - queue[i].live, slots - 1, i + 1;
    }
    OnlyDenseLeft(gens, queue, i, empty, plan);
    NothingStays(gens, queue, empty, plan);
    Stopped(gens, queue, i, empty, plan, slots, maxGenerations, limit);
  }

  lemma PartTaken(gens: seq<Generation>, queue: seq<Candidate>, i: nat, plan: map<nat, nat>, quota: nat)
    requires Ready(gens, queue) && i < |queue| && DrainedTo(gens, queue, i, plan)
    ensures TakenTo(queue, i, plan[queue[i].number := quota])
  {
    forall j | 0 <= j < |queue| && j != i ensures queue[j].number != queue[i].number {
      assert queue[i] in queue && queue[j] in queue && queue[j] != queue[i];
      DifferentNumbers(gens, queue[i], queue[j]);
    }
  }

  /** The slot limit: whole generations are drained, whatever the budget, until the manifest fits. */
  method Fit(gens: seq<Generation>, empty: map<nat, nat>, queue: seq<Candidate>, chosen: map<nat, nat>, start: nat)
    returns (plan: map<nat, nat>)
    requires Ready(gens, queue) && EmptyOnly(gens, empty)
    requires start == Staying(gens, chosen) + 1 && forall number :: number in empty ==> Whole(chosen, number)
    ensures Staying(gens, plan) + 1 < MAX_SLOTS
    requires InTurn(gens, chosen)
    ensures start < MAX_SLOTS ==> plan == chosen
    ensures start >= MAX_SLOTS ==> Staying(gens, plan) + 2 == MAX_SLOTS
    ensures forall number :: Whole(chosen, number) ==> Whole(plan, number)
    ensures InTurn(gens, plan)
  {
    plan := chosen;
    var slots := start;
    for i := 0 to |queue|
      invariant slots == Staying(gens, plan) + 1
      invariant start < MAX_SLOTS ==> plan == chosen
      invariant forall number :: Whole(chosen, number) ==> Whole(plan, number)
      invariant start >= MAX_SLOTS ==> slots >= MAX_SLOTS - 1
      invariant forall j :: 0 <= j < i ==> Whole(plan, queue[j].number)
      invariant forall number :: number in plan ==>
                  number in chosen || exists j :: 0 <= j < i && queue[j].number == number
    {
      if slots < MAX_SLOTS {
        FitInTurn(gens, queue, i, chosen, plan);
        return;
      }
      assert queue[i] in queue;
      if !Whole(plan, queue[i].number) {
        ghost var g := Behind(gens, queue[i]);
        OneMore(gens, plan, g, U64_MAX);
        slots := slots - 1;
      } else {
        assert plan[queue[i].number := U64_MAX] == plan;
      }
      plan := plan[queue[i].number := U64_MAX];
    }
    NothingStays(gens, queue, empty, plan);
    FitInTurn(gens, queue, |queue|, chosen, plan);
  }

  /**
   collection_plan. The next manifest always fits its slots. Without the slot limit the plan copies no
   more than the budget, and either the budget ran out or no sparse generation stays and at most
   `maxGenerations` generations remain. With and without it sparse generations go before dense ones,
   and the emptiest first; dense ones go only to make room.
   */
  method CollectionPlan(gens: seq<Generation>, maxGenerations: nat, limit: nat)
    returns (plan: map<nat, nat>, ghost chosen: map<nat, nat>)
    requires Distinct(gens) && maxGenerations >= 2 && forall i :: 0 <= i < |gens| ==> gens[i].live <= U64_MAX
    ensures Staying(gens, plan) + 1 < MAX_SLOTS
    ensures Copies(gens, chosen) <= if limit == 0 then U64_MAX else limit
    ensures Copies(gens, chosen) == (if limit == 0 then U64_MAX else limit)
            || (Staying(gens, chosen) + 1 <= maxGenerations && NoneSparse(gens, chosen))
    ensures InTurn(gens, chosen) && InTurn(gens, plan) && Thrifty(gens, chosen, maxGenerations, limit)
    ensures if Staying(gens, chosen) + 1 < MAX_SLOTS then plan == chosen else Staying(gens, plan) + 2 == MAX_SLOTS
    ensures forall number :: Whole(chosen, number) ==> Whole(plan, number)
    ensures forall i :: 0 <= i < |gens| && gens[i].live == 0 ==> Whole(plan, gens[i].number)
  {
    var empty, queue, slots := Classify(gens);
    var first, count := Choose(gens, empty, queue, slots, maxGenerations, limit);
    chosen := first;
    plan := Fit(gens, empty, queue, first, count);
    assert forall i :: 0 <= i < |gens| && gens[i].live == 0 ==> gens[i].number in empty;
  }
}
