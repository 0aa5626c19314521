/**
 When two transactions conflict, and what one led group may publish (shared.rs, database.rs).
 */
module Conflicts {
  import opened Results
  import opened Model
  import opened Histories
  import opened Transactions

  /** A transaction ready to commit: its begin sequence, what it writes, its operations and what they staged. */
  datatype Batch = Batch(began: nat, keys: set<Key>, catalog: bool, ops: seq<Operation>, stage: Stage,
      deadline: Option<nat>)

  /** The batch was staged on `view`, and names what it writes. */
  ghost predicate StagedOn(batch: Batch, view: View) {
    && RunsTo(view, batch.ops, batch.began + 1, batch.stage)
    && batch.keys == batch.stage.staged.Keys
    && batch.catalog == ChangesCatalog(batch.ops)
  }

  datatype Outcome = Committed(sequence: nat) | Conflict | DeadlineExceeded

  // ----- conflicts -----

  predicate Clash(first: Batch, second: Batch) {
    first.catalog || first.keys * second.keys != {}
  }

  /** Some transaction committed in `[first, last)` writes the catalog or one of the batch's keys. */
  ghost predicate Overtaken(log: seq<Batch>, batch: Batch, first: nat, last: nat) {
    exists i :: first <= i < last <= |log| && Clash(log[i], batch)
  }

  /** Between overlapping writers, the later one began after the earlier one committed. */
  ghost predicate FirstCommitterWins(log: seq<Batch>) {
    forall i, j :: 0 <= i < j < |log| && Clash(log[i], log[j]) ==> log[j].began > i
  }

  lemma WinnersExtend(log: seq<Batch>, batch: Batch)
    requires FirstCommitterWins(log) && !Overtaken(log, batch, batch.began, |log|)
    ensures FirstCommitterWins(log + [batch])
  {
    var longer := log + [batch];
    forall i, j | 0 <= i < j < |longer| && Clash(longer[i], longer[j]) ensures longer[j].began > i {
      assert longer[i] == log[i];
      if j < |log| {
        assert Clash(log[i], log[j]);
      }
    }
  }

  // ----- serial execution -----

  /** Running the batch's operations on `before` succeeds, writes the keys it names, and gives `after`. */
  ghost predicate SerialStep(before: View, batch: Batch, lsn: nat, after: View) {
    exists stage :: RunsTo(before, batch.ops, lsn, stage) && Writes(before, batch, stage, after)
  }

  ghost predicate Writes(before: View, batch: Batch, stage: Stage, after: View) {
    && after == Publish(before, stage)
    && batch.keys == stage.staged.Keys
    && batch.catalog == ChangesCatalog(batch.ops)
  }

  lemma StepFrame(before: View, batch: Batch, lsn: nat, after: View, key: Key)
    requires SerialStep(before, batch, lsn, after)
    ensures !batch.catalog ==> after.catalog == before.catalog
    ensures key !in batch.keys ==> (key in after.entities <==> key in before.entities)
    ensures key !in batch.keys && key in before.entities ==> after.entities[key] == before.entities[key]
  {
    var stage :| RunsTo(before, batch.ops, lsn, stage) && Writes(before, batch, stage, after);
    assert Run(before, batch.ops, lsn) == Ok(stage);
    StagedKeys(before, batch.ops, lsn);
  }

  lemma StepOk(before: View, batch: Batch, lsn: nat, after: View)
    requires ViewOk(before, lsn) && SerialStep(before, batch, lsn, after)
    ensures ViewOk(after, lsn)
  {
    var stage :| RunsTo(before, batch.ops, lsn, stage) && Writes(before, batch, stage, after);
    assert Run(before, batch.ops, lsn) == Ok(stage);
    PublishOk(before, batch.ops, lsn);
  }

  /** `views` is the serial execution of `log`. */
  ghost predicate Serial(views: seq<View>, log: seq<Batch>) {
    Steps(views, log) && forall i :: 0 <= i < |views| ==> ViewOk(views[i], i)
  }

  ghost predicate Steps(views: seq<View>, log: seq<Batch>) {
    |views| == |log| + 1 && forall i :: 0 <= i < |log| ==> SerialStep(views[i], log[i], i + 1, views[i + 1])
  }

  /** A key nobody wrote since `first` still reads the same, under the same catalog. */
  lemma {:induction false} Untouched(views: seq<View>, log: seq<Batch>, first: nat, last: nat, key: Key)
    requires Serial(views, log) && first <= last <= |log|
    requires forall i :: first <= i < last ==> !log[i].catalog && key !in log[i].keys
    ensures views[first].catalog == views[last].catalog
    ensures AgreeOn(views[first], views[last], key, first)
  {
    if first < last {
      Untouched(views, log, first, last - 1, key);
      assert SerialStep(views[last - 1], log[last - 1], last - 1 + 1, views[last - 1 + 1]);
      StepFrame(views[last - 1], log[last - 1], last, views[last], key);
    } else {
      assert ViewOk(views[first], first);
    }
  }

  lemma NotOvertaken(views: seq<View>, log: seq<Batch>, batch: Batch)
    requires Serial(views, log) && batch.began <= |log|
    requires StagedOn(batch, views[batch.began])
    requires !Overtaken(log, batch, batch.began, |log|)
    ensures views[batch.began].catalog == views[|log|].catalog
    ensures AgreeOnKeys(views[batch.began], views[|log|], batch.ops, batch.began)
  {
    var began := batch.began;
    forall i | began <= i < |log| ensures !log[i].catalog && log[i].keys * batch.keys == {} {
      assert !Clash(log[i], batch);
    }
    SameCatalog(views, log, began, |log|);
    assert Run(views[began], batch.ops, began + 1) == Ok(batch.stage);
    StagedKeys(views[began], batch.ops, began + 1);
    forall i | 0 <= i < |batch.ops| && !batch.ops[i].DefineTable?
      ensures AgreeOn(views[began], views[|log|], batch.ops[i].key, began)
    {
      var key := batch.ops[i].key;
      assert Names(batch.ops, key);
      forall j | began <= j < |log| ensures key !in log[j].keys {
        assert key !in log[j].keys * batch.keys;
      }
      Untouched(views, log, began, |log|, key);
    }
  }

  /** The stamped result of a transaction staged at its begin sequence is its serial execution at the next sequence. */
  lemma PublicationIsSerial(views: seq<View>, log: seq<Batch>, batch: Batch)
    requires Serial(views, log) && batch.began <= |log| < U64_MAX
    requires StagedOn(batch, views[batch.began])
    requires !Overtaken(log, batch, batch.began, |log|)
    ensures SerialStep(views[|log|], batch, |log| + 1,
            Publish(views[|log|], StampStage(batch.stage, batch.began, |log| + 1)))
  {
    NotOvertaken(views, log, batch);
    StagedPublicationIsSerial(views[batch.began], views[|log|], batch.ops, batch.stage, batch.began, |log| + 1);
    assert Writes(views[|log|], batch, StampStage(batch.stage, batch.began, |log| + 1),
                  Publish(views[|log|], StampStage(batch.stage, batch.began, |log| + 1)));
  }

  lemma PublicationRecorded(views: seq<View>, log: seq<Batch>, batch: Batch)
    requires Recorded(views, log) && |views| == |log| + 1 && batch.began <= |log| < U64_MAX
    requires StagedOn(batch, views[batch.began])
    requires !Overtaken(log, batch, batch.began, |log|)
    ensures Recorded(views + [Publish(views[|log|], StampStage(batch.stage, batch.began, |log| + 1))], log + [batch])
  {
    assert Serial(views, log);
    PublicationIsSerial(views, log, batch);
    ExtendSerial(views, log, batch, Publish(views[|log|], StampStage(batch.stage, batch.began, |log| + 1)));
  }

  lemma {:induction false} SameCatalog(views: seq<View>, log: seq<Batch>, first: nat, last: nat)
    requires Steps(views, log) && first <= last <= |log|
    requires forall i :: first <= i < last ==> !log[i].catalog
    ensures views[first].catalog == views[last].catalog
  {
    if first < last {
      SameCatalog(views, log, first, last - 1);
      assert SerialStep(views[last - 1], log[last - 1], last - 1 + 1, views[last - 1 + 1]);
      StepFrame(views[last - 1], log[last - 1], last, views[last], (0, 0));
    }
  }

  lemma ExtendSerial(views: seq<View>, log: seq<Batch>, batch: Batch, after: View)
    requires Serial(views, log) && SerialStep(views[|log|], batch, |log| + 1, after)
    ensures Serial(views + [after], log + [batch])
  {
    var grown, longer := views + [after], log + [batch];
    assert ViewOk(views[|log|], |log|);
    LaterView(views[|log|], |log|, |log| + 1);
    StepOk(views[|log|], batch, |log| + 1, after);
    forall i | 0 <= i < |grown| ensures ViewOk(grown[i], i) {
      assert i < |views| ==> grown[i] == views[i];
    }
    forall i | 0 <= i < |longer| ensures SerialStep(grown[i], longer[i], i + 1, grown[i + 1]) {
      assert i < |log| ==> longer[i] == log[i] && grown[i] == views[i] && grown[i + 1] == views[i + 1];
    }
  }

  // ----- the coordinator's memory -----

  /** Every write is remembered, or is older than everything still running. */
  ghost predicate Remembers(log: seq<Batch>, revisions: map<Key, nat>, catalogRevision: nat, pins: multiset<nat>) {
    && (forall i, key :: 0 <= i < |log| && key in log[i].keys ==>
          (key in revisions && revisions[key] > i) || (forall pin :: pin in pins ==> pin > i))
    && (forall i :: 0 <= i < |log| && log[i].catalog ==> catalogRevision > i)
  }

  /** A remembered revision is the sequence of a commit that wrote it. */
  ghost predicate Accurate(log: seq<Batch>, revisions: map<Key, nat>, catalogRevision: nat) {
    && (forall key :: key in revisions ==> 0 < revisions[key] <= |log| && key in log[revisions[key] - 1].keys)
    && (catalogRevision == 0 || (catalogRevision <= |log| && log[catalogRevision - 1].catalog))
  }

  /** run_group's test of one batch against committed revisions. */
  predicate Stale(batch: Batch, revisions: map<Key, nat>, catalogRevision: nat) {
    catalogRevision > batch.began || exists key :: key in batch.keys && key in revisions && revisions[key] > batch.began
  }

  /** The revision test refuses a live batch exactly when somebody committed over it. */
  lemma StaleExactlyWhenOvertaken(
    log: seq<Batch>, batch: Batch, revisions: map<Key, nat>, catalogRevision: nat, pins: multiset<nat>)
    requires Remembers(log, revisions, catalogRevision, pins) && Accurate(log, revisions, catalogRevision)
    requires batch.began in pins
    ensures Stale(batch, revisions, catalogRevision) <==> Overtaken(log, batch, batch.began, |log|)
  {
    if catalogRevision > batch.began {
      assert Clash(log[catalogRevision - 1], batch);
    } else if Stale(batch, revisions, catalogRevision) {
      var key :| key in batch.keys && key in revisions && revisions[key] > batch.began;
      assert key in log[revisions[key] - 1].keys * batch.keys;
      assert Clash(log[revisions[key] - 1], batch);
    }
  }

  lemma PrunedStillRemembers(
    log: seq<Batch>, revisions: map<Key, nat>, catalogRevision: nat, pins: multiset<nat>, oldest: nat)
    requires Remembers(log, revisions, catalogRevision, pins) && Accurate(log, revisions, catalogRevision)
    requires forall pin :: pin in pins ==> oldest <= pin
    ensures Remembers(log, Pruned(revisions, oldest), catalogRevision, pins)
            && Accurate(log, Pruned(revisions, oldest), catalogRevision)
  {
    var kept := Pruned(revisions, oldest);
    forall i, key | 0 <= i < |log| && key in log[i].keys
      ensures (key in kept && kept[key] > i) || (forall pin :: pin in pins ==> pin > i)
    {
    }
  }

  function Recording(revisions: map<Key, nat>, keys: set<Key>, lsn: nat): map<Key, nat> {
    revisions + map key | key in keys :: lsn
  }

  function Pruned(revisions: map<Key, nat>, oldest: nat): map<Key, nat> {
    map key | key in revisions && revisions[key] > oldest :: revisions[key]
  }

  lemma RecordedStillRemembers(
    log: seq<Batch>, revisions: map<Key, nat>, catalogRevision: nat, pins: multiset<nat>, batch: Batch)
    requires Remembers(log, revisions, catalogRevision, pins) && Accurate(log, revisions, catalogRevision)
    ensures var lsn := |log| + 1;
            var next := Revised(catalogRevision, batch, lsn);
            var recorded := Recording(revisions, batch.keys, lsn);
            Remembers(log + [batch], recorded, next, pins) && Accurate(log + [batch], recorded, next)
  {
    var lsn := |log| + 1;
    var recorded := Recording(revisions, batch.keys, lsn);
    forall i, key | 0 <= i < lsn && key in (log + [batch])[i].keys
      ensures (key in recorded && recorded[key] > i) || (forall pin :: pin in pins ==> pin > i)
    {
      if i < |log| {
        assert key in log[i].keys;
      }
    }
  }

  /** The history so far, folded away from the bookkeeping proofs. */
  ghost predicate Recorded(views: seq<View>, log: seq<Batch>) {
    forall v, l :: v == views && l == log ==> Serial(v, l)
  }

  ghost predicate Sound(
    views: seq<View>, log: seq<Batch>, revisions: map<Key, nat>, catalogRevision: nat, pins: multiset<nat>)
  {
    && Recorded(views, log)
    && FirstCommitterWins(log)
    && Remembers(log, revisions, catalogRevision, pins)
    && Accurate(log, revisions, catalogRevision)
    && forall pin :: pin in pins ==> pin <= |log|
  }

  function Revised(catalogRevision: nat, batch: Batch, lsn: nat): nat {
    if batch.catalog then lsn else catalogRevision
  }

  lemma PublicationSound(
    views: seq<View>, log: seq<Batch>, revisions: map<Key, nat>, catalogRevision: nat, pins: multiset<nat>,
    batch: Batch, after: View)
    requires Sound(views, log, revisions, catalogRevision, pins)
    requires |views| == |log| + 1 && |log| < U64_MAX
    requires batch.began in pins && batch.began <= |log| && StagedOn(batch, views[batch.began])
    requires !Overtaken(log, batch, batch.began, |log|)
    requires after == Publish(views[|log|], StampStage(batch.stage, batch.began, |log| + 1))
    ensures Sound(views + [after], log + [batch], Recording(revisions, batch.keys, |log| + 1),
            Revised(catalogRevision, batch, |log| + 1), pins)
  {
    PublicationRecorded(views, log, batch);
    WinnersExtend(log, batch);
    RecordedStillRemembers(log, revisions, catalogRevision, pins, batch);
  }

  lemma StillFree(log: seq<Batch>, done: Batch, next: Batch)
    requires !Overtaken(log, next, next.began, |log|) && !Clash(done, next)
    ensures !Overtaken(log + [done], next, next.began, |log| + 1)
  {
    var longer := log + [done];
    forall i | next.began <= i < |longer| ensures !Clash(longer[i], next) {
      if i < |log| {
        assert longer[i] == log[i];
      }
    }
  }

  /** Every logged transaction did something; folded. */
  ghost predicate NoneEmpty(log: seq<Batch>) {
    forall same: seq<Batch> :: same == log ==> EachWrites(same)
  }

  ghost predicate EachWrites(log: seq<Batch>) {
    forall i :: 0 <= i < |log| ==> log[i].ops != []
  }

  lemma NoneEmptyMore(log: seq<Batch>, batch: Batch)
    requires NoneEmpty(log) && batch.ops != []
    ensures NoneEmpty(log + [batch])
  {
    assert EachWrites(log);
    assert EachWrites(log + [batch]);
  }

  /** Somebody was told that sequence `n + 1` is theirs. */
  ghost predicate Granted(results: seq<Outcome>, n: nat) {
    Committed(n + 1) in results
  }

  /** What each answer means, given the log before and after the group. */
  ghost predicate Answered(claimed: seq<Batch>, before: seq<Batch>, after: seq<Batch>, i: nat, answer: Outcome)
    requires i < |claimed|
  {
    match answer
    case Committed(sequence) => |before| < sequence <= |after| && after[sequence - 1] == claimed[i]
    case Conflict => Overtaken(before, claimed[i], claimed[i].began, |before|)
        || exists m :: 0 <= m < i && Clash(claimed[m], claimed[i])
    case DeadlineExceeded => claimed[i].deadline.Some?
  }

  lemma AnsweredGrows(
    claimed: seq<Batch>, before: seq<Batch>, after: seq<Batch>, more: seq<Batch>, i: nat, answer: Outcome)
    requires i < |claimed| && after <= more
    requires Answered(claimed, before, after, i, answer)
    ensures Answered(claimed, before, more, i, answer)
  {
  }

  /** The members answered so far, and a grant for every sequence given out. */
  ghost predicate SoFar(claimed: seq<Batch>, before: seq<Batch>, after: seq<Batch>, results: seq<Outcome>) {
    && before <= after && |results| <= |claimed|
    && (forall m :: 0 <= m < |results| ==> Answered(claimed, before, after, m, results[m]))
    && (forall n :: |before| <= n < |after| ==> Granted(results, n))
  }

  /** The same, folded until it is asked for. */
  ghost predicate Replied(claimed: seq<Batch>, before: seq<Batch>, after: seq<Batch>, results: seq<Outcome>) {
    forall same: seq<Outcome> :: same == results ==> SoFar(claimed, before, after, same)
  }

  lemma RepliedNone(claimed: seq<Batch>, log: seq<Batch>)
    ensures Replied(claimed, log, log, [])
  {
  }

  lemma RepliedCommitted(
    claimed: seq<Batch>, before: seq<Batch>, after: seq<Batch>, results: seq<Outcome>, batch: Batch, lsn: nat)
    requires Replied(claimed, before, after, results) && |results| < |claimed| && batch == claimed[|results|]
    requires lsn == |after| + 1
    ensures Replied(claimed, before, after + [batch], results + [Committed(lsn)])
  {
    assert SoFar(claimed, before, after, results);
    SoFarCommitted(claimed, before, after, results);
  }

  lemma RepliedRefused(
    claimed: seq<Batch>, before: seq<Batch>, after: seq<Batch>, results: seq<Outcome>, answer: Outcome)
    requires Replied(claimed, before, after, results) && |results| < |claimed|
    requires before <= after ==> Answered(claimed, before, after, |results|, answer)
    ensures Replied(claimed, before, after, results + [answer])
  {
    assert SoFar(claimed, before, after, results);
    SoFarRefused(claimed, before, after, results, answer);
  }

  lemma SoFarCommitted(claimed: seq<Batch>, before: seq<Batch>, after: seq<Batch>, results: seq<Outcome>)
    requires SoFar(claimed, before, after, results) && |results| < |claimed|
    ensures SoFar(claimed, before, after + [claimed[|results|]], results + [Committed(|after| + 1)])
  {
    var i, log, answers := |results|, after + [claimed[|results|]], results + [Committed(|after| + 1)];
    forall m | 0 <= m < |answers| ensures Answered(claimed, before, log, m, answers[m]) {
      if m < i {
        AnsweredGrows(claimed, before, after, log, m, results[m]);
      }
    }
    forall n | |before| <= n < |log| ensures Granted(answers, n) {
      if n < |after| {
        assert Granted(results, n);
      } else {
        assert answers[i] == Committed(n + 1);
      }
    }
  }

  lemma SoFarRefused(claimed: seq<Batch>, before: seq<Batch>, after: seq<Batch>, results: seq<Outcome>, answer: Outcome)
    requires SoFar(claimed, before, after, results) && |results| < |claimed|
    requires Answered(claimed, before, after, |results|, answer)
    ensures SoFar(claimed, before, after, results + [answer])
  {
    forall n | |before| <= n < |after| ensures Granted(results + [answer], n) {
      assert Granted(results, n);
    }
  }

  /** The members of the group still to come are not overtaken. */
  ghost predicate Waiting(log: seq<Batch>, claimed: seq<Batch>, active: seq<bool>, i: nat) {
    forall m :: i <= m < |claimed| && m < |active| && active[m] ==> !Overtaken(log, claimed[m], claimed[m].began, |log|)
  }

  lemma StartWaiting(
    log: seq<Batch>, claimed: seq<Batch>, accepted: seq<bool>, late: seq<bool>, active: seq<bool>, tick: nat -> nat,
    last: nat)
    requires |accepted| == |claimed| && AllValidated(log, claimed, accepted, late, tick)
    requires active == InTime(claimed, accepted, tick(last)) && ClashFree(claimed, accepted)
    ensures Waiting(log, claimed, active, 0) && ClashFree(claimed, active)
  {
    forall m | 0 <= m < |claimed| && active[m] ensures !Overtaken(log, claimed[m], claimed[m].began, |log|) {
      assert Validated(log, claimed, accepted, late, tick, m);
    }
  }

  lemma WaitingOn(log: seq<Batch>, claimed: seq<Batch>, active: seq<bool>, i: nat)
    requires i < |claimed| == |active| && Waiting(log, claimed, active, i) && ClashFree(claimed, active) && active[i]
    ensures Waiting(log + [claimed[i]], claimed, active, i + 1)
  {
    forall m | i < m < |claimed| && active[m]
        ensures !Overtaken(log + [claimed[i]], claimed[m], claimed[m].began, |log| + 1) {
      StillFree(log, claimed[i], claimed[m]);
    }
  }

  // ----- deadlines -----

  predicate Expired(batch: Batch, now: nat) {
    batch.deadline.Some? && now >= batch.deadline.value
  }

  function InTime(claimed: seq<Batch>, group: seq<bool>, now: nat): (r: seq<bool>)
    requires |group| == |claimed|
    ensures |r| == |group|
  {
    seq(|group|, i requires 0 <= i < |group| => group[i] && !Expired(claimed[i], now))
  }

  // ----- what a group is answered -----

  /** An earlier member that passed validation clashes with this one. */
  ghost predicate ClashesBefore(claimed: seq<Batch>, results: seq<Outcome>, tick: nat -> nat, i: nat) {
    exists m :: 0 <= m < i && PassedWith(claimed, results, tick, m, i)
  }

  ghost predicate PassedWith(claimed: seq<Batch>, results: seq<Outcome>, tick: nat -> nat, m: nat, i: nat) {
    && m < |results| && m < |claimed| && i < |claimed|
    && !results[m].Conflict? && !Expired(claimed[m], tick(m)) && Clash(claimed[m], claimed[i])
  }

  /**
   A member in time for its validation is refused exactly for a conflict; every other one exactly when
   its deadline had passed by the last reading of the clock; the rest is committed.
   */
  ghost predicate Decided(
    log: seq<Batch>, claimed: seq<Batch>, results: seq<Outcome>, tick: nat -> nat, now: nat, i: nat)
  {
    i < |claimed| && i < |results| ==>
      && (results[i].Conflict? <==>
            && !Expired(claimed[i], tick(i))
            && (Overtaken(log, claimed[i], claimed[i].began, |log|) || ClashesBefore(claimed, results, tick, i)))
      && (!results[i].Conflict? ==> (results[i].DeadlineExceeded? <==> Expired(claimed[i], tick(now))))
  }

  ghost predicate AllDecided(log: seq<Batch>, claimed: seq<Batch>, results: seq<Outcome>, tick: nat -> nat, now: nat) {
    forall i: nat :: Decided(log, claimed, results, tick, now, i)
  }

  /** What deadlines decide of one answer, `now` being the last reading of the clock. */
  ghost predicate Due(deadline: Option<nat>, answer: Outcome, validated: nat, now: nat) {
    && (answer.DeadlineExceeded? ==> deadline.Some? && deadline.value <= now)
    && (answer.Committed? ==> deadline.None? || now < deadline.value)
    && (deadline.Some? && deadline.value <= validated ==> answer.DeadlineExceeded?)
  }

  /** Who is answered to be too late: nobody without a deadline or before it, and nobody commits after it. */
  ghost predicate AllDue(claimed: seq<Batch>, results: seq<Outcome>, tick: nat -> nat, now: nat) {
    forall i: nat :: i < |claimed| && i < |results| ==> Due(claimed[i].deadline, results[i], tick(i), tick(now))
  }

  lemma DecidedIsDue(log: seq<Batch>, claimed: seq<Batch>, results: seq<Outcome>, tick: nat -> nat, now: nat)
    requires AllDecided(log, claimed, results, tick, now) && |claimed| <= now
    requires forall a, b :: a <= b ==> tick(a) <= tick(b)
    ensures AllDue(claimed, results, tick, now)
  {
    forall i: nat | i < |claimed| && i < |results| ensures Due(claimed[i].deadline, results[i], tick(i), tick(now)) {
      assert Decided(log, claimed, results, tick, now, i) && tick(i) <= tick(now);
    }
  }

  /** Validation's verdict on one member: too late, or not overtaken and not clashing with an accepted one. */
  ghost predicate Validated(
    log: seq<Batch>, claimed: seq<Batch>, accepted: seq<bool>, late: seq<bool>, tick: nat -> nat, i: nat)
  {
    i < |claimed| && i < |accepted| && i < |late| ==>
      && (late[i] <==> Expired(claimed[i], tick(i)))
      && (accepted[i] <==>
            && !late[i] && !Overtaken(log, claimed[i], claimed[i].began, |log|)
            && !ClashesWithin(claimed, accepted, i))
  }

  ghost predicate AllValidated(
    log: seq<Batch>, claimed: seq<Batch>, accepted: seq<bool>, late: seq<bool>, tick: nat -> nat)
  {
    |accepted| == |late| <= |claimed| && forall i: nat :: Validated(log, claimed, accepted, late, tick, i)
  }

  lemma ValidatedMore(
    log: seq<Batch>, claimed: seq<Batch>, accepted: seq<bool>, late: seq<bool>, tick: nat -> nat, free: bool, now: bool)
    requires AllValidated(log, claimed, accepted, late, tick) && |accepted| < |claimed|
    requires now <==> Expired(claimed[|accepted|], tick(|accepted|))
    requires free <==>
               && !now && !Overtaken(log, claimed[|accepted|], claimed[|accepted|].began, |log|)
               && !ClashesWithin(claimed, accepted, |accepted|)
    requires forall j :: 0 <= j <= |accepted| ==>
               ClashesWithin(claimed, accepted + [free], j) == ClashesWithin(claimed, accepted, j)
    ensures AllValidated(log, claimed, accepted + [free], late + [now], tick)
  {
    var n := |accepted|;
    forall i: nat ensures Validated(log, claimed, accepted + [free], late + [now], tick, i) {
      assert Validated(log, claimed, accepted, late, tick, i);
      if i <= n {
        assert ClashesWithin(claimed, accepted + [free], i) == ClashesWithin(claimed, accepted, i);
      }
    }
  }

  /** The answers so far follow validation and deadlines. */
  ghost predicate Follow(results: seq<Outcome>, accepted: seq<bool>, late: seq<bool>, active: seq<bool>) {
    && |results| <= |accepted| == |active| == |late|
    && forall j :: 0 <= j < |results| ==>
         && (results[j].Conflict? <==> !accepted[j] && !late[j])
         && (results[j].DeadlineExceeded? <==> late[j] || (accepted[j] && !active[j]))
  }

  /** A member that is not committed was refused for a reason. */
  lemma RefusalAnswers(
    now: seq<Batch>, log: seq<Batch>, claimed: seq<Batch>, accepted: seq<bool>, late: seq<bool>, active: seq<bool>,
    tick: nat -> nat, last: nat, i: nat)
    requires |accepted| == |claimed| && i < |claimed| && AllValidated(log, claimed, accepted, late, tick)
    requires active == InTime(claimed, accepted, tick(last)) && !active[i]
    ensures Answered(claimed, log, now, i, if accepted[i] || late[i] then DeadlineExceeded else Conflict)
  {
    assert Validated(log, claimed, accepted, late, tick, i);
  }

  /** A member still active passed validation. */
  lemma ActiveIsAccepted(
    log: seq<Batch>, claimed: seq<Batch>, accepted: seq<bool>, late: seq<bool>, active: seq<bool>, tick: nat -> nat,
    last: nat, i: nat)
    requires |accepted| == |claimed| && i < |claimed| && AllValidated(log, claimed, accepted, late, tick)
    requires active == InTime(claimed, accepted, tick(last)) && active[i]
    ensures accepted[i] && !late[i]
  {
    assert Validated(log, claimed, accepted, late, tick, i);
  }

  lemma FollowMore(results: seq<Outcome>, accepted: seq<bool>, late: seq<bool>, active: seq<bool>, answer: Outcome)
    requires Follow(results, accepted, late, active) && |results| < |accepted|
    requires answer.Conflict? <==> !accepted[|results|] && !late[|results|]
    requires answer.DeadlineExceeded? <==> late[|results|] || (accepted[|results|] && !active[|results|])
    ensures Follow(results + [answer], accepted, late, active)
  {
  }

  /** Clashing with an accepted member, read off the flags or off the answers. */
  lemma SameRefusals(
    log: seq<Batch>, claimed: seq<Batch>, accepted: seq<bool>, late: seq<bool>, active: seq<bool>,
    results: seq<Outcome>, tick: nat -> nat, i: nat)
    requires Follow(results, accepted, late, active) && |results| == |claimed| == |accepted| && i < |claimed|
    requires AllValidated(log, claimed, accepted, late, tick)
    ensures ClashesBefore(claimed, results, tick, i) <==> ClashesWithin(claimed, accepted, i)
  {
    if ClashesBefore(claimed, results, tick, i) {
      var m: nat :| m < i && PassedWith(claimed, results, tick, m, i);
      assert Validated(log, claimed, accepted, late, tick, m);
      assert accepted[m];
    }
    if ClashesWithin(claimed, accepted, i) {
      var m :| 0 <= m < i && m < |accepted| && accepted[m] && Clash(claimed[m], claimed[i]);
      assert Validated(log, claimed, accepted, late, tick, m);
      assert PassedWith(claimed, results, tick, m, i);
    }
  }

  /** Validation decided who conflicts, and the last reading of the clock who is too late. */
  lemma FollowDecides(
    log: seq<Batch>, claimed: seq<Batch>, accepted: seq<bool>, late: seq<bool>, active: seq<bool>,
    results: seq<Outcome>, tick: nat -> nat, now: nat, i: nat)
    requires Follow(results, accepted, late, active) && |results| == |claimed| == |accepted| && i < |claimed| <= now
    requires active == InTime(claimed, accepted, tick(now)) && AllValidated(log, claimed, accepted, late, tick)
    requires forall a, b :: a <= b ==> tick(a) <= tick(b)
    ensures Decided(log, claimed, results, tick, now, i)
  {
    SameRefusals(log, claimed, accepted, late, active, results, tick, i);
    assert Validated(log, claimed, accepted, late, tick, i);
    assert tick(i) <= tick(now);
  }

  lemma GroupDecided(
    log: seq<Batch>, claimed: seq<Batch>, accepted: seq<bool>, late: seq<bool>, active: seq<bool>,
    results: seq<Outcome>, tick: nat -> nat, now: nat)
    requires Follow(results, accepted, late, active) && |results| == |claimed| == |accepted| && |claimed| <= now
    requires active == InTime(claimed, accepted, tick(now)) && AllValidated(log, claimed, accepted, late, tick)
    requires forall a, b :: a <= b ==> tick(a) <= tick(b)
    ensures AllDecided(log, claimed, results, tick, now)
  {
    forall i: nat ensures Decided(log, claimed, results, tick, now, i) {
      if i < |claimed| {
        FollowDecides(log, claimed, accepted, late, active, results, tick, now, i);
      }
    }
  }

  function Size(group: seq<bool>): nat {
    if group == [] then 0 else Size(group[..|group| - 1]) + if group[|group| - 1] then 1 else 0
  }

  lemma {:induction false} SmallerGroup(group: seq<bool>, rest: seq<bool>)
    requires |group| == |rest|
    requires forall i :: 0 <= i < |group| && rest[i] ==> group[i]
    ensures Size(rest) <= Size(group)
    ensures rest != group ==> Size(rest) < Size(group)
  {
    if group != [] {
      var n := |group| - 1;
      SmallerGroup(group[..n], rest[..n]);
      assert group == group[..n] + [group[n]] && rest == rest[..n] + [rest[n]];
    }
  }

  /**
   The retry loop of commit_group: drop what has expired, build the frames, and check again.
   Clock readings never go back, so every extra pass drops at least one batch.
   */
  method Settle(claimed: seq<Batch>, accepted: seq<bool>, tick: nat -> nat, first: nat)
    returns (active: seq<bool>, ghost last: nat)
    requires |accepted| == |claimed|
    requires forall a, b :: a <= b ==> tick(a) <= tick(b)
    ensures active == InTime(claimed, accepted, tick(last)) && first <= last
  {
    active := InTime(claimed, accepted, tick(first));
    var reading := first;
    while InTime(claimed, active, tick(reading + 1)) != active
      invariant active == InTime(claimed, accepted, tick(reading)) && first <= reading
      decreases Size(active)
    {
      SmallerGroup(active, InTime(claimed, active, tick(reading + 1)));
      active := InTime(claimed, active, tick(reading + 1));
      reading := reading + 1;
      assert active == InTime(claimed, accepted, tick(reading));
    }
    last := reading + 1;
    assert active == InTime(claimed, accepted, tick(last));
  }

  // ----- one group -----

  /** No member clashes with a later member of the same group. */
  ghost predicate ClashFree(claimed: seq<Batch>, group: seq<bool>) {
    |group| <= |claimed| && forall k, m :: 0 <= k < m < |group| && group[k] && group[m] ==>
        !Clash(claimed[k], claimed[m])
  }

  ghost predicate ClashesWithin(claimed: seq<Batch>, group: seq<bool>, i: nat)
    requires i < |claimed|
  {
    exists m :: 0 <= m < i && m < |group| && group[m] && m < |claimed| && Clash(claimed[m], claimed[i])
  }

  /** The group's key set and catalog flag say exactly what its accepted members write. */
  ghost predicate Gathered(claimed: seq<Batch>, group: seq<bool>, groupKeys: set<Key>, groupCatalog: bool) {
    && |group| <= |claimed|
    && (forall key :: key in groupKeys <==> exists m :: 0 <= m < |group| && group[m] && key in claimed[m].keys)
    && (groupCatalog <==> exists m :: 0 <= m < |group| && group[m] && claimed[m].catalog)
  }

  lemma GatheredDecides(claimed: seq<Batch>, group: seq<bool>, i: nat, groupKeys: set<Key>, groupCatalog: bool)
    requires Gathered(claimed, group, groupKeys, groupCatalog)
    requires i == |group| < |claimed|
    ensures ClashesWithin(claimed, group, i) <==> groupCatalog || claimed[i].keys * groupKeys != {}
  {
    if groupCatalog {
      var m :| 0 <= m < |group| && group[m] && claimed[m].catalog;
      assert Clash(claimed[m], claimed[i]);
    } else if claimed[i].keys * groupKeys != {} {
      var key :| key in claimed[i].keys * groupKeys;
      var m :| 0 <= m < |group| && group[m] && key in claimed[m].keys;
      assert key in claimed[m].keys * claimed[i].keys;
      assert Clash(claimed[m], claimed[i]);
    }
  }

  lemma GatherOne(claimed: seq<Batch>, group: seq<bool>, free: bool, groupKeys: set<Key>, groupCatalog: bool)
    requires |group| < |claimed|
    requires ClashFree(claimed, group) && Gathered(claimed, group, groupKeys, groupCatalog)
    requires free ==> !ClashesWithin(claimed, group, |group|)
    ensures var batch := claimed[|group|];
            && ClashFree(claimed, group + [free])
            && Gathered(claimed, group + [free], if free then groupKeys + batch.keys
               else groupKeys, groupCatalog || (free && batch.catalog))
    ensures forall j :: 0 <= j <= |group| ==>
              ClashesWithin(claimed, group + [free], j)
              == ClashesWithin(claimed, group, j)
  {
    GatherKeys(claimed, group, free, groupKeys, groupCatalog);
    GatherFree(claimed, group, free);
    forall j | 0 <= j <= |group| ensures ClashesWithin(claimed, group + [free], j) == ClashesWithin(claimed, group, j) {
      SameClashes(claimed, group, free, j);
    }
  }

  lemma GatherFree(claimed: seq<Batch>, group: seq<bool>, free: bool)
    requires |group| < |claimed| && ClashFree(claimed, group)
    requires free ==> !ClashesWithin(claimed, group, |group|)
    ensures ClashFree(claimed, group + [free])
  {
    var more := group + [free];
    forall k, m | 0 <= k < m < |more| && more[k] && more[m] ensures !Clash(claimed[k], claimed[m]) {
      assert group[k];
    }
  }

  lemma SameClashes(claimed: seq<Batch>, group: seq<bool>, free: bool, j: nat)
    requires j <= |group| < |claimed|
    ensures ClashesWithin(claimed, group + [free], j) == ClashesWithin(claimed, group, j)
  {
    var more := group + [free];
    if ClashesWithin(claimed, group, j) {
      var m :| 0 <= m < j && m < |group| && group[m] && Clash(claimed[m], claimed[j]);
      assert more[m];
    }
  }

  lemma GatherKeys(claimed: seq<Batch>, group: seq<bool>, free: bool, groupKeys: set<Key>, groupCatalog: bool)
    requires |group| < |claimed| && Gathered(claimed, group, groupKeys, groupCatalog)
    ensures Gathered(claimed, group + [free], if free then groupKeys + claimed[|group|].keys else groupKeys,
                     groupCatalog || (free && claimed[|group|].catalog))
  {
    var more := group + [free];
    var n := |group|;
    assert more[n] == free;
    assert forall m :: 0 <= m < n ==> more[m] == group[m];
    forall key
      ensures (exists m :: 0 <= m < |more| && more[m] && key in claimed[m].keys)
         <==> (exists m :: 0 <= m < n && group[m] && key in claimed[m].keys) || (free && key in claimed[n].keys)
    {
      if m :| 0 <= m < n && group[m] && key in claimed[m].keys {
        assert more[m];
      }
    }
    if m :| 0 <= m < n && group[m] && claimed[m].catalog {
      assert more[m];
    }
  }
}

/**
 The commit coordinator (shared.rs, and the group commit of database.rs).

 Everything here runs under the coordinator mutex, so a run of the system is a sequence of method
 calls and the class invariant speaks about every run.  `views` and `log` are history variables:
 `views[i]` is what readers saw at sequence `i`, `log[i]` the transaction that moved it to `i + 1`.
 */
module Coordinators {
  import opened Results
  import opened Model
  import opened Histories
  import opened Transactions
  import opened Conflicts

  class Coordinator {
    var view: View
    var sequence: nat
    var revisions: map<Key, nat>
    var catalogRevision: nat
    /** Begin sequences of live transactions and readers. */
    var pins: multiset<nat>
    ghost var views: seq<View>
    ghost var log: seq<Batch>

    ghost predicate Valid()
      reads this
    {
      && sequence == |log| && |views| == sequence + 1 && views[sequence] == view
      && Sound(views, log, revisions, catalogRevision, pins)
      && NoneEmpty(log)
    }

    constructor (view: View)
      requires ViewOk(view, 0)
      ensures Valid() && this.view == view && sequence == 0 && pins == multiset{}
    {
      this.view, sequence, revisions, catalogRevision, pins := view, 0, map[], 0, multiset{};
      views, log := [view], [];
      assert EachWrites([]);
    }

    /** Pins the current view for a transaction or a reader. */
    method Begin() returns (began: nat)
      requires Valid()
      modifies this`pins
      ensures Valid() && began == sequence && pins == old(pins) + multiset{began}
    {
      began := sequence;
      pins := pins + multiset{began};
    }

    method Release(began: nat)
      requires Valid() && began in pins
      modifies this`pins
      ensures Valid() && pins == old(pins) - multiset{began}
    {
      pins := pins - multiset{began};
      assert forall pin :: pin in pins ==> pin in old(pins);
    }

    /** No live transaction began before it, and one began there -- or none is live and it is the newest sequence. */
    predicate IsOldest(oldest: nat)
      reads this
    {
      && (forall pin :: pin in pins ==> oldest <= pin)
      && (oldest in pins || (pins == multiset{} && oldest == sequence))
    }

    /** The oldest live sequence, or the current one when nothing is live. */
    method Oldest() returns (oldest: nat)
      requires Valid()
      ensures IsOldest(oldest)
    {
      oldest := sequence;
      var left := pins;
      while left != multiset{}
        invariant left <= pins
        invariant forall pin :: pin in pins && pin !in left ==> oldest <= pin
        invariant oldest == sequence || oldest in pins
        decreases |left|
      {
        var pin :| pin in left;
        oldest := if pin < oldest then pin else oldest;
        left := left[pin := 0];
      }
    }

    /** Forgetting revisions at or below the oldest live pin never hides a conflict. */
    method PruneRevisions()
      requires Valid()
      modifies this`revisions
      ensures Valid()
      ensures exists oldest :: IsOldest(oldest)
                && (forall key :: key in revisions <==> key in old(revisions) && old(revisions)[key] > oldest)
                && forall key :: key in revisions ==> revisions[key] == old(revisions)[key]
    {
      var oldest := Oldest();
      PrunedStillRemembers(log, revisions, catalogRevision, pins, oldest);
      ghost var before := revisions;
      revisions := Pruned(revisions, oldest);
      assert IsOldest(oldest) && forall key :: key in revisions <==> key in before && before[key] > oldest;
    }

    /** The validation loop of run_group, against committed revisions and earlier members of the group. */
    method Validate(claimed: seq<Batch>, tick: nat -> nat) returns (accepted: seq<bool>, late: seq<bool>)
      requires Valid()
      requires forall i :: 0 <= i < |claimed| ==> claimed[i].began in pins
      ensures |accepted| == |claimed| && ClashFree(claimed, accepted)
      ensures AllValidated(log, claimed, accepted, late, tick)
    {
      accepted, late := [], [];
      var groupKeys: set<Key> := {};
      var groupCatalog := false;
      for i := 0 to |claimed|
        invariant |accepted| == i
        invariant ClashFree(claimed, accepted)
        invariant AllValidated(log, claimed, accepted, late, tick)
        invariant Gathered(claimed, accepted, groupKeys, groupCatalog)
      {
        var batch := claimed[i];
        StaleExactlyWhenOvertaken(log, batch, revisions, catalogRevision, pins);
        GatheredDecides(claimed, accepted, i, groupKeys, groupCatalog);
        var expired := Expired(batch, tick(i));
        var free := && !expired && !groupCatalog && batch.keys * groupKeys == {}
                    && !Stale(batch, revisions, catalogRevision);
        GatherOne(claimed, accepted, free, groupKeys, groupCatalog);
        ValidatedMore(log, claimed, accepted, late, tick, free, expired);
        accepted, late := accepted + [free], late + [expired];
        if free {
          groupKeys := groupKeys + batch.keys;
          groupCatalog := groupCatalog || batch.catalog;
        }
      }
    }

    /** Publishes one durable batch and records its revisions. */
    method PublishState(batch: Batch) returns (lsn: nat)
      requires Valid() && sequence < U64_MAX
      requires batch.ops != [] && batch.began in pins && StagedOn(batch, views[batch.began])
      requires !Overtaken(log, batch, batch.began, |log|)
      modifies this`view, this`sequence, this`revisions, this`catalogRevision, this`views, this`log
      ensures Valid() && lsn == sequence == old(sequence) + 1
      ensures log == old(log) + [batch] && views == old(views) + [view]
    {
      lsn := sequence + 1;
      var after := Publish(view, StampStage(batch.stage, batch.began, lsn));
      PublicationSound(views, log, revisions, catalogRevision, pins, batch, after);
      NoneEmptyMore(log, batch);
      view, sequence := after, lsn;
      revisions := Recording(revisions, batch.keys, lsn);
      catalogRevision := Revised(catalogRevision, batch, lsn);
      views, log := views + [after], log + [batch];
    }

    /**
     One led group: validate, drop what expired, publish in order, answer everybody.
     A commit succeeds exactly as its own log entry; a refusal names a real conflict.
     */
    method RunGroup(claimed: seq<Batch>, tick: nat -> nat) returns (results: seq<Outcome>)
      requires Valid() && sequence + |claimed| <= U64_MAX
      requires forall i :: 0 <= i < |claimed| ==>
                 claimed[i].ops != [] && claimed[i].began in pins && StagedOn(claimed[i], views[claimed[i].began])
      requires forall a, b :: a <= b ==> tick(a) <= tick(b)
      modifies this
      ensures Valid() && pins == old(pins) && |results| == |claimed|
      ensures old(log) <= log && old(views) <= views
      ensures forall i :: 0 <= i < |claimed| ==> Answered(claimed, old(log), log, i, results[i])
      ensures forall n :: |old(log)| <= n < |log| ==> Granted(results, n)
      ensures exists now: nat ::
                AllDecided(old(log), claimed, results, tick, now) && AllDue(claimed, results, tick, now)
    {
      var accepted, late := Validate(claimed, tick);
      var active, last := Settle(claimed, accepted, tick, |claimed|);
      results := [];
      RepliedNone(claimed, log);
      StartWaiting(log, claimed, accepted, late, active, tick, last);
      for i := 0 to |claimed|
        invariant Valid() && pins == old(pins) && |results| == i && old(views) <= views
        invariant old(sequence) <= sequence <= old(sequence) + i
        invariant Replied(claimed, old(log), log, results) && Waiting(log, claimed, active, i)
        invariant Follow(results, accepted, late, active)
      {
        if active[i] {
          ActiveIsAccepted(old(log), claimed, accepted, late, active, tick, last, i);
          WaitingOn(log, claimed, active, i);
          ghost var earlier := log;
          var lsn := PublishState(claimed[i]);
          RepliedCommitted(claimed, old(log), earlier, results, claimed[i], lsn);
          FollowMore(results, accepted, late, active, Committed(lsn));
          results := results + [Committed(lsn)];
        } else {
          var answer := if accepted[i] || late[i] then DeadlineExceeded else Conflict;
          RefusalAnswers(log, old(log), claimed, accepted, late, active, tick, last, i);
          RepliedRefused(claimed, old(log), log, results, answer);
          FollowMore(results, accepted, late, active, answer);
          results := results + [answer];
        }
      }
      assert SoFar(claimed, old(log), log, results);
      GroupDecided(old(log), claimed, accepted, late, active, results, tick, last);
      DecidedIsDue(old(log), claimed, results, tick, last);
    }

    /** SharedDatabase::commit: a transaction without operations takes no sequence. */
    method Commit(batch: Batch, tick: nat -> nat) returns (answer: Outcome)
      requires Valid() && sequence < U64_MAX && batch.began in pins && StagedOn(batch, views[batch.began])
      requires forall a, b :: a <= b ==> tick(a) <= tick(b)
      modifies this
      ensures Valid() && pins == old(pins) && old(log) <= log
      ensures batch.ops == [] ==> answer == Committed(batch.began) && log == old(log) && views == old(views)
      ensures batch.ops != [] ==> Answered([batch], old(log), log, 0, answer)
      ensures batch.ops != [] ==>
                (answer.Conflict? <==>
                  && (batch.deadline.Some? ==> tick(0) < batch.deadline.value)
                  && Overtaken(old(log), batch, batch.began, |old(log)|))
      ensures batch.ops != [] ==> exists now: nat :: Due(batch.deadline, answer, tick(0), tick(now))
    {
      if batch.ops == [] {
        return Committed(batch.began);
      }
      var results := RunGroup([batch], tick);
      ghost var now: nat :| AllDecided(old(log), [batch], results, tick, now) && AllDue([batch], results, tick, now);
      assert Decided(old(log), [batch], results, tick, now, 0);
      assert Due([batch][0].deadline, results[0], tick(0), tick(now));
      return results[0];
    }

    /** Over every run overlapping commits are ordered, and the views are the serial execution of the log. */
    lemma EveryRunIsSerial()
      requires Valid()
      ensures Serial(views, log)
      ensures forall i, j, key :: 0 <= i < j < |log| && key in log[i].keys && key in log[j].keys ==>
              log[j].began >= i + 1
      ensures forall i, j :: 0 <= i < j < |log| && log[i].catalog ==> log[j].began >= i + 1
    {
      forall i, j, key | 0 <= i < j < |log| && key in log[i].keys && key in log[j].keys ensures log[j].began >= i + 1 {
        assert key in log[i].keys * log[j].keys;
        assert Clash(log[i], log[j]);
      }
      forall i, j | 0 <= i < j < |log| && log[i].catalog ensures log[j].began >= i + 1 {
        assert Clash(log[i], log[j]);
      }
    }
  }
}
