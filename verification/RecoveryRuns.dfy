/**
 What holds over whole runs of Recovery: commits, rotations, builds, publications, cleanups,
 crashes at any step, and reopenings, in any order.
 */
module RecoveryRuns {
  import opened Results
  import opened Transactions
  import opened Wal
  import opened Recovery
  import opened RecoveryProofs
  import opened CrashProofs
  import opened ReopenProofs

  /** A fresh database directory: one segment with a synced header for the empty checkpoint. */
  const FRESH := System(
    Store(Disk(map[0 := Segment([RootFrame(EMPTY_ROOT)], 1, 0)], {}), 0, [], 0, EMPTY_ROOT, EMPTY_ROOT, None),
    map[], None, 0, 0)

  /**
   No rotation leaves behind a segment with an unsynced frame after its header.  After a kill and a
   reopening there may be such a frame until the next sync; RotationObstacles proves this is the
   exact condition under which a rotation is safe.
   */
  ghost predicate Orderly(s: System, step: Step) {
    step.BeginRotation? ==> Rotatable(Active(s.store))
  }

  ghost predicate AllOrderly(trace: seq<System>, steps: seq<Step>) {
    forall i :: 0 <= i < |steps| && i < |trace| ==> Orderly(trace[i], steps[i])
  }

  /** One step of a run. The quantifiers here and in `Good` keep the definitions folded until they are asked for. */
  ghost predicate Follows(e: Engine, s: System, step: Step, t: System) {
    forall x :: x == s ==> Next(e, x, step, t)
  }

  ghost predicate Good(e: Engine, s: System) {
    forall x :: x == s ==> Inv(e, x)
  }

  ghost predicate IsRun(e: Engine, trace: seq<System>, steps: seq<Step>)
    decreases |steps|
  {
    && |trace| == |steps| + 1
    && if steps == [] then trace[0] == FRESH
       else
         var n := |steps| - 1;
         IsRun(e, trace[..n + 1], steps[..n]) && Follows(e, trace[n], steps[n], trace[n + 1])
  }

  lemma {:induction false} RunStarts(e: Engine, trace: seq<System>, steps: seq<Step>)
    requires IsRun(e, trace, steps)
    ensures trace[0] == FRESH
    decreases |steps|
  {
    if steps != [] {
      RunStarts(e, trace[..|steps|], steps[..|steps| - 1]);
    }
  }

  lemma RunExtends(e: Engine, trace: seq<System>, steps: seq<Step>, step: Step, t: System)
    requires IsRun(e, trace, steps) && Follows(e, trace[|steps|], step, t)
    ensures IsRun(e, trace + [t], steps + [step])
  {
    assert (trace + [t])[..|trace|] == trace && (steps + [step])[..|steps|] == steps;
  }

  lemma FreshOk(e: Engine)
    ensures Inv(e, FRESH)
  {
    var c := FRESH.store;
    assert [RootFrame(EMPTY_ROOT)][..1] == [RootFrame(EMPTY_ROOT)];
    HeaderInOrder([RootFrame(EMPTY_ROOT)], 0, []);
    assert End(c.disk, 0, -1, 0) == 0 && Chain(c.disk, 0, -1, 0, []);
    assert Covers(c.disk, 0, [], 0, 0);
    assert LogOk(e, c, None) && RootsOk(e, c);
  }

  /** Every step keeps the invariant. */
  lemma NextKeeps(e: Engine, s: System, step: Step, t: System)
    requires Inv(e, s) && Next(e, s, step, t) && Orderly(s, step)
    ensures Inv(e, t)
  {
    match step
    case Write(tx) => WriteKeeps(e, s, tx, t);
    case SyncCommits => SyncCommitsKeeps(e, s, t);
    case Fail(torn) => FailKeeps(e, s, torn, t);
    case Observe => ObserveKeeps(e, s, t);
    case BeginRotation(generation) => BeginRotationKeeps(e, s, generation, t);
    case EndRotation => EndRotationKeeps(e, s, t);
    case FinishBuild(files, written) => FinishBuildKeeps(e, s, files, written, t);
    case Abandon => AbandonKeeps(e, s, t);
    case WritePublication => WritePublicationKeeps(e, s, t);
    case SyncPublication => SyncPublicationKeeps(e, s, t);
    case DropSegment(number) => DropSegmentKeeps(e, s, number, t);
    case DropFile(file) => DropFileKeeps(e, s, file, t);
    case EndCleaning(synced) => EndCleaningKeeps(e, s, synced, t);
    case Crash(power) => CrashKeeps(e, s, power, t);
    case Reopen(chosen) => ReopenKeeps(e, s, chosen, t);
  }

  lemma FollowKeeps(e: Engine, s: System, step: Step, t: System)
    requires Good(e, s) && Follows(e, s, step, t) && Orderly(s, step)
    ensures Good(e, t)
  {
    assert Inv(e, s) && Next(e, s, step, t);
    NextKeeps(e, s, step, t);
  }

  lemma {:induction false} RunKeeps(e: Engine, trace: seq<System>, steps: seq<Step>, i: nat)
    requires IsRun(e, trace, steps) && AllOrderly(trace, steps) && i <= |steps|
    ensures Good(e, trace[i])
    decreases |steps|
  {
    var n := |steps| - 1;
    if steps == [] {
      FreshOk(e);
    } else if i <= n {
      RunKeeps(e, trace[..n + 1], steps[..n], i);
    } else {
      RunKeeps(e, trace[..n + 1], steps[..n], n);
      FollowKeeps(e, trace[n], steps[n], trace[n + 1]);
    }
  }

  // ----- what lasts -----

  /** The durable log of an earlier moment is still the log later. */
  ghost predicate Stands(s: System, t: System) {
    && s.acked <= t.acked && s.seen <= t.seen
    && s.acked <= s.store.durable <= |s.store.log| && s.store.durable <= t.store.durable <= |t.store.log|
    && s.store.log[..s.store.durable] == t.store.log[..s.store.durable]
  }

  lemma StandsTransitive(s: System, t: System, u: System)
    requires Stands(s, t) && Stands(t, u)
    ensures Stands(s, u)
  {
    var p, q := s.store.durable, t.store.durable;
    assert t.store.log[..q][..p] == t.store.log[..p] && u.store.log[..q][..p] == u.store.log[..p];
  }

  /** No step takes back what was durable. */
  lemma DurableStands(e: Engine, s: System, step: Step, t: System)
    requires Inv(e, s) && Inv(e, t) && Next(e, s, step, t)
    ensures Stands(s, t)
  {
    match step
    case Crash(power) =>
      CrashKeeps(e, s, power, t);
    case Write(tx) =>
      assert s.store.log <= t.store.log;
    case Reopen(chosen) =>
      ReopenKeeps(e, s, chosen, t);
    case _ =>
      assert t.store.log == s.store.log;
  }

  lemma GoodStands(e: Engine, s: System, step: Step, t: System)
    requires Good(e, s) && Good(e, t) && Follows(e, s, step, t)
    ensures Stands(s, t)
  {
    assert Inv(e, s) && Inv(e, t) && Next(e, s, step, t);
    DurableStands(e, s, step, t);
  }

  lemma SelfStands(e: Engine, s: System)
    requires Good(e, s)
    ensures Stands(s, s)
  {
    assert Inv(e, s);
  }

  /** Everything acknowledged at any moment is in the log at every later moment, crashes included. */
  lemma {:induction false} PromisesLast(e: Engine, trace: seq<System>, steps: seq<Step>, i: nat, j: nat)
    requires IsRun(e, trace, steps) && AllOrderly(trace, steps) && i <= j <= |steps|
    ensures Stands(trace[i], trace[j])
    decreases |steps|
  {
    var n := |steps| - 1;
    if i == j {
      RunKeeps(e, trace, steps, i);
      SelfStands(e, trace[i]);
    } else if j <= n {
      PromisesLast(e, trace[..n + 1], steps[..n], i, j);
    } else {
      PromisesLast(e, trace[..n + 1], steps[..n], i, n);
      RunKeeps(e, trace, steps, n);
      RunKeeps(e, trace, steps, n + 1);
      GoodStands(e, trace[n], steps[n], trace[n + 1]);
      StandsTransitive(trace[i], trace[n], trace[j]);
    }
  }

  /**
   While the database is open its view is the fold of the log up to its sequence, everything durable
   and so everything acknowledged is in it, and the byte counter is the summed length of the frames
   beyond the checkpoint.
   */
  lemma OpenViewIsTheLog(e: Engine, trace: seq<System>, steps: seq<Step>, i: nat)
    requires IsRun(e, trace, steps) && AllOrderly(trace, steps) && i <= |steps| && trace[i].live.Some?
    ensures var s, live := trace[i], trace[i].live.value;
            && s.acked <= s.store.durable <= live.lsn <= |s.store.log|
            && Runs(e, s.store.log, |s.store.log|)
            && Visible(live) == ViewAt(e, s.store.log, live.lsn)
            && live.root.lsn <= live.lsn
            && live.walBytes == LogBytes(e, s.store.log, live.root.lsn, live.lsn)
  {
    RunKeeps(e, trace, steps, i);
    GoodView(e, trace[i]);
  }

  lemma GoodView(e: Engine, s: System)
    requires Good(e, s) && s.live.Some?
    ensures var live := s.live.value;
            && s.acked <= s.store.durable <= live.lsn <= |s.store.log|
            && Runs(e, s.store.log, |s.store.log|)
            && Visible(live) == ViewAt(e, s.store.log, live.lsn)
            && live.root.lsn <= live.lsn
            && live.walBytes == LogBytes(e, s.store.log, live.root.lsn, live.lsn)
  {
    assert Inv(e, s);
    assert LiveOk(e, s.store, s.live.value) && LogOk(e, s.store, RotatingTo(s.live));
  }

  /** What reopening may do from this state. */
  ghost predicate Reopens(e: Engine, s: System, chosen: Root, t: System) {
    && Next(e, s, Reopen(chosen), t)
    && t.live.Some? && t.live.value.lsn == |s.store.log|
    && Visible(t.live.value) == ViewAt(e, s.store.log, |s.store.log|)
  }

  /**
   After any run with crashes anywhere, reopening succeeds: exactly one checkpoint is selected, its
   replay gives the fold of the surviving log, and that log holds everything ever acknowledged.
   */
  lemma EveryCrashRecovers(e: Engine, trace: seq<System>, steps: seq<Step>, chosen: Root, i: nat)
    requires IsRun(e, trace, steps) && AllOrderly(trace, steps) && trace[|steps|].live.None? && i <= |steps|
    ensures var s := trace[|steps|];
            && (Selected(s.store.disk, chosen) <==> chosen == Newest(s.store))
            && (Selected(s.store.disk, chosen) ==> exists t :: Reopens(e, s, chosen, t))
            && Stands(trace[i], s)
  {
    var s := trace[|steps|];
    PromisesLast(e, trace, steps, i, |steps|);
    RunKeeps(e, trace, steps, |steps|);
    GoodReopens(e, s, chosen);
  }

  lemma GoodReopens(e: Engine, s: System, chosen: Root)
    requires Good(e, s) && s.live.None?
    ensures Selected(s.store.disk, chosen) <==> chosen == Newest(s.store)
    ensures chosen == Newest(s.store) ==> exists t :: Reopens(e, s, chosen, t)
  {
    assert Inv(e, s);
    assert LogOk(e, s.store, None) && RootsOk(e, s.store);
    SelectedIsNewest(e, s.store, chosen);
    if chosen == Newest(s.store) {
      ReopenPossible(e, s, chosen);
    }
  }

  lemma ReopenPossible(e: Engine, s: System, chosen: Root)
    requires LogOk(e, s.store, None) && RootsOk(e, s.store) && s.live.None? && chosen == Newest(s.store)
    ensures exists t :: Reopens(e, s, chosen, t)
  {
    SelectedIsNewest(e, s.store, chosen);
    LogIsReadable(e, s.store);
    EveryKeptRootReplays(e, s.store, chosen);
    var r := ReplaySegments(e, s.store.disk, chosen, chosen.generation, s.store.active, s.store.active);
    ReopensTo(e, s, chosen, r.value);
  }

  lemma ReopensTo(e: Engine, s: System, chosen: Root, at: Replayed)
    requires s.live.None? && Readable(s.store.disk) && Selected(s.store.disk, chosen)
    requires ReplaySegments(e, s.store.disk, chosen, chosen.generation, s.store.active, s.store.active) == Ok(at)
    requires at.lsn == |s.store.log| && Seen(chosen, at) == ViewAt(e, s.store.log, |s.store.log|)
    ensures exists t :: Reopens(e, s, chosen, t)
  {
    var t := Reopened(s, chosen, at);
    assert Visible(t.live.value) == Seen(chosen, at);
    assert Reopens(e, s, chosen, t);
  }

  /** The newest checkpoint and the retained one recover the same sequence and the same view. */
  lemma EitherRootRecovers(e: Engine, trace: seq<System>, steps: seq<Step>)
    requires IsRun(e, trace, steps) && AllOrderly(trace, steps) && trace[|steps|].live.None?
    ensures var c := trace[|steps|].store;
            var a := ReplaySegments(e, c.disk, c.root, c.root.generation, c.active, c.active);
            var b := ReplaySegments(e, c.disk, c.retained, c.retained.generation, c.active, c.active);
            a.Ok? && b.Ok? && a.value.lsn == b.value.lsn && Seen(c.root, a.value) == Seen(c.retained, b.value)
  {
    var c := trace[|steps|].store;
    RunKeeps(e, trace, steps, |steps|);
    assert Inv(e, trace[|steps|]);
    assert LogOk(e, c, None) && RootsOk(e, c);
    EveryKeptRootReplays(e, c, c.root);
    EveryKeptRootReplays(e, c, c.retained);
  }

  ghost predicate IsMaintenance(step: Step) {
    step.BeginRotation? || step.EndRotation? || step.FinishBuild? || step.Abandon? || step.WritePublication?
    || step.SyncPublication? || step.DropSegment? || step.DropFile? || step.EndCleaning?
  }

  /** Maintenance of every kind, at any moment of any run, is invisible: installing and abandoning included. */
  lemma MaintenanceIsInvisible(e: Engine, trace: seq<System>, steps: seq<Step>, i: nat)
    requires IsRun(e, trace, steps) && AllOrderly(trace, steps) && i < |steps| && IsMaintenance(steps[i])
    ensures trace[i].live.Some? && trace[i + 1].live.Some?
    ensures Visible(trace[i + 1].live.value) == Visible(trace[i].live.value)
    ensures trace[i + 1].live.value.lsn == trace[i].live.value.lsn
    ensures trace[i + 1].store.log == trace[i].store.log
  {
    RunKeeps(e, trace, steps, i);
    RunKeeps(e, trace, steps, i + 1);
    RunStep(e, trace, steps, i);
    GoodMaintenance(e, trace[i], steps[i], trace[i + 1]);
  }

  lemma GoodMaintenance(e: Engine, s: System, step: Step, t: System)
    requires Good(e, s) && Good(e, t) && Follows(e, s, step, t) && IsMaintenance(step)
    ensures s.live.Some? && t.live.Some? && Visible(t.live.value) == Visible(s.live.value)
    ensures t.live.value.lsn == s.live.value.lsn && t.store.log == s.store.log
  {
    assert Inv(e, s) && Inv(e, t) && Next(e, s, step, t);
    assert LiveOk(e, s.store, s.live.value) && LiveOk(e, t.store, t.live.value);
  }

  lemma {:induction false} RunStep(e: Engine, trace: seq<System>, steps: seq<Step>, i: nat)
    requires IsRun(e, trace, steps) && AllOrderly(trace, steps) && i < |steps|
    ensures Follows(e, trace[i], steps[i], trace[i + 1])
    decreases |steps|
  {
    var n := |steps| - 1;
    if i < n {
      RunStep(e, trace[..n + 1], steps[..n], i);
    }
  }
}
