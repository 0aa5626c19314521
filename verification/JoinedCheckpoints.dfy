/**
 The checkpoint builder inside the crash protocol.

 The protocol of Recovery speaks about views: a checkpoint in progress has frozen one, a root holds one.
 Here each of its steps is joined to what the database does with its tables, files and overlay, and the
 views turn out to be what those states show.
 */
module JoinedCheckpoints {
  import opened Results
  import opened Wal
  import opened RecoveryRuns
  import opened Manifests
  import opened Installs
  import opened CheckpointRuns
  import opened Archives
  import opened Files
  import opened Transactions
  import R = Recovery
  import P = ReopenProofs

  /** The frozen or built view is what the frozen state shows, and readers see what the state shows. */
  ghost predicate Joined(live: R.Live, d: Database) {
    && R.Visible(live) == ViewOf(d.state)
    && match live.job
       case Idle => d.build.None?
       case Rotating(_) => d.build.None?
       case Building(_, frozen, _) => d.build.Some? && frozen == ViewOf(d.build.value.frozen)
       case Built(root, _) => d.build.Some? && root.view == ViewOf(d.build.value.frozen)
       case Publishing(root, _) => d.build.Some? && root.view == ViewOf(d.build.value.frozen)
  }

  ghost predicate AllJoined(s: R.System, d: Database) {
    s.live.Some? ==> Joined(s.live.value, d)
  }

  /** The state was committed to until it showed this view. */
  ghost predicate CommittedTo(d: Database, after: Database) {
    after.build.Some? == d.build.Some? && (d.build.Some? ==> after.build.value.frozen == d.build.value.frozen)
  }

  /** What the database does in a step of the protocol. */
  ghost predicate Does(e: Engine, d: Database, step: R.Step, t: R.System, after: Database) {
    match step
    case SyncCommits =>
      Inv(after) && CommittedTo(d, after) && ViewOf(after.state) == ViewAt(e, t.store.log, |t.store.log|)
    case EndRotation => Next(d, Step.Begin, after)
    case FinishBuild(files, _) => after == d && d.build.Some? && Builds(d.build.value.frozen, files)
    case Abandon => Next(d, Step.Abandon, after)
    case SyncPublication => exists next, grown :: Next(d, Step.Install(next, grown), after)
    case Crash(_) => true
    case Reopen(_) => Inv(after) && after.build.None? && ViewOf(after.state) == ViewAt(e, t.store.log, |t.store.log|)
    case _ => after == d
  }

  /** Some build of the frozen state lists exactly these files. */
  ghost predicate Builds(frozen: State, files: set<FileId>) {
    exists next, grown :: AllBuilt(frozen, next, grown) && next.files == files
  }

  /** A step that readers notice: a sync publishes the whole log, and so does a reopening. */
  lemma ReadersJoin(e: Engine, s: R.System, step: R.Step, t: R.System)
    requires Good(e, s) && Good(e, t) && Follows(e, s, step, t) && (step.SyncCommits? || step.Reopen?)
    ensures t.live.Some? && R.Visible(t.live.value) == ViewAt(e, t.store.log, |t.store.log|)
    ensures step.SyncCommits? ==> s.live.Some? && t.live.value.job == s.live.value.job
    ensures step.Reopen? ==> t.live.value.job.Idle?
  {
    assert R.Inv(e, s) && R.Inv(e, t) && R.Next(e, s, step, t);
    GoodView(e, t);
    if step.SyncCommits? {
      PublishKeepsJob(e, s.live.value, s.store.log, |s.store.log|);
    } else {
      ReopenedLsn(e, s, step.chosen, t);
    }
  }

  lemma ReopenedLsn(e: Engine, s: R.System, chosen: Root, t: R.System)
    requires R.Inv(e, s) && R.Next(e, s, R.Reopen(chosen), t)
    ensures t.live.value.lsn == |t.store.log|
  {
    P.ReopenKeeps(e, s, chosen, t);
  }

  lemma {:induction false} PublishKeepsJob(e: Engine, live: R.Live, log: seq<Tx>, n: nat)
    requires n <= |log|
    ensures R.PublishTo(e, live, log, n).job == live.job
    decreases n
  {
    if n > live.lsn {
      PublishKeepsJob(e, live, log, n - 1);
    }
  }

  /** Whatever readers do not notice. */
  lemma MaintenanceJoins(e: Engine, s: R.System, step: R.Step, t: R.System, d: Database, after: Database)
    requires Good(e, s) && Good(e, t) && Follows(e, s, step, t) && IsMaintenance(step)
    requires AllJoined(s, d) && Inv(d) && Does(e, d, step, t, after)
    ensures AllJoined(t, after) && Inv(after) && ViewOf(after.state) == ViewOf(d.state)
  {
    GoodMaintenance(e, s, step, t);
    assert R.Next(e, s, step, t);
    match step
    case EndRotation =>
      CheckpointRuns.NextKeeps(d, Step.Begin, after);
    case Abandon =>
      CheckpointRuns.NextKeeps(d, Step.Abandon, after);
    case SyncPublication =>
      var next, grown :| Next(d, Step.Install(next, grown), after);
      CheckpointRuns.NextKeeps(d, Step.Install(next, grown), after);
      CheckpointsAreInvisible(d, Step.Install(next, grown), after);
    case _ =>
  }

  /** The joint keeps: over every run the protocol's views are what the database's states show. */
  lemma StepJoins(e: Engine, s: R.System, step: R.Step, t: R.System, d: Database, after: Database)
    requires Good(e, s) && Good(e, t) && Follows(e, s, step, t)
    requires AllJoined(s, d) && (s.live.Some? ==> Inv(d)) && Does(e, d, step, t, after)
    ensures AllJoined(t, after) && (t.live.Some? ==> Inv(after))
  {
    if IsMaintenance(step) {
      GoodMaintenance(e, s, step, t);
      MaintenanceJoins(e, s, step, t, d, after);
    } else if step.SyncCommits? || step.Reopen? {
      ReadersJoin(e, s, step, t);
    } else {
      assert R.Next(e, s, step, t);
    }
  }

  /** The database does its part of one step of the run. */
  ghost predicate Accompanied(e: Engine, trace: seq<R.System>, steps: seq<R.Step>, ds: seq<Database>, k: nat)
    requires |ds| == |trace| == |steps| + 1 && k < |steps|
  {
    Does(e, ds[k], steps[k], trace[k + 1], ds[k + 1])
  }

  /** At every moment of every run. */
  lemma {:induction false} RunJoins(e: Engine, trace: seq<R.System>, steps: seq<R.Step>, ds: seq<Database>, i: nat)
    requires IsRun(e, trace, steps) && AllOrderly(trace, steps) && |ds| == |trace| && i <= |steps|
    requires forall k :: 0 <= k < |steps| ==> Accompanied(e, trace, steps, ds, k)
    ensures AllJoined(trace[i], ds[i]) && (trace[i].live.Some? ==> Inv(ds[i]))
    decreases i
  {
    if i == 0 {
      RunStarts(e, trace, steps);
    } else {
      RunJoins(e, trace, steps, ds, i - 1);
      RunKeeps(e, trace, steps, i - 1);
      RunKeeps(e, trace, steps, i);
      RunStep(e, trace, steps, i - 1);
      assert Accompanied(e, trace, steps, ds, i - 1);
      StepJoins(e, trace[i - 1], steps[i - 1], trace[i], ds[i - 1], ds[i]);
    }
  }

  /**
   A finished build, at any moment of any run: the root that goes on to be published holds what the
   built manifest holds, and that is the frozen view.
   */
  lemma FinishedBuild(
    e: Engine, s: R.System, t: R.System, d: Database, next: Manifest, grown: map<nat, Archive>, written: set<FileId>)
    requires Follows(e, s, R.FinishBuild(next.files, written), t) && AllJoined(s, d) && Inv(d)
    requires d.build.Some? && AllBuilt(d.build.value.frozen, next, grown)
    ensures t.live.Some? && t.live.value.job.Built? && t.live.value.job.root.files == next.files
    ensures t.live.value.job.root.view == ViewOf(Published(d.build.value.frozen, next, grown))
  {
    assert R.Next(e, s, R.FinishBuild(next.files, written), t);
    PublishedIsFrozen(d.build.value.frozen, next, grown);
  }

  /** Publishing it installs it: the open database's root and overlay show what the installed state shows. */
  lemma PublishedInstalls(
    e: Engine, s: R.System, t: R.System, d: Database, next: Manifest, grown: map<nat, Archive>)
    requires Good(e, s) && Good(e, t) && Follows(e, s, R.SyncPublication, t) && AllJoined(s, d) && Inv(d)
    requires d.build.Some? && AllBuilt(d.build.value.frozen, next, grown)
    ensures var after := Installed(d.build.value.frozen, d.state, next, grown, d.build.value.tail);
            && t.live.Some? && StateOk(after) && R.Visible(t.live.value) == ViewOf(after)
            && t.live.value.root.view == ViewOf(Published(d.build.value.frozen, next, grown))
  {
    var after := Database(Installed(d.build.value.frozen, d.state, next, grown, d.build.value.tail), None);
    assert Next(d, Step.Install(next, grown), after);
    MaintenanceJoins(e, s, R.SyncPublication, t, d, after);
    PublishedIsFrozen(d.build.value.frozen, next, grown);
    assert R.Next(e, s, R.SyncPublication, t);
  }
}
