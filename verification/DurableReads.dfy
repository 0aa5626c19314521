/**
 Over whole runs: when what readers are shown is durable.

 A reopening may show transactions that were never synced.  Until the next sync such a view is ahead of
 the durable log; at every other moment of every run it is not.
 */
module DurableReads {
  import opened Results
  import opened Transactions
  import opened Wal
  import opened Recovery
  import opened RecoveryProofs
  import opened CrashProofs
  import opened ReopenProofs
  import opened RecoveryRuns
  import opened KilledRecovery

  /** What can be seen on disk before reopening: a torn tail, or no unsynced transaction. */
  ghost predicate Settled(c: Store) {
    Active(c).torn > 0 || TailSynced(Active(c))
  }

  /** The last reopening was of an unsettled store, and nothing was synced since. */
  ghost predicate Ahead(trace: seq<System>, steps: seq<Step>, i: nat)
    requires |trace| == |steps| + 1 && i <= |steps|
  {
    if i == 0 then false
    else match steps[i - 1]
      case Reopen(_) => !Settled(trace[i - 1].store)
      case SyncCommits => false
      case SyncPublication => false
      case Crash(_) => false
      case _ => Ahead(trace, steps, i - 1)
  }

  /** The open view is ahead of the durable log exactly when `ahead` says so. */
  ghost predicate Shows(s: System, ahead: bool) {
    s.live.Some? ==> (s.live.value.lsn > s.store.durable <==> ahead)
  }

  ghost predicate Syncs(step: Step) {
    step.SyncCommits? || step.SyncPublication?
  }

  lemma SyncedShows(e: Engine, s: System, step: Step, t: System)
    requires Inv(e, t) && Next(e, s, step, t) && Syncs(step)
    ensures Shows(t, false)
  {
    assert LiveOk(e, t.store, t.live.value);
  }

  lemma ReopenedShows(e: Engine, s: System, chosen: Root, t: System)
    requires Inv(e, s) && Next(e, s, Reopen(chosen), t)
    ensures Shows(t, !Settled(s.store))
  {
    ReopenKeeps(e, s, chosen, t);
    KilledDurable(e, s, t);
  }

  /** Any other step moves neither the view nor the durable log. */
  lemma OtherShows(e: Engine, s: System, step: Step, t: System, ahead: bool)
    requires Next(e, s, step, t) && Shows(s, ahead)
    requires !Syncs(step) && !step.Reopen? && !step.Crash?
    ensures Shows(t, ahead)
  {
  }

  lemma StepShows(e: Engine, s: System, step: Step, t: System, ahead: bool)
    requires Good(e, s) && Good(e, t) && Follows(e, s, step, t) && Shows(s, ahead)
    ensures Shows(t, match step
                     case Reopen(_) => !Settled(s.store)
                     case SyncCommits => false
                     case SyncPublication => false
                     case Crash(_) => false
                     case _ => ahead)
  {
    assert Inv(e, s) && Inv(e, t) && Next(e, s, step, t);
    match step
    case Reopen(chosen) => ReopenedShows(e, s, chosen, t);
    case SyncCommits => SyncedShows(e, s, step, t);
    case SyncPublication => SyncedShows(e, s, step, t);
    case Crash(power) =>
    case _ => OtherShows(e, s, step, t, ahead);
  }

  /** Every open view is durable, unless its reopening was of an unsettled store and no sync followed. */
  lemma {:induction false} ViewIsDurable(e: Engine, trace: seq<System>, steps: seq<Step>, i: nat)
    requires IsRun(e, trace, steps) && AllOrderly(trace, steps) && i <= |steps|
    ensures Shows(trace[i], Ahead(trace, steps, i))
    decreases i
  {
    if i == 0 {
      RunStarts(e, trace, steps);
    } else {
      ViewIsDurable(e, trace, steps, i - 1);
      RunKeeps(e, trace, steps, i - 1);
      RunKeeps(e, trace, steps, i);
      RunStep(e, trace, steps, i - 1);
      StepShows(e, trace[i - 1], steps[i - 1], trace[i], Ahead(trace, steps, i - 1));
    }
  }

  // ----- what readers saw -----

  /** Nobody read while the view was ahead of the durable log. */
  ghost predicate ReadsSettled(trace: seq<System>, steps: seq<Step>)
    requires |trace| == |steps| + 1
  {
    forall i :: 0 <= i < |steps| && steps[i].Observe? ==> !Ahead(trace, steps, i)
  }

  /** Everything seen at any moment is durable by then. */
  ghost predicate ReadsDurable(trace: seq<System>) {
    forall i :: 0 <= i < |trace| ==> SeenDurable(trace[i])
  }

  ghost predicate SeenDurable(s: System) {
    s.seen <= s.store.durable
  }

  lemma SeenNext(e: Engine, s: System, step: Step, t: System)
    requires Follows(e, s, step, t) && Stands(s, t) && SeenDurable(s)
    requires step.Observe? ==> Shows(s, false)
    ensures SeenDurable(t)
  {
    assert Next(e, s, step, t);
  }

  lemma {:induction false} SeenFollows(e: Engine, trace: seq<System>, steps: seq<Step>, i: nat)
    requires IsRun(e, trace, steps) && AllOrderly(trace, steps) && ReadsSettled(trace, steps) && i <= |steps|
    ensures SeenDurable(trace[i])
    decreases i
  {
    if i == 0 {
      RunStarts(e, trace, steps);
    } else {
      SeenFollows(e, trace, steps, i - 1);
      ViewIsDurable(e, trace, steps, i - 1);
      PromisesLast(e, trace, steps, i - 1, i);
      RunStep(e, trace, steps, i - 1);
      SeenNext(e, trace[i - 1], steps[i - 1], trace[i]);
    }
  }

  lemma SeenShows(e: Engine, s: System, step: Step, t: System, ahead: bool)
    requires Follows(e, s, step, t) && step.Observe? && SeenDurable(t) && Shows(s, ahead)
    ensures !ahead
  {
    assert Next(e, s, step, t);
  }

  /**
   Everything any reader ever saw is durable, and so lasts, exactly when nobody read between the
   reopening of an unsettled store and the next sync.
   */
  lemma ReadsLast(e: Engine, trace: seq<System>, steps: seq<Step>)
    requires IsRun(e, trace, steps) && AllOrderly(trace, steps)
    ensures ReadsDurable(trace) <==> ReadsSettled(trace, steps)
  {
    if ReadsSettled(trace, steps) {
      forall i | 0 <= i < |trace| ensures SeenDurable(trace[i]) {
        SeenFollows(e, trace, steps, i);
      }
    }
    if ReadsDurable(trace) {
      forall i | 0 <= i < |steps| && steps[i].Observe? ensures !Ahead(trace, steps, i) {
        ViewIsDurable(e, trace, steps, i);
        RunStep(e, trace, steps, i);
        assert SeenDurable(trace[i + 1]);
        SeenShows(e, trace[i], steps[i], trace[i + 1], Ahead(trace, steps, i));
      }
    }
  }

  // ----- a condition to check before reopening -----

  ghost predicate AllSettled(trace: seq<System>, steps: seq<Step>) {
    forall i :: 0 <= i < |steps| && i < |trace| && steps[i].Reopen? ==> Settled(trace[i].store)
  }

  lemma {:induction false} NeverAhead(trace: seq<System>, steps: seq<Step>, i: nat)
    requires |trace| == |steps| + 1 && i <= |steps| && AllSettled(trace, steps)
    ensures !Ahead(trace, steps, i)
  {
    if i > 0 {
      NeverAhead(trace, steps, i - 1);
    }
  }

  /** When every store was settled as it was reopened, no view was ever ahead and every read lasts. */
  lemma SettledReopenings(e: Engine, trace: seq<System>, steps: seq<Step>, i: nat)
    requires IsRun(e, trace, steps) && AllOrderly(trace, steps) && AllSettled(trace, steps) && i <= |steps|
    ensures trace[i].seen <= trace[i].store.durable
    ensures trace[i].live.Some? ==> trace[i].live.value.lsn == trace[i].store.durable
  {
    forall k | 0 <= k < |steps| && steps[k].Observe? ensures !Ahead(trace, steps, k) {
      NeverAhead(trace, steps, k);
    }
    SeenFollows(e, trace, steps, i);
    NeverAhead(trace, steps, i);
    ViewIsDurable(e, trace, steps, i);
    RunKeeps(e, trace, steps, i);
    OpenIsReached(e, trace[i]);
  }

  lemma OpenIsReached(e: Engine, s: System)
    requires Good(e, s)
    ensures s.live.Some? ==> s.store.durable <= s.live.value.lsn
  {
    assert Inv(e, s);
    if s.live.Some? {
      assert LiveOk(e, s.store, s.live.value);
    }
  }

  /** The reopening of an unsettled store shows more than is durable. */
  lemma UnsettledShowsMore(e: Engine, trace: seq<System>, steps: seq<Step>, i: nat)
    requires IsRun(e, trace, steps) && AllOrderly(trace, steps) && i < |steps|
    requires steps[i].Reopen? && !Settled(trace[i].store)
    ensures trace[i + 1].live.Some? && trace[i + 1].live.value.lsn > trace[i + 1].store.durable
  {
    ViewIsDurable(e, trace, steps, i + 1);
    RunStep(e, trace, steps, i);
    assert Next(e, trace[i], steps[i], trace[i + 1]);
  }
}
