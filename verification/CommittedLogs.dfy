/**
 The coordinator and recovery agree: replaying the frames a coordinator wrote never fails and gives,
 sequence by sequence, the views it published.
 */
module CommittedLogs {
  import opened Results
  import opened Transactions
  import opened Conflicts
  import opened Wal

  /** The engine whose transactions are operation lists. */
  function Database(txBytes: Tx -> nat, rootBytes: Root -> nat): Engine {
    Engine((view: View, tx: Tx, lsn: nat) => Run(view, tx, lsn), txBytes, rootBytes)
  }

  /** The operations of the committed batches, as their frames hold them. */
  function Frames(log: seq<Batch>): seq<Tx> {
    seq(|log|, i requires 0 <= i < |log| => log[i].ops)
  }

  lemma DatabaseRuns(e: Engine, view: View, tx: Tx, lsn: nat)
    requires e == Database(e.txBytes, e.rootBytes)
    ensures e.run(view, tx, lsn) == Run(view, tx, lsn)
  {
  }

  lemma StepRuns(before: View, batch: Batch, lsn: nat, after: View)
    requires SerialStep(before, batch, lsn, after)
    ensures Run(before, batch.ops, lsn).Ok? && after == Publish(before, Run(before, batch.ops, lsn).value)
  {
    var stage :| RunsTo(before, batch.ops, lsn, stage) && Writes(before, batch, stage, after);
    assert Run(before, batch.ops, lsn) == Ok(stage);
  }

  lemma Reexecuted(e: Engine, views: seq<View>, log: seq<Batch>, n: nat)
    requires e == Database(e.txBytes, e.rootBytes)
    requires Recorded(views, log) && |views| == |log| + 1 && n < |log|
    ensures e.run(views[n], Frames(log)[n], n + 1).Ok?
    ensures views[n + 1] == Publish(views[n], e.run(views[n], Frames(log)[n], n + 1).value)
  {
    assert Serial(views, log);
    assert SerialStep(views[n], log[n], n + 1, views[n + 1]);
    StepRuns(views[n], log[n], n + 1, views[n + 1]);
    DatabaseRuns(e, views[n], log[n].ops, n + 1);
  }

  lemma NextReplayed(e: Engine, views: seq<View>, log: seq<Batch>, n: nat)
    requires e == Database(e.txBytes, e.rootBytes)
    requires Recorded(views, log) && |views| == |log| + 1 && 0 < n <= |log|
    requires Runs(e, Frames(log), n - 1) && ViewAt(e, Frames(log), n - 1) == views[n - 1]
    ensures Runs(e, Frames(log), n) && ViewAt(e, Frames(log), n) == views[n]
  {
    Reexecuted(e, views, log, n - 1);
    OneMore(e, Frames(log), n, views[n - 1], views[n]);
  }

  /** Re-executing what was committed never fails and passes through every published view. */
  lemma {:induction false} CommittedLogReplays(e: Engine, views: seq<View>, log: seq<Batch>, n: nat)
    requires e == Database(e.txBytes, e.rootBytes)
    requires Recorded(views, log) && |views| == |log| + 1 && views[0] == EMPTY_VIEW && n <= |log|
    ensures Runs(e, Frames(log), n)
    ensures ViewAt(e, Frames(log), n) == views[n]
  {
    if n > 0 {
      CommittedLogReplays(e, views, log, n - 1);
      NextReplayed(e, views, log, n);
    }
  }

  lemma OneMore(e: Engine, txs: seq<Tx>, n: nat, before: View, after: View)
    requires 0 < n <= |txs| && Runs(e, txs, n - 1) && ViewAt(e, txs, n - 1) == before
    requires e.run(before, txs[n - 1], n).Ok? && after == Publish(before, e.run(before, txs[n - 1], n).value)
    ensures Runs(e, txs, n) && ViewAt(e, txs, n) == after
  {
  }
}
