/**
 The other side of RotationObstacles: one run of the database in which an acknowledged commit
 becomes unreachable.

 A transaction is written but the process is killed before the sync; recovery shows it without
 syncing it; a checkpoint moves on to a new segment; a commit there is acknowledged; the power fails.
 The old segment loses the unsynced frame, and every replay then finds a gap.
 */
module LostCommit {
  import opened Results
  import opened Model
  import opened Histories
  import opened Transactions
  import opened Wal
  import opened Recovery
  import opened CommittedLogs
  import opened RecoveryRuns

  // ----- two transactions, each defining a table -----

  const FIELD := Field(1, [102], BoolType, true)
  const FIRST_TABLE := Table(1, [97], [Schema(1, [FIELD])])
  const SECOND_TABLE := Table(2, [98], [Schema(1, [FIELD])])
  const FIRST_TX: Tx := [DefineTable(FIRST_TABLE)]
  const SECOND_TX: Tx := [DefineTable(SECOND_TABLE)]
  const NO_TABLES: Catalog := map[]
  const ONE_TABLE: Catalog := map[1 := FIRST_TABLE]
  const TWO_TABLES: Catalog := map[1 := FIRST_TABLE, 2 := SECOND_TABLE]
  const NOTHING: map<Key, History> := map[]

  lemma TableIsValid(table: Table)
    requires table == FIRST_TABLE || table == SECOND_TABLE
    ensures ValidName(table.name) && ValidSchema(table.schemas[0])
  {
    assert table.name[0] > 32 && FIELD.name[0] > 32;
  }

  lemma RunsOne(view: View, op: Operation, lsn: nat)
    ensures Run(view, [op], lsn) == Exec(view, Fresh(view), op, lsn)
  {
    assert [op][..0] == [];
    assert ExecAll(view, Fresh(view), [], lsn) == Ok(Fresh(view));
  }

  lemma FirstRuns(lsn: nat)
    ensures Run(View(NO_TABLES, NOTHING), FIRST_TX, lsn) == Ok(Stage(ONE_TABLE, NOTHING))
  {
    TableIsValid(FIRST_TABLE);
    assert ValidateTableChange(NO_TABLES, FIRST_TABLE) == Ok(());
    assert NO_TABLES[1 := FIRST_TABLE] == ONE_TABLE;
    RunsOne(View(NO_TABLES, NOTHING), FIRST_TX[0], lsn);
  }

  lemma SecondRuns(lsn: nat)
    ensures Run(View(ONE_TABLE, NOTHING), SECOND_TX, lsn) == Ok(Stage(TWO_TABLES, NOTHING))
  {
    TableIsValid(SECOND_TABLE);
    assert NextTableId(ONE_TABLE, 2);
    assert ONE_TABLE[1].name[0] != SECOND_TABLE.name[0];
    assert ValidateTableChange(ONE_TABLE, SECOND_TABLE) == Ok(());
    assert ONE_TABLE[2 := SECOND_TABLE] == TWO_TABLES;
    RunsOne(View(ONE_TABLE, NOTHING), SECOND_TX[0], lsn);
  }

  ghost predicate IsDatabase(e: Engine) {
    e == Database(e.txBytes, e.rootBytes)
  }

  lemma EngineRuns(e: Engine)
    requires IsDatabase(e)
    ensures e.run(EMPTY_VIEW, FIRST_TX, 1) == Ok(Stage(ONE_TABLE, NOTHING))
    ensures e.run(View(ONE_TABLE, NOTHING), SECOND_TX, 2) == Ok(Stage(TWO_TABLES, NOTHING))
  {
    DatabaseRuns(e, EMPTY_VIEW, FIRST_TX, 1);
    DatabaseRuns(e, View(ONE_TABLE, NOTHING), SECOND_TX, 2);
    FirstRuns(1);
    SecondRuns(2);
  }

  lemma Views(e: Engine, log: seq<Tx>)
    requires IsDatabase(e) && |log| >= 1 && log[0] == FIRST_TX
    ensures ViewAt(e, log, 0) == EMPTY_VIEW && ViewAt(e, log, 1) == View(ONE_TABLE, NOTHING)
  {
    EngineRuns(e);
    assert ViewAt(e, log, 0) == EMPTY_VIEW;
    assert NOTHING + NOTHING == NOTHING;
  }

  // ----- the states of the run -----

  const HEADER := RootFrame(EMPTY_ROOT)
  const FIRST := TxFrame(1, FIRST_TX)
  const SECOND := TxFrame(2, SECOND_TX)

  function State(
    segments: map<nat, Segment>, active: nat, log: seq<Tx>, durable: nat, live: Option<Live>, acked: nat): System
  {
    System(Store(Disk(segments, {}), active, log, durable, EMPTY_ROOT, EMPTY_ROOT, None), map[], live, acked, 0)
  }

  function Open(catalog: Catalog, lsn: nat, bytes: nat, job: Job): Option<Live> {
    Some(Live(EMPTY_ROOT, catalog, NOTHING, NOTHING, lsn, bytes, job, false, false))
  }

  function OneSegment(frames: seq<Frame>): map<nat, Segment> {
    map[0 := Segment(frames, 1, 0)]
  }

  function TwoSegments(earlier: seq<Frame>, frames: seq<Frame>, synced: nat): map<nat, Segment> {
    map[0 := Segment(earlier, 1, 0), 1 := Segment(frames, synced, 0)]
  }

  /** Frame bytes of the first transaction, and of both. */
  function One(e: Engine): nat { 40 + e.txBytes(FIRST_TX) }

  function Both(e: Engine): nat { 40 + e.txBytes(FIRST_TX) + 40 + e.txBytes(SECOND_TX) }

  function Opened(): System { State(OneSegment([HEADER]), 0, [], 0, Open(NO_TABLES, 0, 0, Idle), 0) }

  function Written(): System { State(OneSegment([HEADER, FIRST]), 0, [FIRST_TX], 0, Open(NO_TABLES, 0, 0, Idle), 0) }

  function Killed(): System { State(OneSegment([HEADER, FIRST]), 0, [FIRST_TX], 0, None, 0) }

  function Reappeared(e: Engine): System {
    State(OneSegment([HEADER, FIRST]), 0, [FIRST_TX], 0, Open(ONE_TABLE, 1, One(e), Idle), 0)
  }

  function Turning(e: Engine): System {
    State(TwoSegments([HEADER, FIRST], [HEADER], 0), 0, [FIRST_TX], 0, Open(ONE_TABLE, 1, One(e), Rotating(1)), 0)
  }

  function Turned(e: Engine): System {
    State(TwoSegments([HEADER, FIRST], [HEADER], 1), 1, [FIRST_TX], 0,
          Open(ONE_TABLE, 1, One(e), Building(1, View(ONE_TABLE, NOTHING), One(e))), 0)
  }

  function Again(e: Engine): System {
    State(TwoSegments([HEADER, FIRST], [HEADER, SECOND], 1), 1, [FIRST_TX, SECOND_TX], 0, Turned(e).live, 0)
  }

  function Acknowledged(e: Engine): System {
    State(TwoSegments([HEADER, FIRST], [HEADER, SECOND], 2), 1, [FIRST_TX, SECOND_TX], 2,
          Open(TWO_TABLES, 2, Both(e), Building(1, View(ONE_TABLE, NOTHING), One(e))), 2)
  }

  function Dark(): System { State(TwoSegments([HEADER], [HEADER, SECOND], 2), 1, [FIRST_TX], 1, None, 2) }

  // ----- its steps -----

  lemma Counts()
    ensures TxCount([HEADER]) == 0 && TxCount([HEADER, FIRST]) == 1 && TxCount([HEADER, SECOND]) == 1
    ensures [HEADER, FIRST][..1] == [HEADER] && [HEADER, SECOND][..1] == [HEADER] && [HEADER][..0] == []
  {
    assert [HEADER][..0] == [];
    assert [HEADER, FIRST][..1] == [HEADER] && [HEADER, SECOND][..1] == [HEADER];
    assert TxCount([HEADER]) == 0;
  }

  lemma OnlyRoot(disk: Disk, root: Root)
    requires forall n :: n in disk.segments ==> forall f :: f in disk.segments[n].frames && f.RootFrame? ==> f == HEADER
    requires 0 in disk.segments && HEADER in disk.segments[0].frames
    ensures Selected(disk, root) <==> root == EMPTY_ROOT
  {
    if Selected(disk, root) {
      assert root == EMPTY_ROOT;
    }
    assert IsRoot(disk, EMPTY_ROOT);
  }

  lemma ReplayHeader(e: Engine)
    ensures ReplayFrames(e, EMPTY_ROOT, Start(EMPTY_ROOT), [HEADER]) == Ok(Start(EMPTY_ROOT))
  {
    assert [HEADER][..0] == [];
  }

  lemma ReplayFirst(e: Engine)
    requires IsDatabase(e)
    ensures ReplayFrames(e, EMPTY_ROOT, Start(EMPTY_ROOT), [HEADER, FIRST])
            == Ok(Replayed(1, ONE_TABLE, NOTHING, One(e)))
  {
    Counts();
    ReplayHeader(e);
    EngineRuns(e);
    assert NOTHING + NOTHING == NOTHING;
    assert Seen(EMPTY_ROOT, Start(EMPTY_ROOT)) == EMPTY_VIEW;
  }

  lemma Opens(e: Engine)
    ensures Follows(e, FRESH, Reopen(EMPTY_ROOT), Opened())
  {
    var disk := FRESH.store.disk;
    OnlyRoot(disk, EMPTY_ROOT);
    assert ReplaySegments(e, disk, EMPTY_ROOT, 0, -1, 0) == Ok(Start(EMPTY_ROOT));
    ReplayHeader(e);
    assert Opened().store.disk.segments == FRESH.store.disk.segments;
    assert Recovered(FRESH.store) == Opened().store;
  }

  lemma Writes(e: Engine)
    requires IsDatabase(e)
    ensures Follows(e, Opened(), Write(FIRST_TX), Written())
  {
    EngineRuns(e);
    assert [HEADER] + [FIRST] == [HEADER, FIRST] && Opened().store.log + [FIRST_TX] == [FIRST_TX];
    assert Written().store.disk.segments == Opened().store.disk.segments[0 := Segment([HEADER, FIRST], 1, 0)];
  }

  lemma WholeCut(e: Engine, segment: Segment, power: bool)
    requires segment.torn == 0 && segment.synced <= |segment.frames|
    ensures CutSegment(e, segment, Segment(segment.frames, if power then |segment.frames| else segment.synced, 0),
            power)
  {
    var limit := ByteLength(e, segment.frames);
    CutIsPrefix(e, segment.frames, limit);
    PrefixLength(e, segment.frames, segment.synced);
    assert ByteLength(e, segment.frames[..segment.synced]) <= limit;
  }

  lemma {:induction false} PrefixLength(e: Engine, frames: seq<Frame>, count: nat)
    requires count <= |frames|
    ensures ByteLength(e, frames[..count]) <= ByteLength(e, frames)
  {
    if count > 0 {
      assert frames[..count][1..] == frames[1..][..count - 1];
      PrefixLength(e, frames[1..], count - 1);
    }
  }

  lemma Dies(e: Engine)
    ensures Follows(e, Written(), Crash(false), Killed())
  {
    var c := Written().store;
    Counts();
    WholeCut(e, c.disk.segments[0], false);
    assert End(c.disk, 0, -1, 0) == 0 && End(c.disk, 0, 0, 0) == 1;
    assert c.log[..1] == c.log;
    assert CrashedSegments(e, c.disk.segments, map[], Killed().store.disk.segments, false);
    assert DurableEnd(Killed().store.disk, 0, EMPTY_ROOT) == 0;
  }

  lemma Reappears(e: Engine)
    requires IsDatabase(e)
    ensures Follows(e, Killed(), Reopen(EMPTY_ROOT), Reappeared(e))
  {
    var disk := Killed().store.disk;
    OnlyRoot(disk, EMPTY_ROOT);
    assert ReplaySegments(e, disk, EMPTY_ROOT, 0, -1, 0) == Ok(Start(EMPTY_ROOT));
    ReplayFirst(e);
    assert ReplaySegments(e, disk, EMPTY_ROOT, 0, 0, 0) == Ok(Replayed(1, ONE_TABLE, NOTHING, One(e)));
    assert Recovered(Killed().store) == Killed().store;
  }

  lemma Turns(e: Engine)
    ensures Follows(e, Reappeared(e), BeginRotation(1), Turning(e)) && Follows(e, Turning(e), EndRotation, Turned(e))
  {
    assert Turning(e).store.disk.segments == Reappeared(e).store.disk.segments[1 := Segment([HEADER], 0, 0)];
    assert Turned(e).store.disk.segments == Turning(e).store.disk.segments[1 := Segment([HEADER], 1, 0)];
    assert NOTHING + NOTHING == NOTHING;
  }

  lemma WritesAgain(e: Engine)
    requires IsDatabase(e)
    ensures Follows(e, Turned(e), Write(SECOND_TX), Again(e))
  {
    Views(e, Turned(e).store.log);
    EngineRuns(e);
    assert [HEADER] + [SECOND] == [HEADER, SECOND] && [FIRST_TX] + [SECOND_TX] == [FIRST_TX, SECOND_TX];
    assert Again(e).store.disk.segments == Turned(e).store.disk.segments[1 := Segment([HEADER, SECOND], 1, 0)];
  }

  lemma Commits(e: Engine)
    requires IsDatabase(e)
    ensures Follows(e, Again(e), SyncCommits, Acknowledged(e))
  {
    EngineRuns(e);
    var live, log := Again(e).live.value, Again(e).store.log;
    assert NOTHING + NOTHING == NOTHING;
    assert PublishTo(e, live, log, 1) == live;
    assert Visible(live) == View(ONE_TABLE, NOTHING);
    assert PublishTo(e, live, log, 2) == Acknowledged(e).live.value;
    assert Acknowledged(e).store.disk.segments == Again(e).store.disk.segments[1 := Segment([HEADER, SECOND], 2, 0)];
  }

  lemma OneLength(e: Engine, frame: Frame)
    ensures ByteLength(e, [frame]) == Size(e, frame)
  {
    assert [frame][1..] == [];
    assert ByteLength(e, []) == 0;
  }

  /** Only the header of the first segment was ever synced. */
  lemma HeaderCut(e: Engine)
    ensures CutSegment(e, Segment([HEADER, FIRST], 1, 0), Segment([HEADER], 1, 0), true)
  {
    Counts();
    var limit: nat := ByteLength(e, [HEADER]);
    OneLength(e, HEADER);
    OneLength(e, FIRST);
    assert [HEADER, FIRST][1..] == [FIRST];
    assert limit == Size(e, HEADER) && ByteLength(e, [HEADER, FIRST]) == Size(e, HEADER) + Size(e, FIRST);
    assert Cut(e, [FIRST], 0) == [];
    assert Cut(e, [HEADER, FIRST], limit) == [HEADER];
    assert ByteLength(e, [HEADER, FIRST][..1]) <= limit <= ByteLength(e, [HEADER, FIRST]) + 0;
  }

  lemma LosesPower(e: Engine)
    ensures Follows(e, Acknowledged(e), Crash(true), Dark())
  {
    var c, disk := Acknowledged(e).store, Dark().store.disk;
    Counts();
    WholeCut(e, c.disk.segments[1], true);
    HeaderCut(e);
    assert CrashedSegments(e, c.disk.segments, map[], disk.segments, true);
    assert End(disk, 0, -1, 0) == 0 && End(disk, 0, 0, 0) == 0 && End(disk, 0, 1, 0) == 1;
    assert c.log[..1] == [FIRST_TX];
    assert [HEADER, SECOND][..2] == [HEADER, SECOND];
    assert DurableEnd(disk, 1, EMPTY_ROOT) == 1;
  }

  /** The only checkpoint there is cannot be replayed. */
  lemma NothingReplays(e: Engine, root: Root)
    requires Selected(Dark().store.disk, root)
    ensures ReplaySegments(e, Dark().store.disk, root, root.generation, 1, 1) == Err(Corrupt)
  {
    var disk := Dark().store.disk;
    OnlyRoot(disk, root);
    Counts();
    ReplayHeader(e);
    assert ReplaySegments(e, disk, EMPTY_ROOT, 0, -1, 1) == Ok(Start(EMPTY_ROOT));
    assert ReplaySegments(e, disk, EMPTY_ROOT, 0, 0, 1) == Ok(Start(EMPTY_ROOT));
    assert ReplayFrames(e, EMPTY_ROOT, Start(EMPTY_ROOT), [HEADER, SECOND]) == Err(Corrupt);
  }

  // ----- the run -----

  function Trace(e: Engine): seq<System> {
    [FRESH, Opened(), Written(), Killed(), Reappeared(e), Turning(e), Turned(e), Again(e), Acknowledged(e), Dark()]
  }

  const STEPS := [Reopen(EMPTY_ROOT), Write(FIRST_TX), Crash(false), Reopen(EMPTY_ROOT), BeginRotation(1), EndRotation,
                  Write(SECOND_TX), SyncCommits, Crash(true)]

  lemma Steps(e: Engine, n: nat)
    requires IsDatabase(e) && n < |STEPS|
    ensures Follows(e, Trace(e)[n], STEPS[n], Trace(e)[n + 1])
  {
    if n == 0 { Opens(e); }
    else if n == 1 { Writes(e); }
    else if n == 2 { Dies(e); }
    else if n == 3 { Reappears(e); }
    else if n <= 5 { Turns(e); }
    else if n == 6 { WritesAgain(e); }
    else if n == 7 { Commits(e); }
    else { LosesPower(e); }
  }

  lemma {:induction false} StepsRun(e: Engine, trace: seq<System>, steps: seq<Step>, n: nat)
    requires |trace| == |steps| + 1 && trace[0] == FRESH && n <= |steps|
    requires forall i :: 0 <= i < |steps| ==> Follows(e, trace[i], steps[i], trace[i + 1])
    ensures IsRun(e, trace[..n + 1], steps[..n])
  {
    if n > 0 {
      StepsRun(e, trace, steps, n - 1);
      RunExtends(e, trace[..n], steps[..n - 1], steps[n - 1], trace[n]);
      assert trace[..n] + [trace[n]] == trace[..n + 1] && steps[..n - 1] + [steps[n - 1]] == steps[..n];
    }
  }

  lemma TraceIsRun(e: Engine)
    requires IsDatabase(e)
    ensures IsRun(e, Trace(e), STEPS)
  {
    forall i | 0 <= i < |STEPS| ensures Follows(e, Trace(e)[i], STEPS[i], Trace(e)[i + 1]) {
      Steps(e, i);
    }
    StepsRun(e, Trace(e), STEPS, |STEPS|);
    assert Trace(e)[..|STEPS| + 1] == Trace(e) && STEPS[..|STEPS|] == STEPS;
  }

  /**
   The second definition was acknowledged; the first was shown by the reopening, its caller having been
   killed before the sync.  (`acked` is 2 because the second sync answers for the whole log.)  No
   reopening is possible.
   */
  lemma AcknowledgedButUnreachable(e: Engine)
    requires IsDatabase(e)
    ensures IsRun(e, Trace(e), STEPS) && Trace(e)[|STEPS|].acked == 2
    ensures forall chosen, t :: !Next(e, Trace(e)[|STEPS|], Reopen(chosen), t)
  {
    TraceIsRun(e);
    forall chosen, t ensures !Next(e, Dark(), Reopen(chosen), t) {
      if Selected(Dark().store.disk, chosen) {
        NothingReplays(e, chosen);
      }
    }
  }
}
