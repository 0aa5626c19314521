/**
 Recovery after a kill, when the operating system still holds complete frames that were never synced.

 open_with_options replays such frames but syncs the log only when it truncates a torn tail, so what
 it shows may not be durable yet.  Exactly when it is durable is proved here.
 */
module KilledRecovery {
  import opened Results
  import opened Transactions
  import opened Wal
  import opened Recovery
  import opened RecoveryProofs
  import opened CrashProofs
  import opened ReopenProofs
  import opened RecoveryRuns

  /** No transaction frame of the active segment is unsynced. */
  ghost predicate TailSynced(segment: Segment) {
    TxCount(Synced(segment)) == TxCount(segment.frames)
  }

  lemma TailDurable(e: Engine, c: Store)
    requires LogOk(e, c, None) && RootsOk(e, c)
    ensures c.durable == |c.log| <==> TailSynced(Active(c))
  {
    ActiveOk(e, None, c);
    AnchorBase(e, c);
  }

  // ----- a power loss that keeps only what was synced -----

  lemma {:induction false} CutOfPrefix(e: Engine, frames: seq<Frame>, count: nat)
    requires count <= |frames|
    ensures Cut(e, frames, ByteLength(e, frames[..count])) == frames[..count]
    ensures ByteLength(e, frames[..count]) <= ByteLength(e, frames)
  {
    if count > 0 {
      assert frames[..count][1..] == frames[1..][..count - 1];
      CutOfPrefix(e, frames[1..], count - 1);
      assert frames[..count] == [frames[0]] + frames[1..][..count - 1];
    } else if frames != [] {
      assert Size(e, frames[0]) > 0;
    }
  }

  lemma CutAtSynced(e: Engine, segment: Segment)
    requires segment.synced <= |segment.frames|
    ensures CutSegment(e, segment, Segment(Synced(segment), |Synced(segment)|, 0), true)
  {
    var kept := Synced(segment);
    CutOfPrefix(e, segment.frames, segment.synced);
    var limit := ByteLength(e, kept);
    assert segment.frames[..segment.synced] == kept;
    assert ByteLength(e, segment.frames[..segment.synced]) <= limit <= ByteLength(e, segment.frames) + segment.torn;
  }

  lemma CutAtEnd(e: Engine, segment: Segment)
    requires segment.synced <= |segment.frames|
    ensures CutSegment(e, segment, Segment(segment.frames, |segment.frames|, segment.torn), true)
  {
    var limit := ByteLength(e, segment.frames) + segment.torn;
    CutIsPrefix(e, segment.frames, limit);
    CutOfPrefix(e, segment.frames, segment.synced);
    assert ByteLength(e, segment.frames[..segment.synced]) <= limit;
  }

  /** Every segment as it is, except that one segment is cut to `cut`. */
  function CutOne(segments: map<nat, Segment>, n: nat, cut: Segment): map<nat, Segment> {
    map m | m in segments :: if m == n then cut else Segment(segments[m].frames, |segments[m].frames|, segments[m].torn)
  }

  lemma CutOneCrashes(e: Engine, segments: map<nat, Segment>, n: nat, cut: Segment)
    requires n in segments && CutSegment(e, segments[n], cut, true)
    requires forall m :: m in segments ==> segments[m].synced <= |segments[m].frames|
    ensures CrashedSegments(e, segments, map[], CutOne(segments, n, cut), true)
  {
    forall m | m in CutOne(segments, n, cut) ensures CutSegment(e, segments[m], CutOne(segments, n, cut)[m], true) {
      if m != n {
        CutAtEnd(e, segments[m]);
      }
    }
  }

  lemma NothingAbove(e: Engine, c: Store, cut: Segment, n: nat)
    requires LogOk(e, c, None) && n > c.active
    ensures !NonEmpty(CutOne(c.disk.segments, c.active, cut), n)
  {
    assert SealedAt(c.disk, c.active, c.retained.generation, None, c.root, n);
  }

  /** The unsynced transactions of the active segment can all be lost. */
  lemma UnsyncedTailIsLost(e: Engine, u: System)
    requires LogOk(e, u.store, None) && RootsOk(e, u.store) && u.trash == map[] && u.store.durable < |u.store.log|
    ensures exists v :: Next(e, u, Crash(true), v) && |v.store.log| < |u.store.log|
  {
    var c := u.store;
    ActiveOk(e, None, c);
    var cut := Segment(Synced(Active(c)), |Synced(Active(c))|, 0);
    var disk := Disk(CutOne(c.disk.segments, c.active, cut), c.disk.files);
    CutAtSynced(e, Active(c));
    SyncedBounds(e, c);
    CutOneCrashes(e, c.disk.segments, c.active, cut);
    assert TrashOk(c, map[]);
    AllKept(e, c, None, map[], disk, true);
    AnchorBase(e, c);
    forall n | n > c.active ensures !NonEmpty(disk.segments, n) {
      NothingAbove(e, c, cut, n);
    }
    var p := LastNonEmpty(disk.segments, c.root.generation, c.active);
    EndAfter(e, c, None, disk, true, p);
    CrashesTo(e, u, disk, p, true);
    LostEnd(e, c, disk);
    assert |AfterCrash(u, disk, p).store.log| < |c.log|;
  }

  lemma SyncedBounds(e: Engine, c: Store)
    requires LogOk(e, c, None)
    ensures forall m :: m in c.disk.segments ==> c.disk.segments[m].synced <= |c.disk.segments[m].frames|
  {
    forall m | m in c.disk.segments ensures c.disk.segments[m].synced <= |c.disk.segments[m].frames| {
      assert SegmentOk(m, c.disk.segments[m], c.root, c.retained, c.maybe);
    }
  }

  lemma LostEnd(e: Engine, c: Store, disk: Disk)
    requires LogOk(e, c, None) && RootsOk(e, c) && c.durable < |c.log|
    requires FramesOf(disk, c.active) == Synced(Active(c))
    ensures LeftEnd(c, disk) < |c.log|
  {
    ActiveOk(e, None, c);
    AnchorBase(e, c);
  }

  // ----- a kill and a reopening -----

  lemma DurableSurvives(e: Engine, u: System)
    requires Inv(e, u) && u.store.durable == |u.store.log|
    ensures forall v :: Next(e, u, Crash(true), v) ==> |u.store.log| <= |v.store.log|
  {
    forall v | Next(e, u, Crash(true), v) ensures |u.store.log| <= |v.store.log| {
      CrashKeeps(e, u, true, v);
    }
  }

  /**
   What reopening shows after a kill survives every later power loss exactly when the kill left a
   torn tail -- then recovery truncates and syncs -- or no unsynced transaction.
   */
  lemma KilledViewIsDurable(e: Engine, s: System, t: System, chosen: Root, u: System)
    requires Inv(e, s) && Next(e, s, Crash(false), t) && Next(e, t, Reopen(chosen), u)
    ensures u.live.Some? && u.live.value.lsn == |t.store.log|
    ensures (forall v :: Next(e, u, Crash(true), v) ==> u.live.value.lsn <= |v.store.log|)
       <==> (Active(t.store).torn > 0 || TailSynced(Active(t.store)))
  {
    CrashKeeps(e, s, false, t);
    ReopenKeeps(e, t, chosen, u);
    KilledDurable(e, t, u);
    if u.store.durable == |u.store.log| {
      DurableSurvives(e, u);
    } else {
      assert LogOk(e, u.store, None) && RootsOk(e, u.store);
      UnsyncedTailIsLost(e, u);
    }
  }

  lemma KilledDurable(e: Engine, t: System, u: System)
    requires Inv(e, t) && t.live.None? && u.store == Recovered(t.store)
    ensures u.store.log == t.store.log
    ensures u.store.durable == |u.store.log| <==> Active(t.store).torn > 0 || TailSynced(Active(t.store))
    ensures u.store.durable <= |u.store.log|
  {
    assert LogOk(e, t.store, None) && RootsOk(e, t.store);
    RecoveredFacts(e, t.store);
    TailDurable(e, t.store);
    ActiveOk(e, None, t.store);
    if Active(t.store).synced == |Active(t.store).frames| {
      assert Synced(Active(t.store)) == Active(t.store).frames;
    }
  }
}

/**
 When a rotation is safe.  A rotation does not sync the segment it leaves; a power loss may then cut
 that segment anywhere in its unsynced bytes, and recovery refuses a sealed segment with a torn tail.
 */
module RotationObstacles {
  import opened Results
  import opened Transactions
  import opened Wal
  import opened Recovery
  import opened RecoveryProofs
  import opened CrashProofs
  import opened ReopenProofs
  import opened RecoveryRuns
  import opened KilledRecovery

  /** Cut one byte short. */
  lemma {:induction false} CutOneShort(e: Engine, frames: seq<Frame>)
    requires frames != []
    ensures ByteLength(e, frames) >= 40
    ensures Cut(e, frames, ByteLength(e, frames) - 1) == frames[..|frames| - 1]
    ensures ByteLength(e, frames[..|frames| - 1]) <= ByteLength(e, frames) - 40
  {
    if |frames| == 1 {
      assert frames[1..] == [] && frames[..0] == [];
    } else {
      CutOneShort(e, frames[1..]);
      assert frames[..|frames| - 1] == [frames[0]] + frames[1..][..|frames| - 2];
      assert frames[..|frames| - 1][1..] == frames[1..][..|frames| - 2];
    }
  }

  function OneShort(e: Engine, frames: seq<Frame>): Segment
    requires frames != []
  {
    Segment(frames[..|frames| - 1], |frames| - 1, if ByteLength(e, frames) > ByteLength(e, frames[..|frames| - 1])
                                                  then ByteLength(e, frames) - 1 - ByteLength(e,
                                                      frames[..|frames| - 1]) else 0)
  }

  lemma OneShortIsCut(e: Engine, segment: Segment)
    requires segment.synced < |segment.frames|
    ensures CutSegment(e, segment, OneShort(e, segment.frames), true) && OneShort(e, segment.frames).torn > 0
  {
    var limit: nat := ByteLength(e, segment.frames);
    CutOneShort(e, segment.frames);
    CutOfPrefix(e, segment.frames[..|segment.frames| - 1], segment.synced);
    assert segment.frames[..|segment.frames| - 1][..segment.synced] == segment.frames[..segment.synced];
    var cut: nat := limit - 1;
    assert ByteLength(e, segment.frames[..segment.synced]) <= cut <= ByteLength(e, segment.frames) + segment.torn;
  }

  /** A sealed segment with a torn tail stops every replay that passes it. */
  lemma {:induction false} TornIsRefused(e: Engine, disk: Disk, root: Root, first: nat, last: int, active: nat, n: nat)
    requires first <= n <= last && n != active && NonEmpty(disk.segments, n) && disk.segments[n].torn != 0
    ensures ReplaySegments(e, disk, root, first, last, active).Err?
    decreases last + 1
  {
    if n < last {
      TornIsRefused(e, disk, root, first, last - 1, active, n);
    }
  }

  /** The disk of a rotation whose old segment is cut one byte short. */
  ghost predicate Broken(e: Engine, s: System, u: System, disk: Disk) {
    && s.store.active in u.store.disk.segments && Active(s.store).frames != []
    && disk == Disk(CutOne(u.store.disk.segments, s.store.active, OneShort(e, Active(s.store).frames)),
       u.store.disk.files)
  }

  /** Begun and ended, a rotation left the old segments as they were. */
  lemma RotatedSegments(e: Engine, s: System, g: nat, t: System, u: System)
    requires Next(e, s, BeginRotation(g), t) && Next(e, t, EndRotation, u)
    ensures u.store.disk.segments == s.store.disk.segments[g := Segment([RootFrame(s.live.value.root)], 1, 0)]
    ensures u.store == s.store.(disk := Disk(u.store.disk.segments, s.store.disk.files), active := g)
    ensures g !in s.store.disk.segments && u.trash == s.trash && u.acked == s.acked
    ensures forall n :: n in s.store.disk.segments ==> n < g
  {
  }

  lemma BrokenRoots(e: Engine, s: System, g: nat, t: System, u: System, disk: Disk, chosen: Root)
    requires Inv(e, s) && Next(e, s, BeginRotation(g), t) && Next(e, t, EndRotation, u) && Broken(e, s, u, disk)
    requires IsRoot(disk, chosen)
    ensures chosen.generation <= s.store.active
  {
    var c := s.store;
    RotatedSegments(e, s, g, t, u);
    assert LogOk(e, c, None) && RootsOk(e, c) && LiveOk(e, c, s.live.value);
    AnchorBase(e, c);
    var n :| n in disk.segments && RootFrame(chosen) in disk.segments[n].frames;
    if n != g {
      BrokenFrames(e, s, u, disk, n);
      assert RootFrame(chosen) in c.disk.segments[n].frames;
      KnownRoot(e, c, chosen);
    }
  }

  lemma BrokenFrames(e: Engine, s: System, u: System, disk: Disk, n: nat)
    requires Broken(e, s, u, disk) && n in disk.segments && n in u.store.disk.segments
    requires u.store.disk.segments[s.store.active] == Active(s.store)
    ensures disk.segments[n].frames <= u.store.disk.segments[n].frames
  {
  }

  lemma BrokenRefused(e: Engine, s: System, g: nat, t: System, u: System, v: System)
    requires Inv(e, s) && Next(e, s, BeginRotation(g), t) && Next(e, t, EndRotation, u)
    requires Broken(e, s, u, v.store.disk) && v.store.active == g && Active(s.store).synced < |Active(s.store).frames|
             && |Active(s.store).frames| > 1
    ensures forall chosen, w :: !Next(e, v, Reopen(chosen), w)
  {
    forall chosen, w ensures !Next(e, v, Reopen(chosen), w) {
      if Selected(v.store.disk, chosen) {
        BrokenRoots(e, s, g, t, u, v.store.disk, chosen);
        RotatedSegments(e, s, g, t, u);
        OneShortIsCut(e, Active(s.store));
        TornIsRefused(e, v.store.disk, chosen, chosen.generation, g, g, s.store.active);
      }
    }
  }

  lemma {:induction false} EndAtMost(a: Disk, b: Disk, first: nat, last: int, from: nat)
    requires forall n :: first <= n <= last ==> TxCount(FramesOf(a, n)) <= TxCount(FramesOf(b, n))
    ensures End(a, first, last, from) <= End(b, first, last, from)
    decreases last + 1
  {
    if first <= last {
      EndAtMost(a, b, first, last - 1, from);
    }
  }

  /** The log still ends where it did, in the new segment. */
  lemma EndRotated(e: Engine, c: Store, g: nat, header: Root, disk: Disk)
    requires LogOk(e, c, None) && RootsOk(e, c) && g > c.active
    requires disk.segments == c.disk.segments[g := Segment([RootFrame(header)], 1, 0)]
    ensures End(disk, c.root.generation, g, c.root.lsn) == |c.log|
  {
    AnchorBase(e, c);
    SameSegments(c.disk, disk, c.root.generation, c.active, c.root.lsn, c.log);
    forall n | c.active < n <= g ensures HeaderLike(FramesOf(disk, n)) {
      assert SealedAt(c.disk, c.active, c.retained.generation, None, c.root, n);
    }
    CoversMoved(disk, c.active, g, c.log, c.root.generation, c.root.lsn);
  }

  /** Cutting one segment moves the end at most down. */
  lemma EndCut(e: Engine, disk: Disk, n: nat, first: nat, last: nat, from: nat)
    requires n in disk.segments && disk.segments[n].frames != []
    ensures End(Disk(CutOne(disk.segments, n, OneShort(e, disk.segments[n].frames)), disk.files), first, last, from)
         <= End(disk, first, last, from)
  {
    var frames := disk.segments[n].frames;
    var cut := Disk(CutOne(disk.segments, n, OneShort(e, frames)), disk.files);
    TxCountPrefix(frames, |frames| - 1);
    forall m | first <= m <= last ensures TxCount(FramesOf(cut, m)) <= TxCount(FramesOf(disk, m)) {}
    EndAtMost(cut, disk, first, last, from);
  }

  lemma CutContinues(disk: Disk, n: nat, cut: Segment, g: nat)
    requires g in disk.segments && g != n && disk.segments[g].frames != [] && forall m :: m in disk.segments ==> m <= g
    ensures Continues(CutOne(disk.segments, n, cut), g)
  {
  }

  lemma BrokenCrashes(e: Engine, s: System, g: nat, t: System, u: System)
    requires Inv(e, s) && Next(e, s, BeginRotation(g), t) && Next(e, t, EndRotation, u)
    requires !Rotatable(Active(s.store))
    ensures exists v :: Next(e, u, Crash(true), v) && Broken(e, s, u, v.store.disk) && v.store.active == g
  {
    var c := s.store;
    assert LogOk(e, c, None) && RootsOk(e, c);
    ActiveOk(e, None, c);
    SyncedBounds(e, c);
    RotatedSegments(e, s, g, t, u);
    EndRotated(e, c, g, s.live.value.root, u.store.disk);
    BreaksOff(e, u, c.active, Active(c), g);
    var disk := Disk(CutOne(u.store.disk.segments, c.active, OneShort(e, Active(c).frames)), u.store.disk.files);
    assert Broken(e, s, u, AfterCrash(u, disk, g).store.disk);
  }

  lemma BreaksOff(e: Engine, u: System, n: nat, segment: Segment, g: nat)
    requires segment.synced < |segment.frames| && n in u.store.disk.segments && u.store.disk.segments[n] == segment
             && n != g
    requires g in u.store.disk.segments && u.store.disk.segments[g].frames != []
    requires forall m :: m in u.store.disk.segments ==>
             m <= g && u.store.disk.segments[m].synced <= |u.store.disk.segments[m].frames|
    requires End(u.store.disk, u.store.root.generation, g, u.store.root.lsn) <= |u.store.log|
    ensures var disk := Disk(CutOne(u.store.disk.segments, n, OneShort(e, segment.frames)), u.store.disk.files);
            Next(e, u, Crash(true), AfterCrash(u, disk, g))
  {
    var disk := Disk(CutOne(u.store.disk.segments, n, OneShort(e, segment.frames)), u.store.disk.files);
    OneShortIsCut(e, segment);
    CutOneCrashes(e, u.store.disk.segments, n, OneShort(e, segment.frames));
    CutContinues(u.store.disk, n, OneShort(e, segment.frames), g);
    EndCut(e, u.store.disk, n, u.store.root.generation, g, u.store.root.lsn);
    CrashesTo(e, u, disk, g, true);
  }

  lemma OrderlyReopens(e: Engine, s: System, g: nat, t: System, u: System, v: System)
    requires Inv(e, s) && Next(e, s, BeginRotation(g), t) && Next(e, t, EndRotation, u) && Rotatable(Active(s.store))
    requires Next(e, u, Crash(true), v)
    ensures exists chosen, w :: Next(e, v, Reopen(chosen), w)
  {
    BeginRotationKeeps(e, s, g, t);
    EndRotationKeeps(e, t, u);
    CrashKeeps(e, u, true, v);
    GoodReopens(e, v, Newest(v.store));
    var w :| Reopens(e, v, Newest(v.store), w);
    assert Next(e, v, Reopen(Newest(v.store)), w);
  }

  /**
   After a rotation every power loss can be recovered from exactly when no frame after the header of
   the segment it left was unsynced.
   */
  lemma RotationIsSafe(e: Engine, s: System, g: nat, t: System, u: System)
    requires Inv(e, s) && Next(e, s, BeginRotation(g), t) && Next(e, t, EndRotation, u)
    ensures (forall v :: Next(e, u, Crash(true), v) ==> exists chosen, w :: Next(e, v, Reopen(chosen), w))
       <==> Rotatable(Active(s.store))
  {
    if Rotatable(Active(s.store)) {
      forall v | Next(e, u, Crash(true), v) ensures exists chosen, w :: Next(e, v, Reopen(chosen), w) {
        OrderlyReopens(e, s, g, t, u, v);
      }
    } else {
      assert LogOk(e, s.store, None);
      ActiveOk(e, None, s.store);
      BrokenCrashes(e, s, g, t, u);
      var v :| Next(e, u, Crash(true), v) && Broken(e, s, u, v.store.disk) && v.store.active == g;
      BrokenRefused(e, s, g, t, u, v);
    }
  }
}
