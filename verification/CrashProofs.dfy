/**
 A crash keeps the invariant of Recovery: whatever prefix of each segment survives, the log that
 is left is a prefix of the log that was written, and it holds everything that was durable.
 */
module CrashProofs {
  import opened Results
  import opened Transactions
  import opened Wal
  import opened Recovery
  import opened RecoveryProofs

  // ----- one segment -----

  lemma CutSegmentKeeps(e: Engine, before: Segment, after: Segment, power: bool)
    requires CutSegment(e, before, after, power)
    ensures after.frames <= before.frames
    ensures before.synced <= after.synced <= |after.frames|
    ensures Synced(before) <= Synced(after)
    ensures power ==> after.synced == |after.frames|
    ensures before.torn == 0 && before.synced == |before.frames| ==> after == before
    ensures before.torn == 0 && after.frames == before.frames ==> after.torn == 0
    ensures !power ==> after.synced == before.synced
  {
    var limit: nat :|
      && ByteLength(e, before.frames[..before.synced]) <= limit <= ByteLength(e, before.frames) + before.torn
      && after == Segment(Cut(e, before.frames, limit), if power then |Cut(e, before.frames, limit)| else before.synced,
                          limit - ByteLength(e, Cut(e, before.frames, limit)));
    CutIsPrefix(e, before.frames, limit);
    CutKeeps(e, before.frames, before.synced, limit);
    if before.synced == |before.frames| {
      assert before.frames[..before.synced] == before.frames;
    }
  }

  /** A whole segment survives with the same transactions, and whole, unless its lone header is lost. */
  lemma WholeSurvives(e: Engine, before: Segment, after: Segment, power: bool)
    requires Whole(before) && CutSegment(e, before, after, power)
    requires before.frames != [] ==> before.frames[0].RootFrame?
    ensures Alike(before.frames, after.frames)
    ensures after.frames != [] ==> Whole(after)
    ensures before.synced > 0 && before.synced == |before.frames| ==> after == before
  {
    CutSegmentKeeps(e, before, after, power);
    if before.synced != |before.frames| && after.frames != [] {
      assert after.frames == before.frames;
    }
  }

  /** A header that was written but not synced is either gone or whole. */
  lemma HeaderSurvives(e: Engine, root: Root, after: Segment, power: bool)
    requires CutSegment(e, Segment([RootFrame(root)], 0, 0), after, power) && after.frames != []
    ensures after == Segment([RootFrame(root)], if power then 1 else 0, 0)
  {
    CutSegmentKeeps(e, Segment([RootFrame(root)], 0, 0), after, power);
    assert after.frames == [RootFrame(root)];
  }

  /** What the disk may look like after a crash. */
  ghost predicate Survived(e: Engine, c: Store, trash: map<nat, Segment>, disk: Disk, power: bool) {
    CrashedSegments(e, c.disk.segments, trash, disk.segments, power) && c.disk.files <= disk.files
  }

  lemma SegmentSurvives(
    n: nat, before: Segment, after: Segment, root: Root, retained: Root, maybe: Option<Root>, left: Option<Root>)
    requires SegmentOk(n, before, root, retained, maybe)
    requires after.frames <= before.frames && after.synced <= |after.frames|
    requires left == maybe || (maybe.Some? && RootFrame(maybe.value) !in after.frames)
    ensures SegmentOk(n, after, root, retained, left)
  {
    forall f | f in after.frames && f.RootFrame? ensures f in before.frames {}
  }

  /** Only the active segment can hold the root being published. */
  lemma MaybeOnlyInActive(e: Engine, c: Store, rotating: Option<nat>, n: nat)
    requires LogOk(e, c, rotating) && RootsOk(e, c) && c.maybe.Some? && rotating.None?
    requires n in c.disk.segments && RootFrame(c.maybe.value) in c.disk.segments[n].frames
    ensures n == c.active
  {
    assert SegmentOk(n, c.disk.segments[n], c.root, c.retained, c.maybe);
    assert SealedAt(c.disk, c.active, c.retained.generation, rotating, c.root, n);
  }

  lemma SegmentsSurvive(e: Engine, c: Store, rotating: Option<nat>, trash: map<nat, Segment>, disk: Disk, power: bool)
    requires LogOk(e, c, rotating) && RootsOk(e, c) && TrashOk(c, trash) && (rotating.None? || c.maybe.None?)
    requires Survived(e, c, trash, disk, power)
    ensures SegmentsOk(disk.segments, c.root, c.retained, Left(c, disk))
  {
    forall n | n in disk.segments ensures SegmentOk(n, disk.segments[n], c.root, c.retained, Left(c, disk)) {
      SegmentSurvived(e, c, rotating, trash, disk, power, n);
    }
  }

  lemma SegmentSurvived(
    e: Engine, c: Store, rotating: Option<nat>, trash: map<nat, Segment>, disk: Disk, power: bool, n: nat)
    requires LogOk(e, c, rotating) && RootsOk(e, c) && TrashOk(c, trash) && (rotating.None? || c.maybe.None?)
    requires Survived(e, c, trash, disk, power) && n in disk.segments
    ensures SegmentOk(n, disk.segments[n], c.root, c.retained, Left(c, disk))
  {
    var before := if n in c.disk.segments then c.disk.segments[n] else trash[n];
    CutSegmentKeeps(e, before, disk.segments[n], power);
    if n !in c.disk.segments {
      SegmentSurvives(n, before, disk.segments[n], c.root, c.retained, None, None);
      MoreRoots(n, disk.segments[n], c.root, c.retained, Left(c, disk));
    } else {
      assert SegmentOk(n, before, c.root, c.retained, c.maybe);
      if c.maybe.Some? && RootFrame(c.maybe.value) in disk.segments[n].frames {
        MaybeOnlyInActive(e, c, rotating, n);
      }
      SegmentSurvives(n, before, disk.segments[n], c.root, c.retained, c.maybe, Left(c, disk));
    }
  }

  // ----- each place after the crash -----

  /** A segment below the active one keeps its transactions and is whole. */
  ghost predicate BelowKept(c: Store, disk: Disk, n: nat) {
    c.retained.generation <= n < c.active ==>
      Alike(FramesOf(c.disk, n), FramesOf(disk, n)) && (NonEmpty(disk.segments, n) ==> Whole(disk.segments[n]))
  }

  /** Above the active segment at most a rotation's header survives. */
  ghost predicate AboveKept(c: Store, rotating: Option<nat>, disk: Disk, power: bool, n: nat) {
    n > c.active && NonEmpty(disk.segments, n) ==>
      rotating == Some(n) && disk.segments[n] == Segment([RootFrame(c.root)], if power then 1 else 0, 0)
  }

  /** The active segment is cut after its synced part. */
  ghost predicate ActiveKept(c: Store, disk: Disk) {
    && FramesOf(disk, c.active) <= Active(c).frames
    && (c.active in disk.segments ==>
       Active(c).synced <= disk.segments[c.active].synced <= |disk.segments[c.active].frames|)
    && (c.active in disk.segments ==>
          disk.segments[c.active].synced == |disk.segments[c.active].frames|
              || disk.segments[c.active].synced == Active(c).synced)
    && (Active(c).synced > 0 ==> c.active in disk.segments)
  }

  lemma BelowSurvives(
    e: Engine, c: Store, rotating: Option<nat>, trash: map<nat, Segment>, disk: Disk, power: bool, n: nat)
    requires LogOk(e, c, rotating) && TrashOk(c, trash) && Survived(e, c, trash, disk, power)
    ensures BelowKept(c, disk, n)
  {
    if c.retained.generation <= n < c.active {
      assert SealedAt(c.disk, c.active, c.retained.generation, rotating, c.root, n);
      if n in c.disk.segments {
        assert SegmentOk(n, c.disk.segments[n], c.root, c.retained, c.maybe);
        if n in disk.segments {
          CutSegmentKeeps(e, c.disk.segments[n], disk.segments[n], power);
          if c.disk.segments[n].frames != [] {
            WholeSurvives(e, c.disk.segments[n], disk.segments[n], power);
          }
        }
      }
    }
  }

  lemma AboveSurvives(
    e: Engine, c: Store, rotating: Option<nat>, trash: map<nat, Segment>, disk: Disk, power: bool, n: nat)
    requires LogOk(e, c, rotating) && TrashOk(c, trash) && Survived(e, c, trash, disk, power)
    requires c.retained.generation <= c.active
    ensures AboveKept(c, rotating, disk, power, n)
  {
    if n > c.active && NonEmpty(disk.segments, n) {
      assert SealedAt(c.disk, c.active, c.retained.generation, rotating, c.root, n);
      CutSegmentKeeps(e, c.disk.segments[n], disk.segments[n], power);
      HeaderSurvives(e, c.root, disk.segments[n], power);
    }
  }

  lemma ActiveSurvives(e: Engine, c: Store, rotating: Option<nat>, trash: map<nat, Segment>, disk: Disk, power: bool)
    requires LogOk(e, c, rotating) && Survived(e, c, trash, disk, power)
    ensures ActiveKept(c, disk)
  {
    if c.active in disk.segments {
      CutSegmentKeeps(e, Active(c), disk.segments[c.active], power);
    }
  }

  /** A root's header is synced, so it survives. */
  lemma HeaderIsKept(e: Engine, c: Store, trash: map<nat, Segment>, disk: Disk, power: bool, root: Root)
    requires Survived(e, c, trash, disk, power) && HasRoot(c.disk, root)
    ensures HasRoot(disk, root) && NonEmpty(disk.segments, root.generation)
  {
    var n := root.generation;
    assert c.disk.segments[n].synced > 0;
    CutSegmentKeeps(e, c.disk.segments[n], disk.segments[n], power);
    assert forall f :: f in Synced(c.disk.segments[n]) ==> f in Synced(disk.segments[n]);
  }

  // ----- the log that is left -----

  /** What a crash keeps, place by place. */
  ghost predicate KeptAll(c: Store, rotating: Option<nat>, disk: Disk, power: bool) {
    && (forall n: nat :: BelowKept(c, disk, n))
    && (forall n: nat :: AboveKept(c, rotating, disk, power, n))
    && ActiveKept(c, disk)
    && HasRoot(disk, c.root) && HasRoot(disk, c.retained) && c.disk.files <= disk.files
    && NonEmpty(disk.segments, c.root.generation) && NonEmpty(disk.segments, c.retained.generation)
  }

  lemma AllKept(e: Engine, c: Store, rotating: Option<nat>, trash: map<nat, Segment>, disk: Disk, power: bool)
    requires LogOk(e, c, rotating) && RootsOk(e, c) && TrashOk(c, trash) && Survived(e, c, trash, disk, power)
    ensures KeptAll(c, rotating, disk, power)
  {
    AnchorBase(e, c);
    forall n: nat ensures BelowKept(c, disk, n) {
      BelowSurvives(e, c, rotating, trash, disk, power, n);
    }
    forall n: nat ensures AboveKept(c, rotating, disk, power, n) {
      AboveSurvives(e, c, rotating, trash, disk, power, n);
    }
    ActiveSurvives(e, c, rotating, trash, disk, power);
    HeaderIsKept(e, c, trash, disk, power, c.root);
    HeaderIsKept(e, c, trash, disk, power, c.retained);
  }

  lemma CutInOrder(before: seq<Frame>, after: seq<Frame>, from: nat, log: seq<Tx>)
    requires InOrder(before, from, log) && after <= before && from + TxCount(before) == |log|
    ensures from + TxCount(after) <= |log|
    ensures InOrder(after, from, log[..from + TxCount(after)])
  {
    assert before[..|after|] == after;
    TxCountPrefix(before, |after|);
    InOrderPrefix(before, |after|, from, log);
    InOrderAgrees(after, from, log, log[..from + TxCount(after)]);
  }

  /** Where the log ends after the crash. */
  function LeftEnd(c: Store, disk: Disk): nat {
    Base(c) + TxCount(FramesOf(disk, c.active))
  }

  lemma LogLeft(e: Engine, c: Store, disk: Disk)
    requires RootsOk(e, c) && ActiveKept(c, disk) && c.active in c.disk.segments
    ensures LeftEnd(c, disk) <= |c.log|
    ensures InOrder(FramesOf(disk, c.active), Base(c), c.log[..LeftEnd(c, disk)])
  {
    AnchorBase(e, c);
    CutInOrder(FramesOf(c.disk, c.active), FramesOf(disk, c.active), Base(c), c.log);
  }

  /** The chain of a kept root ends where the log is cut. */
  lemma CoversLeft(e: Engine, c: Store, rotating: Option<nat>, disk: Disk, power: bool, root: Root)
    requires RootsOk(e, c) && KeptAll(c, rotating, disk, power) && c.active in c.disk.segments
    requires Anchor(e, c, root) && c.retained.generation <= root.generation && root.lsn <= Base(c)
    requires LeftEnd(c, disk) <= |c.log|
    ensures Covers(disk, c.active, c.log[..LeftEnd(c, disk)], root.generation, root.lsn)
  {
    AnchorBase(e, c);
    LogLeft(e, c, disk);
    forall n | root.generation <= n < c.active ensures Alike(FramesOf(c.disk, n), FramesOf(disk, n)) {
      assert BelowKept(c, disk, n);
    }
    CoversReplaced(c.disk, disk, c.active, c.log, c.log[..LeftEnd(c, disk)], root.generation, root.lsn, Base(c));
  }

  /** The segments between the old active one and the new one hold no transaction. */
  lemma NoneBetween(e: Engine, c: Store, rotating: Option<nat>, disk: Disk, power: bool, p: nat, n: nat)
    requires LogOk(e, c, rotating) && KeptAll(c, rotating, disk, power) && Continues(disk.segments, p)
    requires c.active < n <= p || p < n <= c.active
    ensures HeaderLike(FramesOf(disk, n))
  {
    if n > p {
      assert !NonEmpty(disk.segments, n);
    } else {
      assert AboveKept(c, rotating, disk, power, n);
    }
  }

  lemma CoversAfter(e: Engine, c: Store, rotating: Option<nat>, disk: Disk, power: bool, p: nat, root: Root)
    requires LogOk(e, c, rotating) && RootsOk(e, c) && KeptAll(c, rotating, disk, power) && Continues(disk.segments, p)
    requires Anchor(e, c, root) && c.retained.generation <= root.generation <= p && root.lsn <= Base(c)
    requires LeftEnd(c, disk) <= |c.log|
    ensures Covers(disk, p, c.log[..LeftEnd(c, disk)], root.generation, root.lsn)
  {
    CoversLeft(e, c, rotating, disk, power, root);
    forall n | c.active < n <= p || p < n <= c.active ensures HeaderLike(FramesOf(disk, n)) {
      NoneBetween(e, c, rotating, disk, power, p, n);
    }
    CoversMoved(disk, c.active, p, c.log[..LeftEnd(c, disk)], root.generation, root.lsn);
  }

  /** The state after the crash, with the log cut where the segments now end. */
  ghost predicate CutTo(c: Store, t: Store) {
    && LeftEnd(c, t.disk) <= |c.log|
    && t == Store(t.disk, t.active, c.log[..LeftEnd(c, t.disk)], DurableLsn(t), c.root, c.retained, Left(c, t.disk))
  }

  lemma AnchorAfter(e: Engine, c: Store, rotating: Option<nat>, t: Store, power: bool, root: Root)
    requires LogOk(e, c, rotating) && RootsOk(e, c) && KeptAll(c, rotating, t.disk, power)
    requires Continues(t.disk.segments, t.active) && CutTo(c, t)
    requires Anchor(e, c, root) && c.retained.generation <= root.generation <= t.active && root.lsn <= Base(c)
    requires HasRoot(t.disk, root)
    ensures Anchor(e, t, root)
  {
    CoversAfter(e, c, rotating, t.disk, power, t.active, root);
    RootOkAgrees(e, c.log, t.log, root);
  }

  /** The log ends with the segment it continues in. */
  lemma EndAfter(e: Engine, c: Store, rotating: Option<nat>, disk: Disk, power: bool, p: nat)
    requires LogOk(e, c, rotating) && RootsOk(e, c) && KeptAll(c, rotating, disk, power) && Continues(disk.segments, p)
    ensures LeftEnd(c, disk) <= |c.log| && End(disk, c.root.generation, p, c.root.lsn) == LeftEnd(c, disk)
    ensures c.retained.generation <= c.root.generation <= p
  {
    AnchorBase(e, c);
    LogLeft(e, c, disk);
    assert NonEmpty(disk.segments, c.root.generation);
    CoversAfter(e, c, rotating, disk, power, p, c.root);
  }

  // ----- what is durable -----

  lemma SyncedCounts(before: Segment, after: Segment)
    requires before.synced <= after.synced <= |after.frames| && after.frames <= before.frames
    ensures TxCount(before.frames[..before.synced]) <= TxCount(after.frames[..after.synced]) <= TxCount(after.frames)
  {
    var kept := after.frames[..after.synced];
    assert kept[..before.synced] == before.frames[..before.synced];
    TxCountPrefix(kept, before.synced);
    TxCountPrefix(after.frames, after.synced);
  }

  /** No transaction that was durable is cut off. */
  lemma DurableLeft(e: Engine, c: Store, disk: Disk)
    requires RootsOk(e, c) && ActiveKept(c, disk) && c.active in c.disk.segments
             && Active(c).synced <= |Active(c).frames|
    ensures c.durable <= LeftEnd(c, disk)
  {
    if c.active in disk.segments {
      SyncedCounts(Active(c), disk.segments[c.active]);
    } else {
      assert Active(c).frames[..0] == [];
    }
  }

  lemma DurableInPlace(e: Engine, c: Store, t: Store)
    requires RootsOk(e, c) && ActiveKept(c, t.disk) && c.active in c.disk.segments
             && Active(c).synced <= |Active(c).frames|
    requires t.active == c.active && c.active in t.disk.segments && t.root == c.root && Base(t) == Base(c)
    ensures c.durable <= DurableLsn(t) <= LeftEnd(c, t.disk)
  {
    SyncedCounts(Active(c), Active(t));
  }

  /** In a whole segment every transaction is durable. */
  lemma DurableWhole(t: Store)
    requires Rotatable(Active(t)) && Active(t).synced <= |Active(t).frames|
    requires Active(t).frames != [] ==> Active(t).frames[0].RootFrame?
    ensures DurableLsn(t) == Base(t) + TxCount(Active(t).frames)
  {
    if Active(t).synced == |Active(t).frames| {
      AllDurable(t);
    } else {
      OnlyHeader(Active(t).frames);
      OnlyHeader(Active(t).frames[..Active(t).synced]);
    }
  }

  /** The log continues in the old active segment, in the rotation's, or in an earlier whole one. */
  lemma WhereItContinues(e: Engine, c: Store, rotating: Option<nat>, disk: Disk, power: bool, p: nat)
    requires LogOk(e, c, rotating) && RootsOk(e, c) && KeptAll(c, rotating, disk, power) && Continues(disk.segments, p)
    ensures p > c.active ==> rotating == Some(p) && Whole(disk.segments[p])
    ensures p < c.active ==> FramesOf(disk, c.active) == [] && Whole(disk.segments[p])
    ensures c.retained.generation <= p
  {
    AnchorBase(e, c);
    assert NonEmpty(disk.segments, c.root.generation);
    if p > c.active {
      assert AboveKept(c, rotating, disk, power, p);
    } else if p < c.active {
      assert !NonEmpty(disk.segments, c.active);
      assert BelowKept(c, disk, p);
    }
  }

  lemma DurableAfter(e: Engine, c: Store, rotating: Option<nat>, t: Store, power: bool)
    requires LogOk(e, c, rotating) && RootsOk(e, c) && KeptAll(c, rotating, t.disk, power)
    requires Continues(t.disk.segments, t.active) && CutTo(c, t)
    requires SegmentsOk(t.disk.segments, c.root, c.retained, t.maybe)
    ensures c.durable <= DurableLsn(t) <= |t.log|
  {
    ActiveOk(e, rotating, c);
    if t.active == c.active {
      EndAfter(e, c, rotating, t.disk, power, t.active);
      SameBase(e, c, rotating, t, power);
      DurableInPlace(e, c, t);
    } else {
      WhereItContinues(e, c, rotating, t.disk, power, t.active);
      EndAfter(e, c, rotating, t.disk, power, t.active);
      DurableElsewhere(c, t);
      DurableLeft(e, c, t.disk);
    }
  }

  lemma DurableElsewhere(c: Store, t: Store)
    requires NonEmpty(t.disk.segments, t.active) && Whole(t.disk.segments[t.active])
    requires SegmentsOk(t.disk.segments, c.root, c.retained, t.maybe)
    requires t.root == c.root && t.root.generation <= t.active
    ensures DurableLsn(t) == End(t.disk, c.root.generation, t.active, c.root.lsn)
  {
    assert SegmentOk(t.active, t.disk.segments[t.active], c.root, c.retained, t.maybe);
    DurableWhole(t);
  }

  lemma SameBase(e: Engine, c: Store, rotating: Option<nat>, t: Store, power: bool)
    requires RootsOk(e, c) && KeptAll(c, rotating, t.disk, power) && t.active == c.active && t.root == c.root
    ensures Base(t) == Base(c)
  {
    AnchorBase(e, c);
    forall n | c.root.generation <= n <= c.active - 1 ensures Alike(FramesOf(c.disk, n), FramesOf(t.disk, n)) {
      assert BelowKept(c, t.disk, n);
    }
    SameSegments(c.disk, t.disk, c.root.generation, c.active - 1, c.root.lsn, c.log);
  }

  // ----- the invariant after the crash -----

  lemma MaybeAfter(e: Engine, c: Store, rotating: Option<nat>, t: Store, power: bool)
    requires RootsOk(e, c) && KeptAll(c, rotating, t.disk, power) && CutTo(c, t) && t.active == c.active
    requires t.maybe.Some? && c.active in c.disk.segments && c.active in t.disk.segments && c.durable <= t.durable
    ensures MaybeOk(e, t, t.maybe.value)
  {
    var root := t.maybe.value;
    LogLeft(e, c, t.disk);
    AnchorBase(e, c);
    RootOkAgrees(e, c.log, t.log, root);
    CutInOrder(Active(c).frames, Active(t).frames, root.lsn, c.log);
    CutAtTheEnd(Active(c), Active(t), root);
  }

  lemma CutAtTheEnd(before: Segment, after: Segment, root: Root)
    requires AtTheEnd(before, root) && after.frames <= before.frames && before.synced <= after.synced <= |after.frames|
    requires after.synced == |after.frames| || after.synced == before.synced
    ensures AtTheEnd(after, root)
  {
    if after.synced == before.synced {
      assert Synced(after) == Synced(before);
    }
  }

  lemma MaybeInPlace(e: Engine, c: Store, rotating: Option<nat>, disk: Disk, power: bool, p: nat)
    requires LogOk(e, c, rotating) && RootsOk(e, c) && KeptAll(c, rotating, disk, power) && Continues(disk.segments, p)
    requires (rotating.None? || c.maybe.None?) && Left(c, disk).Some?
    ensures p == c.active && c.active in disk.segments
  {
    WhereItContinues(e, c, rotating, disk, power, p);
  }

  lemma RootsAfter(e: Engine, c: Store, rotating: Option<nat>, t: Store, power: bool)
    requires LogOk(e, c, rotating) && RootsOk(e, c) && KeptAll(c, rotating, t.disk, power)
             && (rotating.None? || c.maybe.None?)
    requires Continues(t.disk.segments, t.active) && CutTo(c, t) && c.durable <= DurableLsn(t)
    ensures RootsOk(e, t)
  {
    AnchorBase(e, c);
    EndAfter(e, c, rotating, t.disk, power, t.active);
    AnchorAfter(e, c, rotating, t, power, c.root);
    AnchorAfter(e, c, rotating, t, power, c.retained);
    if t.maybe.Some? {
      MaybeInPlace(e, c, rotating, t.disk, power, t.active);
      MaybeAfter(e, c, rotating, t, power);
    }
  }

  lemma RunsPrefix(e: Engine, log: seq<Tx>, n: nat)
    requires Runs(e, log, |log|) && n <= |log|
    ensures Runs(e, log[..n], n)
  {
    if n < |log| {
      RunsAt(e, log, |log|, n);
    } else {
      assert log[..n] == log;
    }
    ViewAtAgrees(e, log, log[..n], n);
  }

  lemma OnlyOneAbove(c: Store, rotating: Option<nat>, disk: Disk, power: bool, n: nat, p: nat)
    requires KeptAll(c, rotating, disk, power) && NonEmpty(disk.segments, p)
    ensures c.active < n < p ==> !NonEmpty(disk.segments, n)
  {
    assert AboveKept(c, rotating, disk, power, n) && AboveKept(c, rotating, disk, power, p);
  }

  lemma SealedAfter(e: Engine, c: Store, rotating: Option<nat>, t: Store, power: bool, n: nat)
    requires LogOk(e, c, rotating) && RootsOk(e, c) && KeptAll(c, rotating, t.disk, power)
             && Continues(t.disk.segments, t.active)
    requires t.root == c.root && t.retained == c.retained
    requires rotating.Some? ==> Whole(Active(c))
    requires t.active > c.active && NonEmpty(t.disk.segments, c.active) ==> Whole(t.disk.segments[c.active])
    ensures SealedAt(t.disk, t.active, t.retained.generation, None, t.root, n)
  {
    OnlyOneAbove(c, rotating, t.disk, power, n, t.active);
    if n in t.disk.segments && n != t.active && t.disk.segments[n].frames != [] {
      assert n < t.active by {
        assert NonEmpty(t.disk.segments, n);
      }
      if n < c.active {
        assert BelowKept(c, t.disk, n);
      }
    }
  }

  lemma LogAfter(e: Engine, c: Store, rotating: Option<nat>, trash: map<nat, Segment>, t: Store, power: bool)
    requires LogOk(e, c, rotating) && RootsOk(e, c) && TrashOk(c, trash) && Survived(e, c, trash, t.disk, power)
    requires rotating.None? || c.maybe.None?
    requires rotating.Some? ==> Whole(Active(c))
    requires KeptAll(c, rotating, t.disk, power) && Continues(t.disk.segments, t.active) && CutTo(c, t)
    ensures LogOk(e, t, None)
  {
    SegmentsSurvive(e, c, rotating, trash, t.disk, power);
    RunsPrefix(e, c.log, |t.log|);
    LeftBehind(e, c, rotating, trash, t, power);
    forall n: nat ensures SealedAt(t.disk, t.active, t.retained.generation, None, t.root, n) {
      SealedAfter(e, c, rotating, t, power, n);
    }
  }

  /** A rotation leaves a whole segment behind. */
  lemma LeftBehind(e: Engine, c: Store, rotating: Option<nat>, trash: map<nat, Segment>, t: Store, power: bool)
    requires LogOk(e, c, rotating) && RootsOk(e, c) && Survived(e, c, trash, t.disk, power)
    requires rotating.Some? ==> Whole(Active(c))
    requires KeptAll(c, rotating, t.disk, power) && Continues(t.disk.segments, t.active)
    ensures t.active > c.active && NonEmpty(t.disk.segments, c.active) ==> Whole(t.disk.segments[c.active])
  {
    if t.active > c.active && NonEmpty(t.disk.segments, c.active) {
      assert AboveKept(c, rotating, t.disk, power, t.active);
      ActiveOk(e, rotating, c);
      WholeSurvives(e, Active(c), t.disk.segments[c.active], power);
    }
  }

  /** What the open database guarantees about the store when it dies. */
  ghost predicate Interrupted(c: Store, rotating: Option<nat>) {
    (rotating.None? || c.maybe.None?) && (rotating.Some? ==> Whole(Active(c)))
  }

  lemma StoreAfter(e: Engine, c: Store, rotating: Option<nat>, trash: map<nat, Segment>, t: Store, power: bool)
    requires StoreOk(e, c, rotating) && TrashOk(c, trash) && Survived(e, c, trash, t.disk, power)
             && Interrupted(c, rotating)
    requires Continues(t.disk.segments, t.active) && CutTo(c, t)
    ensures StoreOk(e, t, None) && c.durable <= t.durable <= |t.log|
  {
    assert LogOk(e, c, rotating) && RootsOk(e, c);
    AllKept(e, c, rotating, trash, t.disk, power);
    LogAfter(e, c, rotating, trash, t, power);
    DurableAfter(e, c, rotating, t, power);
    RootsAfter(e, c, rotating, t, power);
  }

  lemma CrashCuts(e: Engine, s: System, power: bool, t: System)
    requires StoreOk(e, s.store, RotatingTo(s.live)) && TrashOk(s.store, s.trash) && Crashed(e, s, t, power)
    ensures CutTo(s.store, t.store) && Survived(e, s.store, s.trash, t.store.disk, power)
  {
    var c, rotating := s.store, RotatingTo(s.live);
    assert LogOk(e, c, rotating) && RootsOk(e, c);
    AllKept(e, c, rotating, s.trash, t.store.disk, power);
    EndAfter(e, c, rotating, t.store.disk, power, t.store.active);
  }

  lemma InterruptedLive(e: Engine, s: System)
    requires Inv(e, s)
    ensures Interrupted(s.store, RotatingTo(s.live))
  {
    if s.live.Some? {
      assert LiveOk(e, s.store, s.live.value);
    }
  }

  /** Cutting the unsynced bytes of every segment anywhere keeps the invariant. */
  lemma CrashKeeps(e: Engine, s: System, power: bool, t: System)
    requires Inv(e, s) && Next(e, s, Crash(power), t)
    ensures Inv(e, t) && s.store.durable <= t.store.durable && t.store.log <= s.store.log
  {
    InterruptedLive(e, s);
    CrashCuts(e, s, power, t);
    StoreAfter(e, s.store, RotatingTo(s.live), s.trash, t.store, power);
  }

  // ----- every cut is a crash -----

  /** The last segment, up to a bound, that holds a frame. */
  lemma {:induction false} LastNonEmpty(segments: map<nat, Segment>, some: nat, bound: nat) returns (last: nat)
    requires NonEmpty(segments, some) && some <= bound && forall n :: n > bound ==> !NonEmpty(segments, n)
    ensures Continues(segments, last)
    decreases bound - some
  {
    last := some;
    if n: nat :| n > some && NonEmpty(segments, n) {
      last := LastNonEmpty(segments, n, bound);
    }
  }

  /** The state after a crash that leaves this disk. */
  ghost function AfterCrash(s: System, disk: Disk, active: nat): System {
    var c := s.store;
    var end := End(disk, c.root.generation, active, c.root.lsn);
    System(Store(disk, active, if end <= |c.log| then c.log[..end] else c.log, DurableEnd(disk, active, c.root),
                 c.root, c.retained, Left(c, disk)),
           map[], None, s.acked, s.seen)
  }

  lemma CrashesTo(e: Engine, s: System, disk: Disk, active: nat, power: bool)
    requires Survived(e, s.store, s.trash, disk, power) && Continues(disk.segments, active)
    requires End(disk, s.store.root.generation, active, s.store.root.lsn) <= |s.store.log|
    ensures Next(e, s, Crash(power), AfterCrash(s, disk, active))
  {
    var t := AfterCrash(s, disk, active);
    assert Crashed(e, s, t, power);
  }

  /** Above the active segment and a rotation's header nothing is left. */
  lemma LastIsBounded(c: Store, rotating: Option<nat>, disk: Disk, power: bool) returns (last: nat)
    requires KeptAll(c, rotating, disk, power) && c.root.generation <= c.active
    ensures Continues(disk.segments, last)
  {
    var bound := if rotating.Some? && rotating.value > c.active then rotating.value else c.active;
    forall n: nat | n > bound ensures !NonEmpty(disk.segments, n) {
      assert AboveKept(c, rotating, disk, power, n);
    }
    last := LastNonEmpty(disk.segments, c.root.generation, bound);
  }

  /**
   The crash step leaves no disk out: however a kill or a power loss cuts the segments, whichever unsynced
   deletions come back and whichever unfinished files are left, some crash step ends there.
   */
  lemma EveryCutIsACrash(e: Engine, s: System, disk: Disk, power: bool)
    requires Inv(e, s) && Survived(e, s.store, s.trash, disk, power)
    ensures exists t :: Next(e, s, Crash(power), t) && t.store.disk == disk
  {
    var c, rotating := s.store, RotatingTo(s.live);
    assert LogOk(e, c, rotating) && RootsOk(e, c);
    AllKept(e, c, rotating, s.trash, disk, power);
    AnchorBase(e, c);
    var last := LastIsBounded(c, rotating, disk, power);
    EndAfter(e, c, rotating, disk, power, last);
    CrashesTo(e, s, disk, last, power);
    assert AfterCrash(s, disk, last).store.disk == disk;
  }
}
