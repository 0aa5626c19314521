/**
 Every step of an open database keeps the invariant of Recovery.
 */
module RecoveryProofs {
  import opened Results
  import opened Model
  import opened Histories
  import opened Transactions
  import opened Wal
  import opened Files
  import opened Recovery

  /** The sequence the active segment starts from. */
  function Base(s: Store): nat {
    End(s.disk, s.root.generation, s.active - 1, s.root.lsn)
  }

  // ----- chains -----

  lemma CoversBase(disk: Disk, active: nat, log: seq<Tx>, generation: nat, lsn: nat)
    requires Covers(disk, active, log, generation, lsn)
    ensures End(disk, generation, active - 1, lsn) + TxCount(FramesOf(disk, active)) == |log|
    ensures InOrder(FramesOf(disk, active), End(disk, generation, active - 1, lsn), log)
    ensures lsn <= End(disk, generation, active - 1, lsn)
  {
    EndMonotone(disk, generation, active - 1, lsn);
  }

  /** Replacing the active segment's frames, with a log that agrees below them. */
  lemma CoversReplaced(
    disk: Disk, other: Disk, active: nat, log: seq<Tx>, later: seq<Tx>, generation: nat, lsn: nat, base: nat)
    requires Covers(disk, active, log, generation, lsn)
    requires forall n :: generation <= n < active ==> Alike(FramesOf(disk, n), FramesOf(other, n))
    requires base + TxCount(FramesOf(disk, active)) == |log|
    requires base <= |later| && later[..base] == log[..base]
    requires InOrder(FramesOf(other, active), base, later)
    requires base + TxCount(FramesOf(other, active)) == |later|
    ensures Covers(other, active, later, generation, lsn)
    ensures End(other, generation, active - 1, lsn) == base
  {
    CoversBase(disk, active, log, generation, lsn);
    SameSegments(disk, other, generation, active - 1, lsn, log);
    ChainAgrees(other, generation, active - 1, lsn, log, later);
  }

  lemma RootOkAgrees(e: Engine, log: seq<Tx>, later: seq<Tx>, root: Root)
    requires RootOk(e, log, root) && root.lsn <= |later| && later[..root.lsn] == log[..root.lsn]
    ensures RootOk(e, later, root)
  {
    ViewAtAgrees(e, log, later, root.lsn);
  }

  lemma AnchorBase(e: Engine, s: Store)
    requires RootsOk(e, s)
    ensures Base(s) + TxCount(FramesOf(s.disk, s.active)) == |s.log|
    ensures InOrder(FramesOf(s.disk, s.active), Base(s), s.log)
    ensures s.retained.lsn <= s.root.lsn <= Base(s)
    ensures s.retained.generation <= s.root.generation <= s.active
    ensures Base(s) <= s.durable
  {
    CoversBase(s.disk, s.active, s.log, s.root.generation, s.root.lsn);
  }

  /** Only the active segment changed, keeping its synced part. */
  ghost predicate OnlyActive(s: Store, t: Store) {
    && t.active == s.active && t.root == s.root && t.retained == s.retained
    && t.disk.segments == s.disk.segments[s.active := Active(t)]
    && s.root.files <= t.disk.files && s.retained.files <= t.disk.files
    && Synced(Active(s)) <= Synced(Active(t))
  }

  /** The new tail continues from the same base. */
  ghost predicate Tail(s: Store, t: Store) {
    && Base(s) <= |s.log| && Base(s) <= |t.log| && t.log[..Base(s)] == s.log[..Base(s)]
    && InOrder(Active(t).frames, Base(s), t.log)
    && Base(s) + TxCount(Active(t).frames) == |t.log|
  }

  lemma AnchorReplaced(e: Engine, s: Store, t: Store, root: Root)
    requires RootsOk(e, s) && s.active in s.disk.segments
    requires OnlyActive(s, t) && Anchor(e, s, root) && root.lsn <= Base(s) && root.files <= t.disk.files
    requires Tail(s, t)
    ensures Anchor(e, t, root)
  {
    AnchorBase(e, s);
    CoversReplaced(s.disk, t.disk, s.active, s.log, t.log, root.generation, root.lsn, Base(s));
    assert t.log[..root.lsn] == t.log[..Base(s)][..root.lsn] && s.log[..root.lsn] == s.log[..Base(s)][..root.lsn];
    RootOkAgrees(e, s.log, t.log, root);
  }

  lemma RootsReplaced(e: Engine, s: Store, t: Store)
    requires RootsOk(e, s) && s.active in s.disk.segments
    requires OnlyActive(s, t) && Tail(s, t)
    ensures Anchor(e, t, t.root) && Anchor(e, t, t.retained) && Base(t) == Base(s)
  {
    AnchorBase(e, s);
    AnchorReplaced(e, s, t, s.root);
    AnchorReplaced(e, s, t, s.retained);
    SameSegments(s.disk, t.disk, s.root.generation, s.active - 1, s.root.lsn, s.log);
  }

  lemma SegmentsReplaced(s: Store, t: Store)
    requires SegmentsOk(s.disk.segments, s.root, s.retained, s.maybe)
    requires t.disk.segments == s.disk.segments[s.active := Active(t)]
    requires t.active == s.active && t.root == s.root && t.retained == s.retained
    requires s.maybe.None? || t.maybe == s.maybe
    requires SegmentOk(t.active, Active(t), t.root, t.retained, t.maybe)
    ensures SegmentsOk(t.disk.segments, t.root, t.retained, t.maybe)
  {
    forall n | n in t.disk.segments ensures SegmentOk(n, t.disk.segments[n], t.root, t.retained, t.maybe) {
      if n != t.active {
        assert SegmentOk(n, s.disk.segments[n], s.root, s.retained, s.maybe);
        if s.maybe.None? {
          MoreRoots(n, s.disk.segments[n], t.root, t.retained, t.maybe);
        }
      }
    }
  }

  /** The disk part of the invariant when only the active segment changes. */
  lemma DiskReplaced(e: Engine, rotating: Option<nat>, s: Store, t: Store)
    requires LogOk(e, s, rotating)
    requires t.disk.segments == s.disk.segments[s.active := Active(t)]
    requires t.active == s.active && t.root == s.root && t.retained == s.retained
    requires s.maybe.None? || t.maybe == s.maybe
    requires Runs(e, t.log, |t.log|) && Active(t).frames != []
    requires SegmentOk(t.active, Active(t), t.root, t.retained, t.maybe)
    ensures LogOk(e, t, rotating)
  {
    SegmentsReplaced(s, t);
    forall n: nat ensures SealedAt(t.disk, t.active, t.retained.generation, rotating, t.root, n) {
      assert SealedAt(s.disk, s.active, s.retained.generation, rotating, s.root, n);
    }
  }

  lemma MoreRoots(n: nat, segment: Segment, root: Root, retained: Root, maybe: Option<Root>)
    requires SegmentOk(n, segment, root, retained, None)
    ensures SegmentOk(n, segment, root, retained, maybe)
  {
  }

  lemma AppendedOk(n: nat, segment: Segment, frame: Frame, root: Root, retained: Root, maybe: Option<Root>)
    requires SegmentOk(n, segment, root, retained, maybe) && segment.frames != []
    requires frame.RootFrame? ==> Some(frame.root) == maybe && frame.root.generation <= n
    ensures SegmentOk(n, AppendFrame(segment, frame), root, retained, maybe)
    ensures Synced(AppendFrame(segment, frame)) == Synced(segment)
  {
    var grown := AppendFrame(segment, frame);
    forall f | f in grown.frames && f.RootFrame?
      ensures f in segment.frames || f == frame
    {
    }
    assert Synced(grown) == Synced(segment);
  }

  // ----- writing and syncing commits -----

  lemma RunsGrow(e: Engine, log: seq<Tx>, tx: Tx)
    requires Runs(e, log, |log|) && e.run(ViewAt(e, log, |log|), tx, |log| + 1).Ok?
    ensures Runs(e, log + [tx], |log| + 1)
  {
    assert (log + [tx])[..|log|] == log[..|log|];
    ViewAtAgrees(e, log, log + [tx], |log|);
  }

  lemma SameBelow(e: Engine, log: seq<Tx>, later: seq<Tx>, first: nat, last: nat)
    requires first <= last <= |log| && last <= |later| && log[..last] == later[..last]
    ensures ViewAt(e, later, last) == ViewAt(e, log, last)
    ensures LogBytes(e, later, first, last) == LogBytes(e, log, first, last)
  {
    ViewAtAgrees(e, log, later, last);
    LogBytesAgree(e, log, later, first, last);
  }

  lemma FramesGrow(frames: seq<Frame>, tx: Tx, from: nat, log: seq<Tx>)
    requires InOrder(frames, from, log) && from + TxCount(frames) == |log|
    ensures InOrder(frames + [TxFrame(|log| + 1, tx)], from, log + [tx])
    ensures TxCount(frames + [TxFrame(|log| + 1, tx)]) == TxCount(frames) + 1
  {
    assert (log + [tx])[..|log|] == log[..|log|];
    InOrderAgrees(frames, from, log, log + [tx]);
    InOrderAppend(frames, TxFrame(|log| + 1, tx), from, log + [tx]);
    TxCountAppend(frames, TxFrame(|log| + 1, tx));
  }

  /** The next frame of the log, on the active segment. */
  ghost predicate Wrote(e: Engine, s: Store, tx: Tx, t: Store) {
    && t == SetActive(s, AppendFrame(Active(s), TxFrame(|s.log| + 1, tx))).(log := s.log + [tx])
    && e.run(ViewAt(e, s.log, |s.log|), tx, |s.log| + 1).Ok?
  }

  lemma WroteActive(e: Engine, s: Store, tx: Tx, t: Store)
    requires Wrote(e, s, tx, t)
    ensures Active(t) == AppendFrame(Active(s), TxFrame(|s.log| + 1, tx))
    ensures t.disk.segments == s.disk.segments[s.active := Active(t)]
  {
  }

  lemma WriteDisk(e: Engine, rotating: Option<nat>, s: Store, tx: Tx, t: Store)
    requires LogOk(e, s, rotating) && Wrote(e, s, tx, t)
    ensures LogOk(e, t, rotating) && Synced(Active(t)) == Synced(Active(s))
  {
    WroteActive(e, s, tx, t);
    RunsGrow(e, s.log, tx);
    AppendedOk(s.active, Active(s), TxFrame(|s.log| + 1, tx), s.root, s.retained, s.maybe);
    DiskReplaced(e, rotating, s, t);
  }

  /** The durable sequence depends on the base and the synced frames only. */
  lemma SameDurable(s: Store, t: Store)
    requires Base(t) == Base(s) && Synced(Active(t)) == Synced(Active(s))
    requires Active(s).synced <= |Active(s).frames| && Active(t).synced <= |Active(t).frames|
    ensures DurableLsn(t) == DurableLsn(s)
  {
  }

  lemma OwnTail(e: Engine, s: Store)
    requires RootsOk(e, s) && s.active in s.disk.segments
    ensures Tail(s, s)
  {
    AnchorBase(e, s);
  }

  lemma WriteTail(e: Engine, s: Store, tx: Tx, t: Store)
    requires Tail(s, s) && s.active in s.disk.segments && Wrote(e, s, tx, t)
    ensures Tail(s, t)
  {
    WroteActive(e, s, tx, t);
    FramesGrow(Active(s).frames, tx, Base(s), s.log);
    assert t.log[..Base(s)] == s.log[..Base(s)];
  }

  lemma WriteMaybe(e: Engine, s: Store, tx: Tx, t: Store, root: Root)
    requires MaybeOk(e, s, root) && s.active in s.disk.segments && Wrote(e, s, tx, t)
    requires RootFrame(root) !in Synced(Active(s)) && Synced(Active(t)) == Synced(Active(s))
    ensures MaybeOk(e, t, root)
  {
    WroteActive(e, s, tx, t);
    assert t.log[..root.lsn] == s.log[..root.lsn];
    RootOkAgrees(e, s.log, t.log, root);
    FramesGrow(Active(s).frames, tx, root.lsn, s.log);
  }

  lemma WriteRoots(e: Engine, s: Store, tx: Tx, t: Store)
    requires RootsOk(e, s) && s.active in s.disk.segments && Active(s).synced <= |Active(s).frames|
    requires Wrote(e, s, tx, t) && Synced(Active(t)) == Synced(Active(s))
    requires s.maybe.Some? ==> RootFrame(s.maybe.value) !in Synced(Active(s))
    ensures RootsOk(e, t)
  {
    WroteActive(e, s, tx, t);
    OwnTail(e, s);
    WriteTail(e, s, tx, t);
    RootsReplaced(e, s, t);
    SameDurable(s, t);
    if s.maybe.Some? {
      WriteMaybe(e, s, tx, t, s.maybe.value);
    }
  }

  lemma WriteStore(e: Engine, rotating: Option<nat>, s: Store, tx: Tx, t: Store)
    requires StoreOk(e, s, rotating) && Wrote(e, s, tx, t)
    requires s.maybe.Some? ==> RootFrame(s.maybe.value) !in Synced(Active(s))
    ensures StoreOk(e, t, rotating) && Synced(Active(t)) == Synced(Active(s))
  {
    assert LogOk(e, s, rotating) && RootsOk(e, s);
    ActiveOk(e, rotating, s);
    WriteDisk(e, rotating, s, tx, t);
    WriteRoots(e, s, tx, t);
  }

  lemma ActiveOk(e: Engine, rotating: Option<nat>, s: Store)
    requires LogOk(e, s, rotating)
    ensures s.active in s.disk.segments && Active(s).synced <= |Active(s).frames| && Active(s).frames != []
    ensures Active(s).frames[0].RootFrame?
  {
    assert SegmentOk(s.active, s.disk.segments[s.active], s.root, s.retained, s.maybe);
  }

  lemma WriteFrozen(e: Engine, s: Store, tx: Tx, t: Store, live: Live, lsn: nat, frozen: View, frontier: nat)
    requires s.active in s.disk.segments && Wrote(e, s, tx, t)
    requires FrozenOk(e, s, live, lsn, frozen, frontier)
    ensures FrozenOk(e, t, live, lsn, frozen, frontier)
  {
    WroteActive(e, s, tx, t);
    assert t.log[..lsn] == s.log[..lsn];
    SameBelow(e, s.log, t.log, s.root.lsn, lsn);
    FramesGrow(Active(s).frames, tx, lsn, s.log);
  }

  lemma WriteJob(e: Engine, s: Store, tx: Tx, t: Store, live: Live)
    requires JobOk(e, s, live) && s.active in s.disk.segments && Wrote(e, s, tx, t)
    requires !live.job.Rotating? && !live.job.Publishing? && Synced(Active(t)) == Synced(Active(s))
    ensures JobOk(e, t, live)
  {
    if live.job.Building? {
      WriteFrozen(e, s, tx, t, live, live.job.lsn, live.job.frozen, live.job.frontier);
    } else if live.job.Built? {
      WriteFrozen(e, s, tx, t, live, live.job.root.lsn, live.job.root.view, live.job.frontier);
    }
  }

  lemma WriteLive(e: Engine, s: Store, tx: Tx, t: Store, live: Live)
    requires LiveOk(e, s, live) && s.active in s.disk.segments
    requires !live.job.Rotating? && !live.job.Publishing?
    requires Wrote(e, s, tx, t) && Synced(Active(t)) == Synced(Active(s))
    ensures LiveOk(e, t, live)
  {
    WroteActive(e, s, tx, t);
    assert t.log[..live.lsn] == s.log[..live.lsn];
    SameBelow(e, s.log, t.log, live.root.lsn, live.lsn);
    WriteJob(e, s, tx, t, live);
  }

  lemma WriteKeeps(e: Engine, s: System, tx: Tx, t: System)
    requires Inv(e, s) && Next(e, s, Write(tx), t)
    ensures Inv(e, t)
  {
    assert LiveOk(e, s.store, s.live.value) && LogOk(e, s.store, RotatingTo(s.live));
    ActiveOk(e, RotatingTo(s.live), s.store);
    WriteStore(e, RotatingTo(s.live), s.store, tx, t.store);
    WriteLive(e, s.store, tx, t.store, s.live.value);
  }

  lemma PublishedTo(e: Engine, log: seq<Tx>, live: Live, n: nat)
    requires Runs(e, log, |log|) && live.root.lsn <= live.lsn <= n <= |log|
    requires Visible(live) == ViewAt(e, log, live.lsn)
    requires live.walBytes == LogBytes(e, log, live.root.lsn, live.lsn)
    ensures var p := PublishTo(e, live, log, n);
            && p.lsn == n && Visible(p) == ViewAt(e, log, n) && p.walBytes == LogBytes(e, log, live.root.lsn, n)
            && p.root == live.root && p.job == live.job && p.cleaning == live.cleaning && p.poisoned == live.poisoned
            && (!live.job.Idle? ==> forall frozen: map<Key, History> ::
                  frozen + live.tail == Visible(live).entities ==> frozen + p.tail == Visible(p).entities)
  {
    if live.lsn < n {
      PublishedTo(e, log, live, n - 1);
      ViewAtNext(e, log, n - 1);
      var before := PublishTo(e, live, log, n - 1);
      var stage := e.run(Visible(before), log[n - 1], n).value;
      UnionIsAssociative(live.root.view.entities, before.overlay, stage.staged);
      forall frozen: map<Key, History> | frozen + live.tail == Visible(live).entities && !live.job.Idle?
        ensures frozen + PublishTo(e, live, log, n).tail == Visible(PublishTo(e, live, log, n)).entities
      {
        UnionIsAssociative(frozen, before.tail, stage.staged);
      }
    }
  }

  /** All that was written is synced, and nothing else changes. */
  lemma SyncedStore(e: Engine, rotating: Option<nat>, s: Store, t: Store)
    requires LogOk(e, s, rotating) && RootsOk(e, s) && s.maybe.None?
    requires t == Hardened(s)
    ensures LogOk(e, t, rotating) && RootsOk(e, t)
  {
    ActiveOk(e, rotating, s);
    AnchorBase(e, s);
    DiskReplaced(e, rotating, s, t);
    SyncedAll(Active(s));
    RootsReplaced(e, s, t);
    AllDurable(t);
  }

  lemma SyncedAll(segment: Segment)
    ensures Synced(SyncAll(segment)) == segment.frames && Synced(segment) <= segment.frames
  {
  }

  lemma AllDurable(t: Store)
    requires Active(t).synced == |Active(t).frames|
    ensures DurableLsn(t) == Base(t) + TxCount(Active(t).frames)
  {
    assert Active(t).frames[..|Active(t).frames|] == Active(t).frames;
  }

  /** An unsynced checkpoint becomes the newest durable one. */
  lemma PromotedDisk(e: Engine, s: Store, t: Store)
    requires LogOk(e, s, None) && RootsOk(e, s) && s.maybe.Some? && t == Hardened(s)
    ensures LogOk(e, t, None)
  {
    forall n | n in t.disk.segments ensures SegmentOk(n, t.disk.segments[n], t.root, t.retained, None) {
      assert SegmentOk(n, s.disk.segments[n], s.root, s.retained, s.maybe);
      assert t.disk.segments[n].frames == s.disk.segments[n].frames;
    }
    forall n: nat ensures SealedAt(t.disk, t.active, t.retained.generation, None, t.root, n) {
      assert SealedAt(s.disk, s.active, s.retained.generation, None, s.root, n);
    }
  }

  lemma PromotedRoots(e: Engine, s: Store, t: Store)
    requires LogOk(e, s, None) && RootsOk(e, s) && s.maybe.Some? && t == Hardened(s)
    ensures RootsOk(e, t)
  {
    ActiveOk(e, None, s);
    SyncedAll(Active(s));
    AnchorSame(e, s, t, s.root);
    NewAnchor(e, s, t);
    AllDurable(t);
    CoversBase(t.disk, t.active, t.log, t.root.generation, t.root.lsn);
  }

  lemma NewAnchor(e: Engine, s: Store, t: Store)
    requires s.maybe.Some? && MaybeOk(e, s, s.maybe.value) && t == Hardened(s) && s.active in s.disk.segments
    ensures Anchor(e, t, t.root)
  {
    SyncedAll(Active(s));
    assert End(t.disk, t.active, t.active - 1, t.root.lsn) == t.root.lsn;
    assert Chain(t.disk, t.active, t.active - 1, t.root.lsn, t.log);
  }

  lemma PromotedTrash(e: Engine, s: Store, t: Store, trash: map<nat, Segment>)
    requires TrashOk(s, trash) && RootsOk(e, s) && t == Hardened(s)
    ensures TrashOk(t, trash)
  {
    forall n | n in trash ensures SegmentOk(n, trash[n], t.root, t.retained, None) {
      assert SegmentOk(n, trash[n], s.root, s.retained, None);
    }
  }

  /** Syncing the active segment makes all of the log durable. */
  lemma HardenedStore(e: Engine, rotating: Option<nat>, s: Store, t: Store)
    requires StoreOk(e, s, rotating) && t == Hardened(s) && (s.maybe.None? || rotating.None?)
    ensures StoreOk(e, t, rotating)
  {
    assert LogOk(e, s, rotating) && RootsOk(e, s);
    if s.maybe.Some? {
      PromotedDisk(e, s, t);
      PromotedRoots(e, s, t);
    } else {
      SyncedStore(e, rotating, s, t);
    }
  }

  lemma HardenedActive(s: Store, t: Store)
    requires s.active in s.disk.segments && t == Hardened(s)
    ensures Active(t) == SyncAll(Active(s)) && t.active == s.active && t.log == s.log && t.durable == |s.log|
    ensures t.maybe.None? && t.root == Newest(s)
  {
  }

  /** What was written is published, on top of what the database showed. */
  lemma SyncCommitsLive(e: Engine, c: Store, t: Store, live: Live)
    requires LiveOk(e, c, live) && Runs(e, c.log, |c.log|) && c.active in c.disk.segments && t == Hardened(c)
    requires Active(c).frames != []
    requires !live.job.Rotating? && !live.job.Publishing? && (!live.job.Idle? ==> c.maybe.None?)
    ensures LiveOk(e, t, PublishTo(e, live, c.log, |c.log|))
  {
    PublishedTo(e, c.log, live, |c.log|);
    HardenedActive(c, t);
    if !live.job.Idle? {
      assert FrozenOk(e, t, PublishTo(e, live, c.log, |c.log|),
                      if live.job.Building? then live.job.lsn else live.job.root.lsn,
                      if live.job.Building? then live.job.frozen else live.job.root.view, live.job.frontier);
    }
  }

  lemma SyncCommitsKeeps(e: Engine, s: System, t: System)
    requires Inv(e, s) && Next(e, s, SyncCommits, t)
    ensures Inv(e, t)
  {
    var c, live := s.store, s.live.value;
    assert LiveOk(e, c, live) && LogOk(e, c, RotatingTo(s.live)) && RootsOk(e, c);
    PublishedTo(e, c.log, live, |c.log|);
    ActiveOk(e, RotatingTo(s.live), c);
    HardenedStore(e, None, c, t.store);
    PromotedTrash(e, c, t.store, s.trash);
    SyncCommitsLive(e, c, t.store, live);
  }

  lemma FailStore(e: Engine, rotating: Option<nat>, s: Store, torn: nat, t: Store)
    requires StoreOk(e, s, rotating) && t == SetActive(s, Active(s).(torn := torn))
    ensures StoreOk(e, t, rotating)
  {
    assert LogOk(e, s, rotating) && RootsOk(e, s);
    ActiveOk(e, rotating, s);
    AnchorBase(e, s);
    DiskReplaced(e, rotating, s, t);
    RootsReplaced(e, s, t);
    SameDurable(s, t);
  }

  lemma FailKeeps(e: Engine, s: System, torn: nat, t: System)
    requires Inv(e, s) && Next(e, s, Fail(torn), t)
    ensures Inv(e, t)
  {
    assert LiveOk(e, s.store, s.live.value) && LogOk(e, s.store, RotatingTo(s.live));
    ActiveOk(e, RotatingTo(s.live), s.store);
    FailStore(e, RotatingTo(s.live), s.store, torn, t.store);
    FailLive(e, s.store, torn, t.store, s.live.value);
  }

  lemma FailLive(e: Engine, s: Store, torn: nat, t: Store, live: Live)
    requires LiveOk(e, s, live) && s.active in s.disk.segments && (live.job.Rotating? ==> torn == 0)
    requires t == SetActive(s, Active(s).(torn := torn))
    ensures LiveOk(e, t, live.(poisoned := true))
  {
    assert Active(t).frames == Active(s).frames && Active(t).synced == Active(s).synced;
  }

  lemma ObserveKeeps(e: Engine, s: System, t: System)
    requires Inv(e, s) && Next(e, s, Observe, t)
    ensures Inv(e, t)
  {
  }

  // ----- rotation -----

  lemma AnchorSame(e: Engine, s: Store, t: Store, root: Root)
    requires Anchor(e, s, root)
    requires t.log == s.log && t.active == s.active
    requires forall n :: root.generation <= n <= s.active ==> FramesOf(t.disk, n) == FramesOf(s.disk, n)
    requires HasRoot(t.disk, root) && root.files <= t.disk.files
    ensures Anchor(e, t, root)
    ensures End(t.disk, root.generation, s.active - 1, root.lsn) == End(s.disk, root.generation, s.active - 1, root.lsn)
  {
    SameSegments(s.disk, t.disk, root.generation, s.active, root.lsn, s.log);
    SameSegments(s.disk, t.disk, root.generation, s.active - 1, root.lsn, s.log);
  }

  /** An unsynced header in a segment after all others. */
  ghost predicate Begun(s: Store, generation: nat, t: Store) {
    && (forall n :: n in s.disk.segments ==> n < generation)
    && t == s.(disk := SetSegment(s.disk, generation, Segment([RootFrame(s.root)], 0, 0)))
  }

  lemma BegunDisk(e: Engine, s: Store, generation: nat, t: Store)
    requires LogOk(e, s, None) && RootsOk(e, s) && Begun(s, generation, t)
    ensures LogOk(e, t, Some(generation))
  {
    AnchorBase(e, s);
    forall n | n in t.disk.segments ensures SegmentOk(n, t.disk.segments[n], t.root, t.retained, t.maybe) {
      if n != generation {
        assert SegmentOk(n, s.disk.segments[n], s.root, s.retained, s.maybe);
      }
    }
    forall n: nat ensures SealedAt(t.disk, t.active, t.retained.generation, Some(generation), t.root, n) {
      assert SealedAt(s.disk, s.active, s.retained.generation, None, s.root, n);
    }
  }

  lemma BegunRoots(e: Engine, s: Store, generation: nat, t: Store)
    requires LogOk(e, s, None) && RootsOk(e, s) && s.maybe.None? && Begun(s, generation, t)
    ensures RootsOk(e, t)
  {
    AnchorBase(e, s);
    BegunRoot(e, s, generation, t, s.root);
    BegunRoot(e, s, generation, t, s.retained);
    assert Active(t) == Active(s);
  }

  lemma BegunRoot(e: Engine, s: Store, generation: nat, t: Store, root: Root)
    requires Anchor(e, s, root) && Begun(s, generation, t) && s.active in s.disk.segments
    ensures Anchor(e, t, root)
    ensures End(t.disk, root.generation, s.active - 1, root.lsn) == End(s.disk, root.generation, s.active - 1, root.lsn)
  {
    AnchorSame(e, s, t, root);
  }

  lemma BeginRotationStore(e: Engine, s: Store, generation: nat, t: Store)
    requires StoreOk(e, s, None) && s.maybe.None? && Begun(s, generation, t)
    ensures StoreOk(e, t, Some(generation))
  {
    assert LogOk(e, s, None) && RootsOk(e, s);
    BegunDisk(e, s, generation, t);
    BegunRoots(e, s, generation, t);
  }

  /** An unsynced checkpoint frame comes after the header, so its segment is not left behind. */
  lemma RotatableMaybe(e: Engine, c: Store, live: Live)
    requires LiveOk(e, c, live) && live.job.Idle? && Rotatable(Active(c))
             && (c.maybe.Some? ==> MaybeOk(e, c, c.maybe.value))
    requires Active(c).synced <= |Active(c).frames|
    ensures c.maybe.None?
  {
    assert Active(c).frames[..|Active(c).frames|] == Active(c).frames;
  }

  /** Whatever is synced of a rotatable segment, no transaction is missing. */
  lemma RotatableDurable(e: Engine, c: Store)
    requires LogOk(e, c, None) && RootsOk(e, c) && Rotatable(Active(c))
    ensures c.durable == |c.log|
  {
    ActiveOk(e, None, c);
    AnchorBase(e, c);
    var segment := Active(c);
    if segment.synced == |segment.frames| {
      AllDurable(c);
    } else {
      OnlyHeader(segment.frames);
      TxCountPrefix(segment.frames, segment.synced);
    }
  }

  lemma BeginRotationKeeps(e: Engine, s: System, generation: nat, t: System)
    requires Inv(e, s) && Next(e, s, BeginRotation(generation), t) && Rotatable(Active(s.store))
    ensures Inv(e, t)
  {
    var c := s.store;
    assert LiveOk(e, c, s.live.value) && LogOk(e, c, None) && RootsOk(e, c);
    ActiveOk(e, None, c);
    RotatableMaybe(e, c, s.live.value);
    RotatableDurable(e, c);
    BeginRotationStore(e, c, generation, t.store);
    BegunLive(e, c, generation, t.store, s.live.value);
  }

  lemma BegunLive(e: Engine, s: Store, generation: nat, t: Store, live: Live)
    requires LiveOk(e, s, live) && live.job.Idle? && s.maybe.None? && Begun(s, generation, t)
             && s.active in s.disk.segments
    requires !live.cleaning && |s.log| == live.lsn == s.durable && Rotatable(Active(s)) && !live.poisoned
    ensures LiveOk(e, t, live.(job := Rotating(generation)))
  {
    assert Active(t) == Active(s);
  }

  lemma OnlyHeader(frames: seq<Frame>)
    requires |frames| <= 1 && (frames != [] ==> frames[0].RootFrame?)
    ensures TxCount(frames) == 0
    ensures forall from: nat, log: seq<Tx> :: InOrder(frames, from, log)
  {
    if frames != [] {
      assert frames[..0] == [];
    }
  }

  lemma HeaderInOrder(frames: seq<Frame>, from: nat, log: seq<Tx>)
    requires |frames| <= 1 && (frames != [] ==> frames[0].RootFrame?)
    ensures TxCount(frames) == 0 && InOrder(frames, from, log)
  {
    OnlyHeader(frames);
  }

  ghost predicate RotatedTo(s: Store, g: nat, t: Store) {
    g > s.active && t == s.(disk := SetSegment(s.disk, g, Segment([RootFrame(s.root)], 1, 0)), active := g)
  }

  /** The chain of a root, moved to another last segment, when the segments between hold no transaction. */
  lemma CoversMoved(disk: Disk, active: nat, other: nat, log: seq<Tx>, generation: nat, lsn: nat)
    requires Covers(disk, active, log, generation, lsn) && generation <= other
    requires forall n :: active < n <= other || other < n <= active ==> HeaderLike(FramesOf(disk, n))
    ensures Covers(disk, other, log, generation, lsn)
    ensures other > active ==> End(disk, generation, other - 1, lsn) == |log|
  {
    var low, high := if active < other then active else other, if active < other then other else active;
    forall n | low < n <= high
      ensures TxCount(FramesOf(disk, n)) == 0 && InOrder(FramesOf(disk, n), End(disk, generation, low, lsn), log)
    {
      HeaderInOrder(FramesOf(disk, n), End(disk, generation, low, lsn), log);
    }
    EmptySegments(disk, generation, low, high, lsn, log);
    if other > active {
      EmptySegments(disk, generation, low, high - 1, lsn, log);
    }
  }

  lemma AnchorMoved(e: Engine, s: Store, t: Store, root: Root)
    requires Anchor(e, s, root) && t.disk.files == s.disk.files && t.log == s.log && HasRoot(t.disk, root)
    requires root.generation <= t.active
    requires forall n :: root.generation <= n <= s.active ==> FramesOf(t.disk, n) == FramesOf(s.disk, n)
    requires forall n :: s.active < n <= t.active ==> HeaderLike(FramesOf(t.disk, n))
    requires t.active > s.active
    ensures Anchor(e, t, root) && End(t.disk, root.generation, t.active - 1, root.lsn) == |s.log|
  {
    SameSegments(s.disk, t.disk, root.generation, s.active, root.lsn, s.log);
    CoversMoved(t.disk, s.active, t.active, s.log, root.generation, root.lsn);
  }

  lemma RotatedDisk(e: Engine, s: Store, g: nat, t: Store)
    requires LogOk(e, s, Some(g)) && RootsOk(e, s) && RotatedTo(s, g, t) && s.maybe.None? && Whole(Active(s))
    ensures LogOk(e, t, None)
  {
    AnchorBase(e, s);
    forall n | n in t.disk.segments ensures SegmentOk(n, t.disk.segments[n], t.root, t.retained, t.maybe) {
      if n != g {
        assert SegmentOk(n, s.disk.segments[n], s.root, s.retained, s.maybe);
      }
    }
    forall n: nat ensures SealedAt(t.disk, t.active, t.retained.generation, None, t.root, n) {
      assert SealedAt(s.disk, s.active, s.retained.generation, Some(g), s.root, n);
    }
  }

  lemma AboveActive(e: Engine, s: Store, g: nat, t: Store, n: nat)
    requires LogOk(e, s, Some(g)) && RotatedTo(s, g, t) && s.active < n <= g
    ensures HeaderLike(FramesOf(t.disk, n))
  {
    assert SealedAt(s.disk, s.active, s.retained.generation, Some(g), s.root, n);
  }

  lemma RotatedRoots(e: Engine, s: Store, g: nat, t: Store)
    requires LogOk(e, s, Some(g)) && RootsOk(e, s) && RotatedTo(s, g, t) && s.maybe.None? && s.durable == |s.log|
    ensures RootsOk(e, t)
  {
    AnchorBase(e, s);
    forall n | s.active < n <= g ensures HeaderLike(FramesOf(t.disk, n)) {
      AboveActive(e, s, g, t, n);
    }
    RotatedRoot(e, s, g, t, s.root);
    RotatedRoot(e, s, g, t, s.retained);
    HeaderDurable(t, s.root);
  }

  lemma RotatedRoot(e: Engine, s: Store, g: nat, t: Store, root: Root)
    requires Anchor(e, s, root) && RotatedTo(s, g, t) && root.generation <= s.active
    requires forall n :: s.active < n <= g ==> HeaderLike(FramesOf(t.disk, n))
    ensures Anchor(e, t, root) && End(t.disk, root.generation, g - 1, root.lsn) == |s.log|
  {
    assert HasRoot(t.disk, root);
    AnchorMoved(e, s, t, root);
  }

  lemma HeaderDurable(t: Store, root: Root)
    requires Active(t) == Segment([RootFrame(root)], 1, 0)
    ensures DurableLsn(t) == Base(t)
  {
    OnlyHeader([RootFrame(root)]);
    AllDurable(t);
  }

  lemma EndRotationLive(e: Engine, c: Store, t: Store, live: Live, after: Live)
    requires LiveOk(e, c, live) && live.job.Rotating? && RotatedTo(c, live.job.generation, t)
             && c.active >= c.root.generation
    requires after == live.(job := Building(live.lsn, Visible(live), live.walBytes), tail := map[])
    ensures LiveOk(e, t, after)
  {
    OnlyHeader([RootFrame(c.root)]);
    HeaderInOrder([RootFrame(c.root)], live.lsn, c.log);
    assert Visible(live).entities + map[] == Visible(live).entities;
    assert Active(t) == Segment([RootFrame(c.root)], 1, 0);
  }

  lemma RotatedStore(e: Engine, c: Store, t: Store, live: Live)
    requires live.job.Rotating? && StoreOk(e, c, Some(live.job.generation)) && OpenOk(e, c, live)
    requires RotatedTo(c, live.job.generation, t)
    ensures StoreOk(e, t, None) && t.durable == c.durable && t.log == c.log
  {
    assert LogOk(e, c, Some(live.job.generation)) && RootsOk(e, c);
    assert LiveOk(e, c, live);
    RotatedDisk(e, c, live.job.generation, t);
    RotatedRoots(e, c, live.job.generation, t);
  }

  lemma RotatedOpen(e: Engine, c: Store, t: Store, live: Live, after: Live)
    requires live.job.Rotating? && StoreOk(e, c, Some(live.job.generation)) && OpenOk(e, c, live)
    requires RotatedTo(c, live.job.generation, t)
    requires after == live.(job := Building(live.lsn, Visible(live), live.walBytes), tail := map[])
    ensures OpenOk(e, t, after)
  {
    assert LogOk(e, c, Some(live.job.generation)) && RootsOk(e, c);
    assert LiveOk(e, c, live);
    AnchorBase(e, c);
    EndRotationLive(e, c, t, live, after);
  }

  /** While a rotation runs, the root it starts from is the store's. */
  lemma RotatingRoot(e: Engine, c: Store, live: Live)
    requires live.job.Rotating? && OpenOk(e, c, live)
    ensures live.root == c.root && live.job.generation > c.active
  {
    assert LiveOk(e, c, live);
  }

  lemma EndRotationKeeps(e: Engine, s: System, t: System)
    requires Inv(e, s) && Next(e, s, EndRotation, t)
    ensures Inv(e, t)
  {
    RotatingRoot(e, s.store, s.live.value);
    RotatedStore(e, s.store, t.store, s.live.value);
    RotatedOpen(e, s.store, t.store, s.live.value, t.live.value);
  }

  // ----- build and publication -----

  lemma MoreFiles(e: Engine, s: Store, t: Store)
    requires StoreOk(e, s, None) && s.maybe.None?
    requires t == s.(disk := Disk(s.disk.segments, t.disk.files))
    requires s.root.files <= t.disk.files && s.retained.files <= t.disk.files
    ensures StoreOk(e, t, None)
  {
    assert LogOk(e, s, None) && RootsOk(e, s);
    SameLog(e, s, t);
    AnchorSame(e, s, t, s.root);
    AnchorSame(e, s, t, s.retained);
    assert Active(t) == Active(s);
  }

  lemma SameLog(e: Engine, s: Store, t: Store)
    requires LogOk(e, s, None) && t == s.(disk := Disk(s.disk.segments, t.disk.files))
    ensures LogOk(e, t, None)
  {
    forall n: nat ensures SealedAt(t.disk, t.active, t.retained.generation, None, t.root, n) {
      assert SealedAt(s.disk, s.active, s.retained.generation, None, s.root, n);
    }
  }

  lemma FinishBuildKeeps(e: Engine, s: System, files: set<FileId>, written: set<FileId>, t: System)
    requires Inv(e, s) && Next(e, s, FinishBuild(files, written), t)
    ensures Inv(e, t)
  {
    assert LiveOk(e, s.store, s.live.value);
    assert LogOk(e, s.store, None) && RootsOk(e, s.store);
    MoreFiles(e, s.store, t.store);
    assert Active(t.store) == Active(s.store);
    assert LiveOk(e, t.store, t.live.value);
  }

  lemma AbandonKeeps(e: Engine, s: System, t: System)
    requires Inv(e, s) && Next(e, s, Abandon, t)
    ensures Inv(e, t)
  {
    assert LiveOk(e, s.store, s.live.value);
    assert LiveOk(e, t.store, t.live.value);
  }

  lemma RootFrameInOrder(frames: seq<Frame>, root: Root, from: nat, log: seq<Tx>)
    requires InOrder(frames, from, log)
    ensures InOrder(frames + [RootFrame(root)], from, log) && TxCount(frames + [RootFrame(root)]) == TxCount(frames)
  {
    InOrderAppend(frames, RootFrame(root), from, log);
    TxCountAppend(frames, RootFrame(root));
  }

  ghost predicate PublishedFrame(s: Store, root: Root, t: Store) {
    t == SetActive(s, AppendFrame(Active(s), RootFrame(root))).(maybe := Some(root))
  }

  lemma PublicationDisk(e: Engine, s: Store, root: Root, t: Store)
    requires LogOk(e, s, None) && s.maybe.None? && PublishedFrame(s, root, t) && root.generation == s.active
    ensures LogOk(e, t, None) && Synced(Active(t)) == Synced(Active(s))
  {
    ActiveOk(e, None, s);
    MoreRoots(s.active, Active(s), s.root, s.retained, t.maybe);
    AppendedOk(s.active, Active(s), RootFrame(root), s.root, s.retained, t.maybe);
    DiskReplaced(e, None, s, t);
  }

  /** A root that may be published in the active segment. */
  ghost predicate Publishable(e: Engine, s: Store, root: Root) {
    && RootOk(e, s.log, root) && root.files <= s.disk.files && Active(s).synced > 0
    && root.generation == s.active > s.root.generation && s.root.lsn <= root.lsn <= s.durable
    && InOrder(Active(s).frames, root.lsn, s.log) && root.lsn + TxCount(Active(s).frames) == |s.log|
  }

  lemma PublicationMaybe(e: Engine, s: Store, root: Root, t: Store)
    requires Publishable(e, s, root) && PublishedFrame(s, root, t) && s.active in s.disk.segments
    requires RootsKnown(Active(s).frames, s.active, s.root, s.retained, None) && Synced(Active(t)) == Synced(Active(s))
    requires Active(s).synced <= |Active(s).frames|
    ensures MaybeOk(e, t, root)
  {
    assert forall f :: f in Synced(Active(s)) ==> f in Active(s).frames;
    RootFrameInOrder(Active(s).frames, root, root.lsn, s.log);
    assert Active(t).frames[|Active(s).frames|] == RootFrame(root);
  }

  lemma PublicationRoots(e: Engine, s: Store, root: Root, t: Store)
    requires LogOk(e, s, None) && RootsOk(e, s) && PublishedFrame(s, root, t) && Synced(Active(t)) == Synced(Active(s))
    requires Publishable(e, s, root) && s.maybe.None?
    ensures RootsOk(e, t)
  {
    ActiveOk(e, None, s);
    OwnTail(e, s);
    RootFrameInOrder(Active(s).frames, root, Base(s), s.log);
    RootsReplaced(e, s, t);
    SameDurable(s, t);
    assert SegmentOk(s.active, s.disk.segments[s.active], s.root, s.retained, s.maybe);
    PublicationMaybe(e, s, root, t);
  }

  lemma PublicationStore(e: Engine, s: Store, root: Root, t: Store)
    requires StoreOk(e, s, None) && s.maybe.None? && PublishedFrame(s, root, t) && Publishable(e, s, root)
    ensures StoreOk(e, t, None) && s.active in s.disk.segments
  {
    assert LogOk(e, s, None) && RootsOk(e, s);
    PublicationDisk(e, s, root, t);
    PublicationRoots(e, s, root, t);
  }

  lemma PublicationLive(e: Engine, s: Store, root: Root, frontier: nat, t: Store, live: Live)
    requires LiveOk(e, s, live) && live.job == Built(root, frontier) && PublishedFrame(s, root, t)
    requires |s.log| == live.lsn && s.active in s.disk.segments
    ensures LiveOk(e, t, live.(job := Publishing(root, frontier)))
  {
    RootFrameInOrder(Active(s).frames, root, root.lsn, s.log);
    assert Active(t) == AppendFrame(Active(s), RootFrame(root));
  }

  lemma WritePublicationKeeps(e: Engine, s: System, t: System)
    requires Inv(e, s) && Next(e, s, WritePublication, t)
    ensures Inv(e, t)
  {
    var c, live := s.store, s.live.value;
    assert LiveOk(e, c, live);
    PublicationStore(e, c, live.job.root, t.store);
    PublicationLive(e, c, live.job.root, live.job.frontier, t.store, live);
  }

  // ----- installing a checkpoint -----

  lemma InstalledLive(e: Engine, c: Store, t: Store, live: Live, after: Live)
    requires LiveOk(e, c, live) && live.job.Publishing? && t == Hardened(c) && c.active in c.disk.segments
    requires after == live.(root := live.job.root, overlay := live.tail, tail := map[],
                            walBytes := live.walBytes - Min(live.walBytes, live.job.frontier), job :=
                                Idle, cleaning := true)
    ensures LiveOk(e, t, after)
  {
    HardenedActive(c, t);
    LogBytesSplit(e, c.log, c.root.lsn, live.job.root.lsn, live.lsn);
  }

  /** Publishing hardens the store; what was dropped stays behind the newer roots. */
  lemma InstalledStore(e: Engine, c: Store, t: Store, trash: map<nat, Segment>)
    requires StoreOk(e, c, None) && t == Hardened(c) && TrashOk(c, trash)
    ensures StoreOk(e, t, None) && TrashOk(t, trash) && t.durable == |c.log| == |t.log|
  {
    HardenedStore(e, None, c, t);
    assert RootsOk(e, c);
    PromotedTrash(e, c, t, trash);
  }

  lemma InstalledOpen(e: Engine, c: Store, t: Store, live: Live, after: Live)
    requires StoreOk(e, c, None) && OpenOk(e, c, live) && live.job.Publishing? && t == Hardened(c)
    requires after == live.(root := live.job.root, overlay := live.tail, tail := map[],
                            walBytes := live.walBytes - Min(live.walBytes, live.job.frontier), job :=
                                Idle, cleaning := true)
    ensures OpenOk(e, t, after)
  {
    assert LogOk(e, c, None) && RootsOk(e, c);
    assert LiveOk(e, c, live);
    InstalledLive(e, c, t, live, after);
  }

  lemma SyncPublicationKeeps(e: Engine, s: System, t: System)
    requires Inv(e, s) && Next(e, s, SyncPublication, t)
    ensures Inv(e, t)
  {
    InstalledStore(e, s.store, t.store, s.trash);
    InstalledOpen(e, s.store, t.store, s.live.value, t.live.value);
  }

  // ----- cleanup -----

  lemma DropSegmentStore(e: Engine, s: Store, number: nat, t: Store)
    requires LogOk(e, s, None) && RootsOk(e, s) && s.maybe.None?
    requires number < s.retained.generation && t == s.(disk := Disk(s.disk.segments - {number}, s.disk.files))
    ensures LogOk(e, t, None) && RootsOk(e, t) && Active(t) == Active(s)
  {
    AnchorBase(e, s);
    DroppedSegment(e, s, number, t);
    DroppedLog(e, s, number, t);
    AnchorSame(e, s, t, s.root);
    AnchorSame(e, s, t, s.retained);
  }

  lemma DroppedSegment(e: Engine, s: Store, number: nat, t: Store)
    requires RootsOk(e, s) && s.retained.generation <= s.root.generation <= s.active
    requires number < s.retained.generation && t == s.(disk := Disk(s.disk.segments - {number}, s.disk.files))
    ensures forall n :: s.retained.generation <= n ==> FramesOf(t.disk, n) == FramesOf(s.disk, n)
    ensures HasRoot(t.disk, s.root) && HasRoot(t.disk, s.retained) && Active(t) == Active(s)
  {
  }

  lemma DroppedLog(e: Engine, s: Store, number: nat, t: Store)
    requires LogOk(e, s, None) && s.retained.generation <= s.active
    requires number < s.retained.generation && t == s.(disk := Disk(s.disk.segments - {number}, s.disk.files))
    ensures LogOk(e, t, None)
  {
    forall n | n in t.disk.segments ensures SegmentOk(n, t.disk.segments[n], t.root, t.retained, t.maybe) {
      assert SegmentOk(n, s.disk.segments[n], s.root, s.retained, s.maybe);
    }
    forall n: nat ensures SealedAt(t.disk, t.active, t.retained.generation, None, t.root, n) {
      assert SealedAt(s.disk, s.active, s.retained.generation, None, s.root, n);
    }
  }

  lemma DroppedTrash(e: Engine, s: Store, trash: map<nat, Segment>, number: nat, t: Store)
    requires LogOk(e, s, None) && s.maybe.None? && TrashOk(s, trash) && number in s.disk.segments
    requires number < s.retained.generation && t.root == s.root && t.retained == s.retained
    ensures TrashOk(t, trash[number := s.disk.segments[number]])
  {
    assert SegmentOk(number, s.disk.segments[number], s.root, s.retained, s.maybe);
  }

  lemma DropSegmentKeeps(e: Engine, s: System, number: nat, t: System)
    requires Inv(e, s) && Next(e, s, DropSegment(number), t)
    ensures Inv(e, t)
  {
    var c, live := s.store, s.live.value;
    assert LiveOk(e, c, live) && LogOk(e, c, RotatingTo(s.live)) && RootsOk(e, c);
    DropSegmentStore(e, c, number, t.store);
    DroppedTrash(e, c, s.trash, number, t.store);
    assert LiveOk(e, t.store, live);
  }

  lemma DropFileKeeps(e: Engine, s: System, file: FileId, t: System)
    requires Inv(e, s) && Next(e, s, DropFile(file), t)
    ensures Inv(e, t)
  {
    var c, live := s.store, s.live.value;
    assert LiveOk(e, c, live) && LogOk(e, c, RotatingTo(s.live)) && RootsOk(e, c);
    MoreFiles(e, c, t.store);
    assert Active(t.store) == Active(c);
    assert LiveOk(e, t.store, live);
  }

  lemma EndCleaningKeeps(e: Engine, s: System, synced: bool, t: System)
    requires Inv(e, s) && Next(e, s, EndCleaning(synced), t)
    ensures Inv(e, t)
  {
    assert LiveOk(e, s.store, s.live.value);
    assert LiveOk(e, t.store, t.live.value);
  }
}
