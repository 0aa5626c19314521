/**
 Reopening from any state the invariant allows: the newest complete checkpoint is the expected one,
 the replay of its log cannot fail, and the recovered state satisfies the invariant again.
 */
module ReopenProofs {
  import opened Results
  import opened Transactions
  import opened Histories
  import opened Wal
  import opened Recovery
  import opened RecoveryProofs

  lemma NewestIsRoot(e: Engine, c: Store)
    requires LogOk(e, c, None) && RootsOk(e, c)
    ensures IsRoot(c.disk, Newest(c)) && Newest(c).files <= c.disk.files
    ensures IsRoot(c.disk, c.root) && IsRoot(c.disk, c.retained)
    ensures Newest(c).generation >= c.root.generation
  {
    assert RootFrame(c.root) in c.disk.segments[c.root.generation].frames;
    assert RootFrame(c.retained) in c.disk.segments[c.retained.generation].frames;
  }

  lemma KnownRoot(e: Engine, c: Store, root: Root)
    requires LogOk(e, c, None) && IsRoot(c.disk, root)
    ensures root == c.root || Some(root) == c.maybe || (root.generation < c.root.generation && root.lsn <= c.root.lsn)
    ensures root == c.root || Some(root) == c.maybe || root == c.retained || root.generation < c.retained.generation
  {
    var n :| n in c.disk.segments && RootFrame(root) in c.disk.segments[n].frames;
    assert SegmentOk(n, c.disk.segments[n], c.root, c.retained, c.maybe);
  }

  /** Recovery's scan for the newest complete checkpoint has exactly one answer. */
  lemma SelectedIsNewest(e: Engine, c: Store, chosen: Root)
    requires LogOk(e, c, None) && RootsOk(e, c)
    ensures Selected(c.disk, chosen) <==> chosen == Newest(c)
  {
    NewestIsRoot(e, c);
    if Selected(c.disk, chosen) {
      KnownRoot(e, c, chosen);
    }
    forall other | IsRoot(c.disk, other) ensures other.generation <= Newest(c).generation {
      KnownRoot(e, c, other);
    }
  }

  /** No segment makes recovery refuse the log before it has read it. */
  lemma LogIsReadable(e: Engine, c: Store)
    requires LogOk(e, c, None)
    ensures Readable(c.disk)
  {
    forall n, i | n in c.disk.segments && 0 <= i < |c.disk.segments[n].frames|
      ensures ReadableAt(n, c.disk.segments[n].frames[i], i)
    {
      assert SegmentOk(n, c.disk.segments[n], c.root, c.retained, c.maybe);
      assert c.disk.segments[n].frames[i] in c.disk.segments[n].frames;
    }
  }

  /** A root with its log: the replay from it succeeds and gives the view of the whole log. */
  ghost predicate Replays(e: Engine, c: Store, root: Root) {
    var r := ReplaySegments(e, c.disk, root, root.generation, c.active, c.active);
    && r.Ok? && r.value.lsn == |c.log| && root.lsn <= |c.log|
    && Seen(root, r.value) == ViewAt(e, c.log, |c.log|)
    && r.value.bytes == LogBytes(e, c.log, root.lsn, |c.log|)
  }

  lemma CoveredReplays(e: Engine, c: Store, root: Root)
    requires LogOk(e, c, None) && RootOk(e, c.log, root) && c.retained.generation <= root.generation
    requires Covers(c.disk, c.active, c.log, root.generation, root.lsn)
    ensures Replays(e, c, root)
  {
    forall n | root.generation <= n <= c.active && n in c.disk.segments && c.disk.segments[n].frames != []
        && n != c.active
      ensures c.disk.segments[n].torn == 0
    {
      assert SealedAt(c.disk, c.active, c.retained.generation, None, c.root, n);
    }
    ReplayChain(e, c.disk, root, c.active, c.active, c.log);
  }

  lemma MaybeCovered(e: Engine, c: Store)
    requires LogOk(e, c, None) && RootsOk(e, c) && c.maybe.Some?
    ensures Covers(c.disk, c.active, c.log, c.maybe.value.generation, c.maybe.value.lsn)
  {
    var root := c.maybe.value;
    assert End(c.disk, c.active, c.active - 1, root.lsn) == root.lsn;
    assert Chain(c.disk, c.active, c.active - 1, root.lsn, c.log);
  }

  /** The newest root and the retained one, or either of them and a root still unsynced, replay to the same view. */
  lemma EveryKeptRootReplays(e: Engine, c: Store, root: Root)
    requires LogOk(e, c, None) && RootsOk(e, c)
    requires root == c.root || root == c.retained || Some(root) == c.maybe
    ensures Replays(e, c, root)
  {
    AnchorBase(e, c);
    if Some(root) == c.maybe {
      MaybeCovered(e, c);
    }
    CoveredReplays(e, c, root);
  }

  // ----- the store recovery leaves -----

  lemma RecoveredStore(e: Engine, c: Store)
    requires StoreOk(e, c, None)
    ensures StoreOk(e, Recovered(c), None)
  {
    var segment := Active(c);
    if segment.torn > 0 {
      FailStore(e, None, c, 0, SetActive(c, segment.(torn := 0)));
      HardenedStore(e, None, SetActive(c, segment.(torn := 0)), Recovered(c));
    } else if segment.synced == |segment.frames| {
      HardenedStore(e, None, c, Recovered(c));
    }
  }

  lemma RecoveredFacts(e: Engine, c: Store)
    requires LogOk(e, c, None) && RootsOk(e, c)
    ensures var t := Recovered(c);
            && Newest(t) == Newest(c) && t.log == c.log && t.active == c.active && Active(t).torn == 0
            && c.durable <= t.durable <= |t.log| && Active(t).frames == Active(c).frames
            && (t.maybe.Some? ==> t == c && Active(c).synced < |Active(c).frames|)
            && (Active(c).torn > 0 || Active(c).synced == |Active(c).frames| ==> t.durable == |t.log|)
  {
    ActiveOk(e, None, c);
    AnchorBase(e, c);
    TxCountPrefix(Active(c).frames, Active(c).synced);
  }

  lemma ReopenedLive(e: Engine, c: Store, live: Live)
    requires LogOk(e, c, None) && RootsOk(e, c) && Replays(e, c, live.root) && live.root == Newest(c)
    requires var r := ReplaySegments(e, c.disk, live.root, live.root.generation, c.active, c.active).value;
             live == Live(live.root, r.catalog, r.overlay, map[], r.lsn, r.bytes, Idle, false, false)
    ensures LiveOk(e, Recovered(c), live)
  {
    RecoveredFacts(e, c);
    var r := ReplaySegments(e, c.disk, live.root, live.root.generation, c.active, c.active).value;
    assert Visible(live) == Seen(live.root, r);
  }

  lemma ReopenKeeps(e: Engine, s: System, chosen: Root, t: System)
    requires Inv(e, s) && Next(e, s, Reopen(chosen), t)
    ensures Inv(e, t) && t.live.value.lsn == |s.store.log| && s.store.durable <= t.store.durable
  {
    var c := s.store;
    assert LogOk(e, c, None) && RootsOk(e, c);
    SelectedIsNewest(e, c, chosen);
    EveryKeptRootReplays(e, c, chosen);
    RecoveredStore(e, c);
    RecoveredFacts(e, c);
    ReopenedLive(e, c, t.live.value);
    assert TrashOk(t.store, map[]);
  }
}
