/**
 Commits, checkpoints, cleanup, crashes and reopening as one step system
 (database.rs: commit_group, prepare_checkpoint, install_checkpoint, abandon_checkpoint,
 Cleanup, open_with_options).

 A power loss keeps any prefix of each segment that contains its synced part, and what is kept is
 durable.  A kill keeps any prefix too, but leaves the unsynced part unsynced.
 */
module Recovery {
  import opened Results
  import opened Model
  import opened Histories
  import opened Transactions
  import opened Wal
  import opened Files

  /** The checkpoint in progress: rotated to its own segment, then built, then published there. */
  datatype Job =
    | Idle
    | Rotating(generation: nat)
    | Building(lsn: nat, frozen: View, frontier: nat)
    | Built(root: Root, frontier: nat)
    | Publishing(root: Root, frontier: nat)

  /** The open database. `tail` collects the entities written since the checkpoint froze its view. */
  datatype Live = Live(
    root: Root,
    catalog: Catalog,
    overlay: map<Key, History>,
    tail: map<Key, History>,
    lsn: nat,
    walBytes: nat,
    job: Job,
    cleaning: bool,
    poisoned: bool)

  /**
   The log on disk with its history variables: the transactions written, how many of them are durable,
   the newest durable checkpoint, the one before it, and a checkpoint whose frame is not yet synced.
   */
  datatype Store = Store(
    disk: Disk,
    active: nat,
    log: seq<Tx>,
    durable: nat,
    root: Root,
    retained: Root,
    maybe: Option<Root>)

  /** The whole system; `acked` and `seen` are the last sequences acknowledged and read. */
  datatype System = System(store: Store, trash: map<nat, Segment>, live: Option<Live>, acked: nat, seen: nat)

  function Visible(live: Live): View {
    View(live.catalog, live.root.view.entities + live.overlay)
  }

  function Active(c: Store): Segment {
    if c.active in c.disk.segments then c.disk.segments[c.active] else Segment([], 0, 0)
  }

  /** The sequence reached by the synced part of the log. */
  function DurableLsn(c: Store): nat {
    DurableEnd(c.disk, c.active, c.root)
  }

  function DurableEnd(disk: Disk, active: nat, root: Root): nat {
    var segment := if active in disk.segments then disk.segments[active] else Segment([], 0, 0);
    End(disk, root.generation, active - 1, root.lsn)
    + if segment.synced <= |segment.frames| then TxCount(segment.frames[..segment.synced]) else 0
  }

  /** The checkpoint recovery starts from. */
  function Newest(c: Store): Root {
    if c.maybe.Some? then c.maybe.value else c.root
  }

  // ----- the invariant -----

  ghost predicate RootOk(e: Engine, log: seq<Tx>, root: Root) {
    root.lsn <= |log| && root.view == ViewAt(e, log, root.lsn)
  }

  /** The log from the root's sequence on is in the segments from its generation on. */
  ghost predicate Covers(disk: Disk, active: nat, log: seq<Tx>, generation: nat, lsn: nat) {
    && generation <= active && lsn <= |log|
    && Chain(disk, generation, active, lsn, log)
    && End(disk, generation, active, lsn) == |log|
  }

  /** A root recovery can start from: its frame, its files and its log are all there. */
  ghost predicate Anchor(e: Engine, c: Store, root: Root) {
    && RootOk(e, c.log, root)
    && root.files <= c.disk.files
    && Covers(c.disk, c.active, c.log, root.generation, root.lsn)
    && HasRoot(c.disk, root)
  }

  ghost predicate HasRoot(disk: Disk, root: Root) {
    && root.generation in disk.segments
    && RootFrame(root) in Synced(disk.segments[root.generation])
  }

  function Synced(segment: Segment): seq<Frame> {
    if segment.synced <= |segment.frames| then segment.frames[..segment.synced] else segment.frames
  }

  /** Every root frame is the newest root, the one being published, or an older one. */
  ghost predicate RootsKnown(frames: seq<Frame>, number: nat, root: Root, retained: Root, maybe: Option<Root>) {
    forall f :: f in frames && f.RootFrame? ==>
      && f.root.generation <= number
      && (f.root == root || Some(f.root) == maybe ||
          (f.root.generation < root.generation && f.root.lsn <= root.lsn
              && (f.root == retained || f.root.generation < retained.generation)))
  }

  ghost predicate SegmentOk(number: nat, segment: Segment, root: Root, retained: Root, maybe: Option<Root>) {
    && segment.synced <= |segment.frames|
    && (segment.frames != [] ==> segment.frames[0].RootFrame?)
    && RootsKnown(segment.frames, number, root, retained, maybe)
  }

  ghost predicate SegmentsOk(segments: map<nat, Segment>, root: Root, retained: Root, maybe: Option<Root>) {
    forall n :: n in segments ==> SegmentOk(n, segments[n], root, retained, maybe)
  }

  /** No frame after the header is unsynced: the segment may be left behind. */
  predicate Rotatable(segment: Segment) {
    segment.synced == |segment.frames| || |segment.frames| == 1
  }

  predicate Whole(segment: Segment) {
    segment.torn == 0 && Rotatable(segment)
  }

  predicate NonEmpty(segments: map<nat, Segment>, n: nat) {
    n in segments && segments[n].frames != []
  }

  ghost predicate SealedAt(disk: Disk, active: nat, from: nat, rotating: Option<nat>, root: Root, n: nat) {
    n in disk.segments && n != active && disk.segments[n].frames != [] ==>
      && (from <= n < active ==> Whole(disk.segments[n]))
      && (n > active ==> rotating == Some(n) && disk.segments[n] == Segment([RootFrame(root)], 0, 0))
  }

  /** Segments left behind are whole; above the active one there is at most an unfinished header. */
  ghost predicate Sealed(disk: Disk, active: nat, from: nat, rotating: Option<nat>, root: Root) {
    forall n: nat :: SealedAt(disk, active, from, rotating, root, n)
  }

  function RotatingTo(live: Option<Live>): Option<nat> {
    if live.Some? && live.value.job.Rotating? then Some(live.value.job.generation) else None
  }

  ghost predicate TrashOk(c: Store, trash: map<nat, Segment>) {
    SegmentsOk(trash, c.root, c.retained, None) && forall n :: n in trash ==> n < c.retained.generation
  }

  ghost predicate LogOk(e: Engine, c: Store, rotating: Option<nat>) {
    && Runs(e, c.log, |c.log|)
    && SegmentsOk(c.disk.segments, c.root, c.retained, c.maybe)
    && NonEmpty(c.disk.segments, c.active)
    && Sealed(c.disk, c.active, c.retained.generation, rotating, c.root)
  }

  ghost predicate RootsOk(e: Engine, c: Store) {
    && Anchor(e, c, c.root)
    && Anchor(e, c, c.retained)
    && c.retained.lsn <= c.root.lsn
    && (c.retained == c.root || c.retained.generation < c.root.generation)
    && (c.maybe.Some? ==> MaybeOk(e, c, c.maybe.value))
    && c.durable == DurableLsn(c)
  }

  /** The invariant of the store; the quantifier keeps it folded until it is asked for. */
  ghost predicate StoreOk(e: Engine, c: Store, rotating: Option<nat>) {
    forall x :: x == c ==> LogOk(e, x, rotating) && RootsOk(e, x)
  }

  ghost predicate MaybeOk(e: Engine, c: Store, root: Root) {
    && RootOk(e, c.log, root)
    && root.files <= c.disk.files
    && root.generation == c.active > c.root.generation
    && c.root.lsn <= root.lsn <= c.durable
    && InOrder(Active(c).frames, root.lsn, c.log) && root.lsn + TxCount(Active(c).frames) == |c.log|
    && RootFrame(root) in Active(c).frames && Active(c).synced > 0
    && AtTheEnd(Active(c), root)
  }

  /** The frame is unsynced, or all of the segment is synced. */
  ghost predicate AtTheEnd(segment: Segment, root: Root) {
    RootFrame(root) in Synced(segment) ==> segment.synced == |segment.frames|
  }

  ghost predicate LiveOk(e: Engine, c: Store, live: Live) {
    && live.root == (if live.job.Idle? then Newest(c) else c.root)
    && live.root.lsn <= live.lsn && c.durable <= live.lsn <= |c.log|
    && Visible(live) == ViewAt(e, c.log, live.lsn)
    && live.walBytes == LogBytes(e, c.log, live.root.lsn, live.lsn)
    && (!live.poisoned ==> Active(c).torn == 0)
    && JobOk(e, c, live)
  }

  /** The open database's part, folded like the store's. */
  ghost predicate OpenOk(e: Engine, c: Store, live: Live) {
    forall x :: x == live ==> LiveOk(e, c, x)
  }

  ghost predicate JobOk(e: Engine, c: Store, live: Live) {
    match live.job
    case Idle => c.maybe.Some? ==> !live.cleaning && RootFrame(c.maybe.value) !in Synced(Active(c))
    case Rotating(generation) =>
      c.maybe.None? && generation > c.active && !live.cleaning && c.durable == live.lsn == |c.log| && Whole(Active(c))
    case Building(lsn, frozen, frontier) =>
      c.maybe.None? && !live.cleaning && c.durable == live.lsn && FrozenOk(e, c, live, lsn, frozen, frontier)
    case Built(root, frontier) =>
      && c.maybe.None? && !live.cleaning && c.durable == live.lsn && FrozenOk(e, c, live, root.lsn, root.view, frontier)
      && root.generation == c.active && root.files <= c.disk.files
    case Publishing(root, frontier) =>
      && c.maybe == Some(root) && !live.cleaning && FrozenOk(e, c, live, root.lsn, root.view, frontier)
      && c.durable == live.lsn == |c.log|
  }

  /** The frozen view plus the tail is the visible view, and the active segment continues from the frozen sequence. */
  ghost predicate FrozenOk(e: Engine, c: Store, live: Live, lsn: nat, frozen: View, frontier: nat) {
    && c.active > c.root.generation && Active(c).synced > 0
    && c.root.lsn <= lsn <= live.lsn <= |c.log|
    && frozen == ViewAt(e, c.log, lsn)
    && frozen.entities + live.tail == Visible(live).entities
    && frontier == LogBytes(e, c.log, c.root.lsn, lsn)
    && InOrder(Active(c).frames, lsn, c.log) && lsn + TxCount(Active(c).frames) == |c.log|
  }

  ghost predicate Inv(e: Engine, s: System) {
    && StoreOk(e, s.store, RotatingTo(s.live))
    && TrashOk(s.store, s.trash)
    && s.acked <= s.store.durable <= |s.store.log|
    && (s.live.Some? ==> OpenOk(e, s.store, s.live.value))
    && (s.live.None? ==> s.trash == map[])
  }

  // ----- steps -----

  datatype Step =
    | Write(tx: Tx)
    | SyncCommits
    | Fail(torn: nat)
    | Observe
    | BeginRotation(generation: nat)
    | EndRotation
    | FinishBuild(files: set<FileId>, written: set<FileId>)
    | Abandon
    | WritePublication
    | SyncPublication
    | DropSegment(number: nat)
    | DropFile(file: FileId)
    | EndCleaning(synced: bool)
    | Crash(power: bool)
    | Reopen(chosen: Root)

  function SetSegment(disk: Disk, n: nat, segment: Segment): Disk {
    Disk(disk.segments[n := segment], disk.files)
  }

  function SetActive(c: Store, segment: Segment): Store {
    c.(disk := SetSegment(c.disk, c.active, segment))
  }

  function SyncAll(segment: Segment): Segment {
    Segment(segment.frames, |segment.frames|, segment.torn)
  }

  /** The active segment is synced: all of the log is durable, and so is a checkpoint written in it. */
  function Hardened(c: Store): Store {
    var synced := SetActive(c, SyncAll(Active(c))).(durable := |c.log|);
    if c.maybe.Some? then synced.(root := c.maybe.value, retained := c.root, maybe := None) else synced
  }

  function AppendFrame(segment: Segment, frame: Frame): Segment {
    Segment(segment.frames + [frame], segment.synced, segment.torn)
  }

  /** The views of the transactions written but not yet published, one after another. */
  function PublishTo(e: Engine, live: Live, log: seq<Tx>, n: nat): Live
    requires n <= |log|
    decreases n
  {
    if n <= live.lsn then live
    else
      var before := PublishTo(e, live, log, n - 1);
      match e.run(Visible(before), log[n - 1], n)
      case Err(_) => before
      case Ok(stage) =>
        before.(catalog := stage.catalog, overlay := before.overlay + stage.staged,
                tail := if live.job.Idle? then before.tail else before.tail + stage.staged,
                lsn := n, walBytes := before.walBytes + 40 + e.txBytes(log[n - 1]))
  }

  ghost predicate Ready(s: System) {
    s.live.Some? && !s.live.value.poisoned
  }

  /** A cut of one segment's bytes, at or after its synced part. */
  ghost predicate CutSegment(e: Engine, before: Segment, after: Segment, power: bool) {
    exists limit: nat ::
      && before.synced <= |before.frames|
      && ByteLength(e, before.frames[..before.synced]) <= limit <= ByteLength(e, before.frames) + before.torn
      && after == Segment(Cut(e, before.frames, limit), if power then |Cut(e, before.frames, limit)| else before.synced,
                          limit - ByteLength(e, Cut(e, before.frames, limit)))
  }

  /** Deletions that were not synced may come back; a segment never synced may be missing. */
  ghost predicate CrashedSegments(
    e: Engine, before: map<nat, Segment>, trash: map<nat, Segment>, after: map<nat, Segment>, power: bool)
  {
    && (forall n :: n in after ==>
          if n in before then CutSegment(e, before[n], after[n], power)
          else n in trash && CutSegment(e, trash[n], after[n], power))
    && (forall n :: n in before && before[n].synced > 0 ==> n in after)
  }

  /** The segment recovery will continue: the last one that holds a complete frame. */
  ghost predicate Continues(segments: map<nat, Segment>, active: nat) {
    NonEmpty(segments, active) && forall n :: n > active ==> !NonEmpty(segments, n)
  }

  /** An unsynced checkpoint is still there when its frame is. */
  function Left(c: Store, disk: Disk): Option<Root> {
    if c.maybe.Some? && RootFrame(c.maybe.value) in FramesOf(disk, c.active) then c.maybe else None
  }

  ghost predicate Crashed(e: Engine, s: System, t: System, power: bool) {
    var c := s.store;
    var disk := t.store.disk;
    var end := End(disk, c.root.generation, t.store.active, c.root.lsn);
    && CrashedSegments(e, c.disk.segments, s.trash, disk.segments, power)
    && c.disk.files <= disk.files
    && Continues(disk.segments, t.store.active)
    && end <= |c.log|
    && t == System(
              Store(disk, t.store.active, c.log[..end], DurableEnd(disk, t.store.active, c.root), c.root, c.retained,
                  Left(c, disk)),
              map[], None, s.acked, s.seen)
  }

  ghost predicate IsRoot(disk: Disk, root: Root) {
    exists n :: n in disk.segments && RootFrame(root) in disk.segments[n].frames
  }

  /** The newest root whose files are all there. */
  ghost predicate Selected(disk: Disk, root: Root) {
    && IsRoot(disk, root) && root.files <= disk.files
    && forall other :: IsRoot(disk, other) && other.files <= disk.files ==> other.generation <= root.generation
  }

  /** Every segment begins with a checkpoint, and none names a later segment's. */
  ghost predicate Readable(disk: Disk) {
    forall n, i :: n in disk.segments && 0 <= i < |disk.segments[n].frames| ==>
        ReadableAt(n, disk.segments[n].frames[i], i)
  }

  predicate ReadableAt(n: nat, frame: Frame, i: nat) {
    (i == 0 ==> frame.RootFrame?) && (frame.RootFrame? ==> frame.root.generation <= n)
  }

  /**
   open_with_options truncates a torn active tail, and syncs only then.  What it leaves is durable when
   it synced, or when nothing was unsynced.
   */
  function Recovered(c: Store): Store {
    var segment := Active(c);
    if segment.torn > 0 then Hardened(SetActive(c, segment.(torn := 0)))
    else if segment.synced == |segment.frames| then Hardened(c)
    else c
  }

  function Reopened(s: System, chosen: Root, at: Replayed): System {
    s.(store := Recovered(s.store),
       live := Some(Live(chosen, at.catalog, at.overlay, map[], at.lsn, at.bytes, Idle, false, false)))
  }

  ghost predicate Next(e: Engine, s: System, step: Step, t: System) {
    var c := s.store;
    match step
    case Write(tx) =>
      && tx != [] && Ready(s) && !s.live.value.job.Rotating? && !s.live.value.job.Publishing?
      && e.run(ViewAt(e, c.log, |c.log|), tx, |c.log| + 1).Ok?
      && t == s.(store := SetActive(c, AppendFrame(Active(c), TxFrame(|c.log| + 1, tx))).(log := c.log + [tx]))
    case SyncCommits =>
      && Ready(s) && !s.live.value.job.Rotating? && !s.live.value.job.Publishing?
      && t == s.(store := Hardened(c), acked := |c.log|,
                 live := Some(PublishTo(e, s.live.value, c.log, |c.log|)))
    case Fail(torn) =>
      && Ready(s) && (s.live.value.job.Rotating? ==> torn == 0)
      && t == s.(store := SetActive(c, Active(c).(torn := torn)), live := Some(s.live.value.(poisoned := true)))
    case Observe =>
      && Ready(s)
      && t == s.(seen := if s.live.value.lsn > s.seen then s.live.value.lsn else s.seen)
    case BeginRotation(generation) =>
      && Ready(s) && s.live.value.job.Idle? && !s.live.value.cleaning && |c.log| == s.live.value.lsn
      && (forall n :: n in c.disk.segments || n in s.trash ==> n < generation)
      && t == s.(store := c.(disk := SetSegment(c.disk, generation, Segment([RootFrame(s.live.value.root)], 0, 0))),
                 live := Some(s.live.value.(job := Rotating(generation))))
    case EndRotation =>
      && Ready(s) && s.live.value.job.Rotating?
      && var live := s.live.value;
      && t == s.(store := c.(disk := SetSegment(c.disk, live.job.generation, Segment([RootFrame(live.root)], 1, 0)),
                             active := live.job.generation),
                 live := Some(live.(job := Building(live.lsn, Visible(live), live.walBytes), tail := map[])))
    case FinishBuild(files, written) =>
      && s.live.Some? && s.live.value.job.Building?
      && files <= c.disk.files + written
      && var job := s.live.value.job;
      && t == s.(store := c.(disk := Disk(c.disk.segments, c.disk.files + written)),
                 live := Some(s.live.value.(job := Built(Root(c.active, job.lsn, job.frozen, files), job.frontier))))
    case Abandon =>
      && s.live.Some? && (s.live.value.job.Building? || s.live.value.job.Built?)
      && t == s.(live := Some(s.live.value.(job := Idle, tail := map[])))
    case WritePublication =>
      && Ready(s) && s.live.value.job.Built? && |c.log| == s.live.value.lsn
      && var job := s.live.value.job;
      && t == s.(store := SetActive(c, AppendFrame(Active(c), RootFrame(job.root))).(maybe := Some(job.root)),
                 live := Some(s.live.value.(job := Publishing(job.root, job.frontier))))
    case SyncPublication =>
      && Ready(s) && s.live.value.job.Publishing?
      && var live := s.live.value;
      && t == s.(store := Hardened(c),
                 live := Some(live.(root := live.job.root, overlay := live.tail, tail := map[],
                                    walBytes := live.walBytes - Min(live.walBytes, live.job.frontier),
                                    job := Idle, cleaning := true)))
    case DropSegment(number) =>
      && s.live.Some? && s.live.value.cleaning && number in c.disk.segments && number < c.retained.generation
      && t == s.(store := c.(disk := Disk(c.disk.segments - {number}, c.disk.files)), trash :=
         s.trash[number := c.disk.segments[number]])
    case DropFile(file) =>
      && s.live.Some? && s.live.value.cleaning && file !in c.root.files && file !in c.retained.files
      && t == s.(store := c.(disk := Disk(c.disk.segments, c.disk.files - {file})))
    case EndCleaning(synced) =>
      && s.live.Some? && s.live.value.cleaning
      && t == s.(live := Some(s.live.value.(cleaning := false)), trash := if synced then map[] else s.trash)
    case Crash(power) => Crashed(e, s, t, power)
    case Reopen(chosen) =>
      && s.live.None? && Readable(c.disk) && Selected(c.disk, chosen)
      && var r := ReplaySegments(e, c.disk, chosen, chosen.generation, c.active, c.active);
      && r.Ok?
      && t == Reopened(s, chosen, r.value)
  }
}
