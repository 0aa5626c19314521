/**
 The write-ahead log and what reopening makes of it (database.rs, open_with_options).

 A segment is a sequence of frames of which the first `synced` are durable, followed by `torn`
 bytes that complete no frame.  The module Frames shows that cutting the bytes of a segment
 anywhere leaves exactly the frames `Cut` keeps.
 */
module Wal {
  import opened Results
  import opened Model
  import opened Histories
  import opened Transactions
  import opened Files

  type Tx = seq<Operation>

  /** What a transaction does to a view, and the payload bytes of the two frame kinds. */
  datatype Engine = Engine(run: (View, Tx, nat) -> Result<Stage>, txBytes: Tx -> nat, rootBytes: Root -> nat)

  /** A checkpoint: the view at its sequence, and the files that hold it. */
  datatype Root = Root(generation: nat, lsn: nat, view: View, files: set<FileId>)

  datatype Frame = RootFrame(root: Root) | TxFrame(lsn: nat, tx: Tx)
  datatype Segment = Segment(frames: seq<Frame>, synced: nat, torn: nat)
  datatype Disk = Disk(segments: map<nat, Segment>, files: set<FileId>)

  const EMPTY_VIEW := View(map[], map[])
  const EMPTY_ROOT := Root(0, 0, EMPTY_VIEW, {})

  function Size(e: Engine, frame: Frame): nat {
    40 + match frame
         case RootFrame(root) => e.rootBytes(root)
         case TxFrame(_, tx) => e.txBytes(tx)
  }

  function ByteLength(e: Engine, frames: seq<Frame>): nat {
    if frames == [] then 0 else Size(e, frames[0]) + ByteLength(e, frames[1..])
  }

  /** The frames that are complete within the first `limit` bytes. */
  function Cut(e: Engine, frames: seq<Frame>, limit: nat): (r: seq<Frame>)
    ensures ByteLength(e, r) <= limit
  {
    if frames == [] || Size(e, frames[0]) > limit then []
    else [frames[0]] + Cut(e, frames[1..], limit - Size(e, frames[0]))
  }

  lemma {:induction false} CutIsPrefix(e: Engine, frames: seq<Frame>, limit: nat)
    ensures Cut(e, frames, limit) <= frames
    ensures limit >= ByteLength(e, frames) ==> Cut(e, frames, limit) == frames
    ensures limit < ByteLength(e, frames) ==> |Cut(e, frames, limit)| < |frames|
  {
    if frames != [] && Size(e, frames[0]) <= limit {
      CutIsPrefix(e, frames[1..], limit - Size(e, frames[0]));
    }
  }

  /** Bytes that reach past a prefix keep at least that prefix. */
  lemma {:induction false} CutKeeps(e: Engine, frames: seq<Frame>, count: nat, limit: nat)
    requires count <= |frames| && ByteLength(e, frames[..count]) <= limit
    ensures count <= |Cut(e, frames, limit)|
  {
    if count > 0 {
      assert frames[..count][1..] == frames[1..][..count - 1];
      CutKeeps(e, frames[1..], count - 1, limit - Size(e, frames[0]));
    }
  }

  // ----- the log as a fold -----

  /** The view after the first `n` transactions. */
  function ViewAt(e: Engine, log: seq<Tx>, n: nat): View
    requires n <= |log|
  {
    if n == 0 then EMPTY_VIEW
    else
      match e.run(ViewAt(e, log, n - 1), log[n - 1], n)
      case Ok(stage) => Publish(ViewAt(e, log, n - 1), stage)
      case Err(_) => ViewAt(e, log, n - 1)
  }

  /** Every transaction of the log runs on the view before it. */
  ghost predicate Runs(e: Engine, log: seq<Tx>, n: nat)
    requires n <= |log|
  {
    n == 0 || (Runs(e, log, n - 1) && e.run(ViewAt(e, log, n - 1), log[n - 1], n).Ok?)
  }

  lemma {:induction false} RunsAt(e: Engine, log: seq<Tx>, n: nat, i: nat)
    requires i < n <= |log| && Runs(e, log, n)
    ensures e.run(ViewAt(e, log, i), log[i], i + 1).Ok?
    ensures Runs(e, log, i)
  {
    if i < n - 1 {
      RunsAt(e, log, n - 1, i);
    }
  }

  /** The view at `n` depends only on the first `n` transactions. */
  lemma {:induction false} ViewAtAgrees(e: Engine, a: seq<Tx>, b: seq<Tx>, n: nat)
    requires n <= |a| && n <= |b| && a[..n] == b[..n]
    ensures ViewAt(e, a, n) == ViewAt(e, b, n)
    ensures Runs(e, a, n) == Runs(e, b, n)
  {
    if n > 0 {
      PrefixAgrees(a, b, n);
      ViewAtAgrees(e, a, b, n - 1);
    }
  }

  lemma PrefixAgrees(a: seq<Tx>, b: seq<Tx>, n: nat)
    requires 0 < n <= |a| && n <= |b| && a[..n] == b[..n]
    ensures a[..n - 1] == b[..n - 1] && a[n - 1] == b[n - 1]
  {
    assert a[..n][n - 1] == a[n - 1] && b[..n][n - 1] == b[n - 1];
    assert a[..n - 1] == a[..n][..n - 1] && b[..n - 1] == b[..n][..n - 1];
  }

  /** Summed frame lengths of transactions `first + 1 .. last`. */
  function LogBytes(e: Engine, log: seq<Tx>, first: nat, last: nat): nat
    requires first <= last <= |log|
  {
    if first == last then 0 else LogBytes(e, log, first, last - 1) + 40 + e.txBytes(log[last - 1])
  }

  lemma {:induction false} LogBytesSplit(e: Engine, log: seq<Tx>, first: nat, middle: nat, last: nat)
    requires first <= middle <= last <= |log|
    ensures LogBytes(e, log, first, last) == LogBytes(e, log, first, middle) + LogBytes(e, log, middle, last)
  {
    if middle < last {
      LogBytesSplit(e, log, first, middle, last - 1);
    }
  }

  lemma {:induction false} LogBytesAgree(e: Engine, a: seq<Tx>, b: seq<Tx>, first: nat, last: nat)
    requires first <= last <= |a| && last <= |b| && a[..last] == b[..last]
    ensures LogBytes(e, a, first, last) == LogBytes(e, b, first, last)
  {
    if first < last {
      PrefixAgrees(a, b, last);
      LogBytesAgree(e, a, b, first, last - 1);
    }
  }

  // ----- replay -----

  /** The state recovery accumulates above a root. */
  datatype Replayed = Replayed(lsn: nat, catalog: Catalog, overlay: map<Key, History>, bytes: nat)

  function Start(root: Root): Replayed {
    Replayed(root.lsn, root.view.catalog, map[], 0)
  }

  function Seen(root: Root, at: Replayed): View {
    View(at.catalog, root.view.entities + at.overlay)
  }

  /** One frame of the replay loop. */
  function ReplayFrame(e: Engine, root: Root, at: Replayed, frame: Frame): Result<Replayed> {
    match frame
    case RootFrame(_) => Ok(at)
    case TxFrame(lsn, tx) =>
      if lsn <= root.lsn then Ok(at)
      else if lsn != at.lsn + 1 then Err(Corrupt)
      else
        match e.run(Seen(root, at), tx, lsn)
        case Err(_) => Err(Corrupt)
        case Ok(stage) => Ok(Replayed(lsn, stage.catalog, at.overlay + stage.staged, at.bytes + 40 + e.txBytes(tx)))
  }

  function ReplayFrames(e: Engine, root: Root, at: Replayed, frames: seq<Frame>): Result<Replayed> {
    if frames == [] then Ok(at)
    else
      match ReplayFrames(e, root, at, frames[..|frames| - 1])
      case Err(error) => Err(error)
      case Ok(next) => ReplayFrame(e, root, next, frames[|frames| - 1])
  }

  /** Segments `first .. last` in order; a sealed segment must not end in a torn frame. */
  function ReplaySegments(e: Engine, disk: Disk, root: Root, first: nat, last: int, active: nat): Result<Replayed>
    decreases last + 1
  {
    if last < first then Ok(Start(root))
    else
      match ReplaySegments(e, disk, root, first, last - 1, active)
      case Err(error) => Err(error)
      case Ok(at) =>
        if last !in disk.segments || disk.segments[last].frames == [] then Ok(at)
        else if last != active && disk.segments[last].torn != 0 then Err(Corrupt)
        else ReplayFrames(e, root, at, disk.segments[last].frames)
  }

  // ----- what a well-formed log looks like -----

  function TxCount(frames: seq<Frame>): nat {
    if frames == [] then 0 else TxCount(frames[..|frames| - 1]) + if frames[|frames| - 1].TxFrame? then 1 else 0
  }

  /** The transaction frames are `log[from..]`, in order. */
  ghost predicate InOrder(frames: seq<Frame>, from: nat, log: seq<Tx>) {
    frames == [] ||
    var n := |frames| - 1;
    && InOrder(frames[..n], from, log)
    && (frames[n].TxFrame? ==> IsLogged(frames[n], from + TxCount(frames[..n]), log))
  }

  /** The frame is transaction `n + 1` of the log. */
  ghost predicate IsLogged(frame: Frame, n: nat, log: seq<Tx>) {
    n < |log| && frame == TxFrame(n + 1, log[n])
  }

  function FramesOf(disk: Disk, n: int): seq<Frame> {
    if n in disk.segments then disk.segments[n].frames else []
  }

  /** The sequence reached after segments `first .. last`, starting at `from`. */
  function End(disk: Disk, first: nat, last: int, from: nat): nat
    decreases last + 1
  {
    if last < first then from else End(disk, first, last - 1, from) + TxCount(FramesOf(disk, last))
  }

  /** Segments `first .. last` hold the log from `from` on, without gaps. */
  ghost predicate Chain(disk: Disk, first: nat, last: int, from: nat, log: seq<Tx>)
    decreases last + 1
  {
    last < first ||
    (Chain(disk, first, last - 1, from, log) && InOrder(FramesOf(disk, last), End(disk, first, last - 1, from), log))
  }

  lemma {:induction false} EndMonotone(disk: Disk, first: nat, last: int, from: nat)
    ensures End(disk, first, last, from) >= from
    decreases last + 1
  {
    if first <= last {
      EndMonotone(disk, first, last - 1, from);
    }
  }

  /** At most a header. */
  predicate HeaderLike(frames: seq<Frame>) {
    |frames| <= 1 && (frames != [] ==> frames[0].RootFrame?)
  }

  /** The same frames, or no transaction in either. */
  predicate Alike(a: seq<Frame>, b: seq<Frame>) {
    a == b || (HeaderLike(a) && HeaderLike(b))
  }

  lemma AlikeCounts(a: seq<Frame>, b: seq<Frame>, from: nat, log: seq<Tx>)
    requires Alike(a, b)
    ensures TxCount(a) == TxCount(b) && InOrder(a, from, log) == InOrder(b, from, log)
  {
    if a != b {
      assert a != [] ==> a[..0] == [];
      assert b != [] ==> b[..0] == [];
    }
  }

  /** Chains only look at the segments they cover, and at a lone header not even once. */
  lemma {:induction false} SameSegments(a: Disk, b: Disk, first: nat, last: int, from: nat, log: seq<Tx>)
    requires forall n :: first <= n <= last ==> Alike(FramesOf(a, n), FramesOf(b, n))
    ensures End(a, first, last, from) == End(b, first, last, from)
    ensures Chain(a, first, last, from, log) == Chain(b, first, last, from, log)
    decreases last + 1
  {
    if first <= last {
      SameSegments(a, b, first, last - 1, from, log);
      AlikeCounts(FramesOf(a, last), FramesOf(b, last), End(a, first, last - 1, from), log);
    }
  }

  /** A gap of empty segments changes nothing. */
  lemma {:induction false} EmptySegments(disk: Disk, first: nat, middle: int, last: int, from: nat, log: seq<Tx>)
    requires first <= middle + 1 && middle <= last
    requires forall n :: middle < n <= last ==>
              TxCount(FramesOf(disk, n)) == 0
              && InOrder(FramesOf(disk, n), End(disk, first, middle, from), log)
    ensures End(disk, first, last, from) == End(disk, first, middle, from)
    ensures Chain(disk, first, last, from, log) == Chain(disk, first, middle, from, log)
    decreases last - middle
  {
    if middle < last {
      EmptySegments(disk, first, middle, last - 1, from, log);
    }
  }

  lemma {:induction false} InOrderPrefix(frames: seq<Frame>, count: nat, from: nat, log: seq<Tx>)
    requires InOrder(frames, from, log) && count <= |frames|
    ensures InOrder(frames[..count], from, log)
  {
    if count < |frames| {
      assert frames[..|frames| - 1][..count] == frames[..count];
      InOrderPrefix(frames[..|frames| - 1], count, from, log);
    } else {
      assert frames[..count] == frames;
    }
  }

  lemma InOrderAppend(frames: seq<Frame>, frame: Frame, from: nat, log: seq<Tx>)
    requires InOrder(frames, from, log)
    requires frame.TxFrame? ==> IsLogged(frame, from + TxCount(frames), log)
    ensures InOrder(frames + [frame], from, log)
  {
    assert (frames + [frame])[..|frames|] == frames;
  }

  /** Order depends only on the part of the log the frames reach. */
  lemma {:induction false} InOrderAgrees(frames: seq<Frame>, from: nat, a: seq<Tx>, b: seq<Tx>)
    requires InOrder(frames, from, a)
    requires from + TxCount(frames) <= |b| && from + TxCount(frames) <= |a|
    requires a[..from + TxCount(frames)] == b[..from + TxCount(frames)]
    ensures InOrder(frames, from, b)
  {
    if frames != [] {
      var rest := frames[..|frames| - 1];
      var n := from + TxCount(frames);
      if frames[|frames| - 1].TxFrame? {
        PrefixAgrees(a, b, n);
      }
      InOrderAgrees(rest, from, a, b);
    }
  }

  lemma {:induction false} ChainAgrees(disk: Disk, first: nat, last: int, from: nat, a: seq<Tx>, b: seq<Tx>)
    requires Chain(disk, first, last, from, a)
    requires End(disk, first, last, from) <= |a| && End(disk, first, last, from) <= |b|
    requires a[..End(disk, first, last, from)] == b[..End(disk, first, last, from)]
    ensures Chain(disk, first, last, from, b)
    decreases last + 1
  {
    if first <= last {
      var n := End(disk, first, last - 1, from);
      var m := End(disk, first, last, from);
      assert a[..n] == a[..m][..n] && b[..n] == b[..m][..n];
      ChainAgrees(disk, first, last - 1, from, a, b);
      InOrderAgrees(FramesOf(disk, last), n, a, b);
    }
  }

  lemma TxCountAppend(frames: seq<Frame>, frame: Frame)
    ensures TxCount(frames + [frame]) == TxCount(frames) + if frame.TxFrame? then 1 else 0
  {
    assert (frames + [frame])[..|frames|] == frames;
  }

  lemma {:induction false} TxCountPrefix(frames: seq<Frame>, count: nat)
    requires count <= |frames|
    ensures TxCount(frames[..count]) <= TxCount(frames)
  {
    if count < |frames| {
      assert frames[..|frames| - 1][..count] == frames[..count];
      TxCountPrefix(frames[..|frames| - 1], count);
    } else {
      assert frames[..count] == frames;
    }
  }

  // ----- replay of a well-formed log -----

  /** The replay has reached the log's view at its sequence, and counted its bytes. */
  ghost predicate Reached(e: Engine, root: Root, at: Replayed, log: seq<Tx>) {
    && root.lsn <= at.lsn <= |log|
    && Seen(root, at) == ViewAt(e, log, at.lsn)
    && at.bytes == LogBytes(e, log, root.lsn, at.lsn)
  }

  lemma UnionIsAssociative<K, V>(a: map<K, V>, b: map<K, V>, c: map<K, V>)
    ensures a + (b + c) == (a + b) + c
  {
  }

  lemma PublishSeen(root: Root, at: Replayed, stage: Stage, lsn: nat, bytes: nat)
    ensures Seen(root, Replayed(lsn, stage.catalog, at.overlay + stage.staged, bytes)) == Publish(Seen(root, at), stage)
  {
    UnionIsAssociative(root.view.entities, at.overlay, stage.staged);
  }

  lemma ViewAtNext(e: Engine, log: seq<Tx>, n: nat)
    requires Runs(e, log, |log|) && n < |log|
    ensures e.run(ViewAt(e, log, n), log[n], n + 1).Ok?
    ensures ViewAt(e, log, n + 1) == Publish(ViewAt(e, log, n), e.run(ViewAt(e, log, n), log[n], n + 1).value)
  {
    RunsAt(e, log, |log|, n);
  }

  lemma ReplayNext(e: Engine, root: Root, at: Replayed, log: seq<Tx>)
    requires Runs(e, log, |log|) && Reached(e, root, at, log) && at.lsn < |log|
    ensures var next := ReplayFrame(e, root, at, TxFrame(at.lsn + 1, log[at.lsn]));
            next.Ok? && next.value.lsn == at.lsn + 1 && Reached(e, root, next.value, log)
  {
    ViewAtNext(e, log, at.lsn);
    var stage := e.run(ViewAt(e, log, at.lsn), log[at.lsn], at.lsn + 1).value;
    PublishSeen(root, at, stage, at.lsn + 1, at.bytes + 40 + e.txBytes(log[at.lsn]));
  }

  lemma {:induction false} ReplayInOrder(e: Engine, root: Root, at: Replayed, frames: seq<Frame>, log: seq<Tx>)
    requires Runs(e, log, |log|) && Reached(e, root, at, log) && InOrder(frames, at.lsn, log)
    ensures var r := ReplayFrames(e, root, at, frames);
            r.Ok? && r.value.lsn == at.lsn + TxCount(frames) && Reached(e, root, r.value, log)
  {
    if frames != [] {
      var n := |frames| - 1;
      ReplayInOrder(e, root, at, frames[..n], log);
      if frames[n].TxFrame? {
        ReplayNext(e, root, ReplayFrames(e, root, at, frames[..n]).value, log);
      }
    }
  }

  lemma StartReached(e: Engine, root: Root, log: seq<Tx>)
    requires root.lsn <= |log| && root.view == ViewAt(e, log, root.lsn)
    ensures Reached(e, root, Start(root), log)
  {
    assert root.view.entities + map[] == root.view.entities;
  }

  /** Replaying a chain from a root reaches exactly the view of the log's end. */
  lemma {:induction false} ReplayChain(e: Engine, disk: Disk, root: Root, last: int, active: nat, log: seq<Tx>)
    requires Runs(e, log, |log|) && root.lsn <= |log| && root.view == ViewAt(e, log, root.lsn)
    requires Chain(disk, root.generation, last, root.lsn, log)
    requires forall n ::
               && root.generation <= n <= last && n in disk.segments && disk.segments[n].frames != []
               && n != active ==>
                 disk.segments[n].torn == 0
    ensures ReplaySegments(e, disk, root, root.generation, last, active).Ok?
    ensures ReplaySegments(e, disk, root, root.generation, last, active).value.lsn
            == End(disk, root.generation, last, root.lsn)
    ensures Reached(e, root, ReplaySegments(e, disk, root, root.generation, last, active).value, log)
    decreases last + 1
  {
    if last < root.generation {
      StartReached(e, root, log);
    } else {
      ReplayChain(e, disk, root, last - 1, active, log);
      var at := ReplaySegments(e, disk, root, root.generation, last - 1, active).value;
      ReplayInOrder(e, root, at, FramesOf(disk, last), log);
    }
  }
}
