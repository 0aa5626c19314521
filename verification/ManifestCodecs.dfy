/** Rows of fixed-width numbers, and counted lists of them, as manifests hold them. */
module WordRows {
  import opened Results
  import opened LittleEndian
  import opened ByteStreams
  import opened ItemLists

  function Nth(row: seq<nat>, i: nat): nat {
    if i < |row| then row[i] else 0
  }

  /** The numbers of a row from column `i` on, each in its width. */
  function WordsFrom(widths: seq<nat>, row: seq<nat>, i: nat): (r: seq<byte>)
    requires i <= |widths|
    ensures |r| == WidthFrom(widths, i)
    decreases |widths| - i
  {
    if i == |widths| then [] else Le(Nth(row, i), widths[i]) + WordsFrom(widths, row, i + 1)
  }

  function WidthFrom(widths: seq<nat>, i: nat): nat
    requires i <= |widths|
    decreases |widths| - i
  {
    if i == |widths| then 0 else widths[i] + WidthFrom(widths, i + 1)
  }

  function Words(widths: seq<nat>, row: seq<nat>): (r: seq<byte>)
    ensures |r| == Width(widths)
  {
    WordsFrom(widths, row, 0)
  }

  function Width(widths: seq<nat>): nat {
    WidthFrom(widths, 0)
  }

  function ParseFrom(data: seq<byte>, at: nat, widths: seq<nat>, i: nat): Result<Parsed<seq<nat>>>
    requires i <= |widths|
    decreases |widths| - i
  {
    if i == |widths| then Ok(Parsed([], at))
    else
      var word :- ParseLe(data, at, widths[i]);
      var rest :- ParseFrom(data, word.next, widths, i + 1);
      Ok(Parsed([word.value] + rest.value, rest.next))
  }

  function ParseWords(data: seq<byte>, at: nat, widths: seq<nat>): Result<Parsed<seq<nat>>> {
    ParseFrom(data, at, widths, 0)
  }

  /** A row of these widths whose numbers fit them. */
  predicate RowFits(widths: seq<nat>, row: seq<nat>) {
    |row| == |widths| && forall i :: 0 <= i < |row| ==> row[i] < Power(widths[i])
  }

  lemma {:induction false} FromParses(data: seq<byte>, at: nat, widths: seq<nat>, row: seq<nat>, i: nat, next: nat)
    requires i <= |widths| && RowFits(widths, row) && Holds(data, at, WordsFrom(widths, row, i))
    requires next == at + WidthFrom(widths, i)
    ensures Yields<seq<nat>>(ParseFrom(data, at, widths, i), row[i..], next)
    decreases |widths| - i
  {
    if i < |widths| {
      HoldsSplit(data, at, Le(row[i], widths[i]), WordsFrom(widths, row, i + 1));
      LeParses(data, at, row[i], widths[i]);
      FromParses(data, at + widths[i], widths, row, i + 1, next);
      assert row[i..] == [row[i]] + row[i + 1..];
    }
  }

  lemma WordsParse(data: seq<byte>, at: nat, widths: seq<nat>, row: seq<nat>, next: nat)
    requires RowFits(widths, row) && Holds(data, at, Words(widths, row)) && next == at + Width(widths)
    ensures Yields<seq<nat>>(ParseWords(data, at, widths), row, next)
  {
    FromParses(data, at, widths, row, 0, next);
    assert row[0..] == row;
  }

  // ----- lists of rows -----

  function RowItem(widths: seq<nat>, data: seq<byte>): (seq<seq<nat>>, nat) -> Result<Parsed<seq<seq<nat>>>> {
    (acc: seq<seq<nat>>, at: nat) => ParseRowAfter(widths, data, acc, at)
  }

  function ParseRowAfter(
    widths: seq<nat>, data: seq<byte>, acc: seq<seq<nat>>, at: nat): Result<Parsed<seq<seq<nat>>>>
  {
    var row :- ParseWords(data, at, widths);
    Ok(Parsed(acc + [row.value], row.next))
  }

  function RowEncoder(widths: seq<nat>): seq<nat> -> seq<byte> {
    (row: seq<nat>) => Words(widths, row)
  }

  function RowSize(widths: seq<nat>): seq<nat> -> nat {
    (row: seq<nat>) => Width(widths)
  }

  /** A counted list of rows. */
  function RowsBytes(widths: seq<nat>, rows: seq<seq<nat>>): seq<byte> {
    Counted(RowEncoder(widths), rows)
  }

  function ParseRows(widths: seq<nat>, data: seq<byte>, at: nat): Result<Parsed<seq<seq<nat>>>> {
    ParseCounted(RowItem(widths, data), Width(widths), data, at)
  }

  ghost predicate RowsFit(widths: seq<nat>, rows: seq<seq<nat>>) {
    |rows| <= U64_MAX && forall i :: 0 <= i < |rows| ==> RowFits(widths, rows[i])
  }

  ghost predicate IsRowItem(
    item: (seq<seq<nat>>, nat) -> Result<Parsed<seq<seq<nat>>>>, widths: seq<nat>, data: seq<byte>)
  {
    forall same: seq<byte> :: same == data ==> item == RowItem(widths, same)
  }

  ghost predicate IsRowEncoder(enc: seq<nat> -> seq<byte>, widths: seq<nat>) {
    forall same: seq<nat> :: same == widths ==> enc == RowEncoder(same)
  }

  lemma RowGives(
    item: (seq<seq<nat>>, nat) -> Result<Parsed<seq<seq<nat>>>>, widths: seq<nat>, data: seq<byte>,
    acc: seq<seq<nat>>, at: nat, row: seq<nat>, next: nat)
    requires IsRowItem(item, widths, data) && RowFits(widths, row)
    requires Holds(data, at, Words(widths, row)) && next == at + Width(widths)
    ensures Gives<seq<seq<nat>>>(item, at, acc, Parsed(acc + [row], next))
  {
    WordsParse(data, at, widths, row, next);
    assert item == RowItem(widths, data);
  }

  lemma RowRead(
    item: (seq<seq<nat>>, nat) -> Result<Parsed<seq<seq<nat>>>>, enc: seq<nat> -> seq<byte>, widths: seq<nat>,
    data: seq<byte>, rows: seq<seq<nat>>, k: nat, at: nat)
    requires IsRowItem(item, widths, data) && IsRowEncoder(enc, widths) && k < |rows| && RowFits(widths, rows[k])
    ensures ReadsItem(item, enc, data, rows, k, at)
  {
    assert enc == RowEncoder(widths);
    var bytes := enc(rows[k]);
    if Holds(data, at, bytes) {
      RowGives(item, widths, data, rows[..k], at, rows[k], at + |bytes|);
    }
    ReadsGiven(item, enc, data, rows, k, at, bytes);
  }

  lemma RowsRead(
    item: (seq<seq<nat>>, nat) -> Result<Parsed<seq<seq<nat>>>>, enc: seq<nat> -> seq<byte>, widths: seq<nat>,
    data: seq<byte>, rows: seq<seq<nat>>)
    requires IsRowItem(item, widths, data) && IsRowEncoder(enc, widths) && RowsFit(widths, rows)
    ensures ReadsAll(item, enc, data, rows)
  {
    forall k: nat, at: nat ensures ReadsItem(item, enc, data, rows, k, at) {
      if k < |rows| {
        RowRead(item, enc, widths, data, rows, k, at);
      }
    }
  }

  lemma RowsSized(widths: seq<nat>)
    ensures Sized(RowEncoder(widths), RowSize(widths), Width(widths))
  {
  }

  lemma {:induction false} RowsSum(widths: seq<nat>, rows: seq<seq<nat>>)
    ensures Sum(RowSize(widths), rows) == |rows| * Width(widths)
  {
    if rows != [] {
      RowsSum(widths, rows[1..]);
      assert |rows| * Width(widths) == |rows[1..]| * Width(widths) + Width(widths);
    }
  }

  lemma RowsLength(widths: seq<nat>, rows: seq<seq<nat>>)
    ensures |RowsBytes(widths, rows)| == 8 + |rows| * Width(widths)
  {
    RowsSized(widths);
    ManySized(RowEncoder(widths), RowSize(widths), Width(widths), rows);
    RowsSum(widths, rows);
  }

  /** A counted list of rows parses back to itself. */
  lemma RowsParse(data: seq<byte>, at: nat, widths: seq<nat>, rows: seq<seq<nat>>, next: nat)
    requires RowsFit(widths, rows) && Width(widths) > 0
    requires Holds(data, at, RowsBytes(widths, rows)) && next == at + |RowsBytes(widths, rows)|
    ensures Yields<seq<seq<nat>>>(ParseRows(widths, data, at), rows, next)
  {
    RowsLength(widths, rows);
    RowsSum(widths, rows);
    RowsSized(widths);
    RowsRead(RowItem(widths, data), RowEncoder(widths), widths, data, rows);
    ListParses(RowItem(widths, data), RowEncoder(widths), RowSize(widths), Width(widths), data, at, rows, next);
  }
}

/**
 The encoding of a manifest and the checks a decoded one passes (snapshot.rs, Root::encode and decode).

 The program keeps most lists in ordered maps; here they are the sequences in which those maps yield them.
 */
module ManifestCodecs {
  import opened Results
  import opened LittleEndian
  import opened ByteStreams
  import opened ItemLists
  import opened RowCodecs
  import opened TableLimits
  import opened TableCodecs
  import opened WordRows
  import opened Model
  import opened Files
  import opened Partitions

  const MAX_SLOTS: nat := 256
  const PAGE_SIZE: nat := 8192

  datatype Generation = Generation(number: nat, lsn: nat)

  datatype FileInfo = FileInfo(file: FileId, size: nat, crc: nat)

  datatype Occupied = Occupied(table: nat, slot: nat, entities: nat, dead: nat)

  datatype Slot = Slot(prior: nat, now: nat)

  datatype PartInfo = PartInfo(
    lower: Pair, file: FileId, lsn: nat, base: nat, first: Pair, last: Pair, slots: seq<Slot>,
    dependencies: seq<FileId>)

  datatype Root = Root(
    generation: nat,
    lsn: nat,
    tables: seq<Table>,
    generations: seq<Generation>,
    parts: seq<PartInfo>,
    compacted: bool,
    histories: seq<Generation>,
    files: seq<FileInfo>,
    occupied: seq<Occupied>)

  // ----- what decoding accepts -----

  predicate KnowsTable(r: Root, table: nat) {
    exists i :: 0 <= i < |r.tables| && r.tables[i].id == table
  }

  predicate KnowsGeneration(gens: seq<Generation>, number: nat) {
    exists i :: 0 <= i < |gens| && gens[i].number == number
  }

  predicate ListsFile(files: seq<FileInfo>, file: FileId) {
    exists i :: 0 <= i < |files| && files[i].file == file
  }

  predicate TablesDiffer(r: Root) {
    forall i, j :: 0 <= i < j < |r.tables| ==> r.tables[i].id != r.tables[j].id && r.tables[i].name != r.tables[j].name
  }

  predicate GenerationsRise(r: Root) {
    && (forall i :: 0 < i < |r.generations| ==> r.generations[i - 1].number < r.generations[i].number)
    && 0 < |r.generations| <= MAX_SLOTS && r.generations[|r.generations| - 1].number == r.generation
  }

  predicate SlotsMap(r: Root, slots: seq<Slot>) {
    && (forall i :: 0 <= i < |slots| ==> slots[i].now < |r.generations|)
    && forall i, j :: 0 <= i < j < |slots| ==> slots[i].prior != slots[j].prior
  }

  predicate DependsRight(table: nat, files: seq<FileId>) {
    && (forall i :: 0 <= i < |files| ==> files[i].table == table && files[i].kind in {2, 6})
    && forall i, j :: 0 <= i < j < |files| ==> files[i] != files[j]
  }

  /** One partition, on its own. */
  predicate PartRight(r: Root, p: PartInfo) {
    && SlotsMap(r, p.slots) && DependsRight(p.file.table, p.dependencies)
    && KnowsTable(r, p.file.table) && 3 <= p.file.kind <= 5 && p.file.generation <= r.generation && p.lsn <= r.lsn
    && AtMost(p.first, p.last) && Bucket(p.file.kind, p.first) == p.lower == Bucket(p.file.kind, p.last)
    && (p.file.kind == PRIMARY <==> p.slots != [])
  }

  /** No two partitions share a route or a place in a file. */
  predicate PartsDiffer(r: Root) {
    forall i, j :: 0 <= i < j < |r.parts| ==>
      && (r.parts[i].file.table, r.parts[i].file.kind, r.parts[i].lower)
         != (r.parts[j].file.table, r.parts[j].file.kind, r.parts[j].lower)
      && (r.parts[i].file, r.parts[i].base) != (r.parts[j].file, r.parts[j].base)
  }

  predicate HistoriesRight(r: Root) {
    && (forall i :: 0 <= i < |r.histories| ==> r.histories[i].number <= r.generation && r.histories[i].lsn <= r.lsn)
    && forall i, j :: 0 <= i < j < |r.histories| ==> r.histories[i].number != r.histories[j].number
  }

  /** A listed file belongs to a history generation, to a partition, or to a generation, by its kind. */
  predicate FileRight(r: Root, file: FileId) {
    && KnowsTable(r, file.table) && file.kind <= 6 && (file.kind < 3 ==> file.segment == 0)
    && if file.kind in {2, 6} then KnowsGeneration(r.histories, file.generation)
       else if 3 <= file.kind <= 5 then exists i :: 0 <= i < |r.parts| && r.parts[i].file == file
       else KnowsGeneration(r.generations, file.generation)
  }

  predicate FilesRight(r: Root) {
    && (forall i :: 0 <= i < |r.files| ==> FileRight(r, r.files[i].file))
    && forall i, j :: 0 <= i < j < |r.files| ==> r.files[i].file != r.files[j].file
  }

  /** A partition's tree lies in its file, and everything it needs is listed. */
  predicate PartListed(r: Root, p: PartInfo) {
    && (exists i :: 0 <= i < |r.files| && r.files[i].file == p.file && p.base < r.files[i].size / PAGE_SIZE)
    && forall k :: 0 <= k < |p.dependencies| ==> ListsFile(r.files, p.dependencies[k])
  }

  predicate OccupiedRight(r: Root) {
    && (forall i :: 0 <= i < |r.occupied| ==>
          && KnowsTable(r, r.occupied[i].table) && r.occupied[i].slot < |r.generations|
          && r.occupied[i].dead <= r.occupied[i].entities)
    && forall i, j :: 0 <= i < j < |r.occupied| ==>
         (r.occupied[i].table, r.occupied[i].slot) != (r.occupied[j].table, r.occupied[j].slot)
  }

  /** Everything Root::decode checks of a manifest it has read. */
  predicate Accepts(r: Root) {
    && TablesDiffer(r) && GenerationsRise(r)
    && (forall i :: 0 <= i < |r.parts| ==> PartRight(r, r.parts[i]) && PartListed(r, r.parts[i])) && PartsDiffer(r)
    && HistoriesRight(r) && FilesRight(r) && OccupiedRight(r)
  }

  // ----- what decoding refuses -----

  /** Two tables with one number or one name. */
  ghost predicate TablesClash(r: Root) {
    exists i, j :: 0 <= i < j < |r.tables| && (r.tables[i].id == r.tables[j].id || r.tables[i].name == r.tables[j].name)
  }

  /** The generations do not rise, are none or too many, or do not end with the manifest's own. */
  ghost predicate GenerationsWrong(r: Root) {
    || r.generations == [] || |r.generations| > 256
    || r.generations[|r.generations| - 1].number != r.generation
    || exists i :: 0 < i < |r.generations| && r.generations[i].number <= r.generations[i - 1].number
  }

  /** A slot twice or one that no generation has, or a dependency twice or one that is no history file of the table. */
  ghost predicate ReferencesWrong(r: Root, p: PartInfo) {
    || (exists i :: 0 <= i < |p.slots| && p.slots[i].now >= |r.generations|)
    || (exists i, j :: 0 <= i < j < |p.slots| && p.slots[i].prior == p.slots[j].prior)
    || (exists i :: 0 <= i < |p.dependencies| &&
          (p.dependencies[i].table != p.file.table || (p.dependencies[i].kind != 2 && p.dependencies[i].kind != 6)))
    || exists i, j :: 0 <= i < j < |p.dependencies| && p.dependencies[i] == p.dependencies[j]
  }

  /** No such table or kind, written later than the manifest, or with keys out of order or of another bucket. */
  ghost predicate KeysWrong(r: Root, p: PartInfo) {
    || (forall i :: 0 <= i < |r.tables| ==> r.tables[i].id != p.file.table)
    || p.file.kind < 3 || p.file.kind > 5 || p.file.generation > r.generation || p.lsn > r.lsn
    || Less(p.last, p.first) || Bucket(p.file.kind, p.first) != p.lower || Bucket(p.file.kind, p.last) != p.lower
    || (p.file.kind == 3 && p.slots == []) || (p.file.kind != 3 && p.slots != [])
  }

  /** Its tree lies outside every listed file, or something it depends on is not listed. */
  ghost predicate FilesMissing(r: Root, p: PartInfo) {
    || (forall i :: 0 <= i < |r.files| ==> r.files[i].file != p.file || p.base >= r.files[i].size / 8192)
    || exists k :: 0 <= k < |p.dependencies| && forall i :: 0 <= i < |r.files| ==> r.files[i].file != p.dependencies[k]
  }

  /** Two partitions on one route or with one tree. */
  ghost predicate PartsClash(r: Root) {
    exists i, j :: 0 <= i < j < |r.parts| && PartClash(r.parts[i], r.parts[j])
  }

  ghost predicate PartClash(a: PartInfo, b: PartInfo) {
    || (a.file.table == b.file.table && a.file.kind == b.file.kind && a.lower == b.lower)
    || (a.file == b.file && a.base == b.base)
  }

  /** A history generation twice, or one later than the manifest. */
  ghost predicate HistoriesWrong(r: Root) {
    || (exists i :: 0 <= i < |r.histories| && (r.histories[i].number > r.generation || r.histories[i].lsn > r.lsn))
    || exists i, j :: 0 <= i < j < |r.histories| && r.histories[i].number == r.histories[j].number
  }

  /** A file of no table, of no kind, or of nothing the manifest has. */
  ghost predicate FileStray(r: Root, file: FileId) {
    || (forall i :: 0 <= i < |r.tables| ==> r.tables[i].id != file.table)
    || file.kind > 6 || (file.kind < 3 && file.segment > 0)
    || ((file.kind == 2 || file.kind == 6) &&
          forall i :: 0 <= i < |r.histories| ==> r.histories[i].number != file.generation)
    || (3 <= file.kind <= 5 && forall i :: 0 <= i < |r.parts| ==> r.parts[i].file != file)
    || (file.kind < 2 && forall i :: 0 <= i < |r.generations| ==> r.generations[i].number != file.generation)
  }

  ghost predicate FilesWrong(r: Root) {
    || (exists i :: 0 <= i < |r.files| && FileStray(r, r.files[i].file))
    || exists i, j :: 0 <= i < j < |r.files| && r.files[i].file == r.files[j].file
  }

  /** Counters twice, of no table or slot, or with more dead than there ever were. */
  ghost predicate CountersWrong(r: Root) {
    || (exists i :: 0 <= i < |r.occupied| && CounterWrong(r, r.occupied[i]))
    || exists i, j :: 0 <= i < j < |r.occupied| &&
         r.occupied[i].table == r.occupied[j].table && r.occupied[i].slot == r.occupied[j].slot
  }

  ghost predicate CounterWrong(r: Root, o: Occupied) {
    || (forall i :: 0 <= i < |r.tables| ==> r.tables[i].id != o.table)
    || o.slot >= |r.generations| || o.dead > o.entities
  }

  ghost predicate Damaged(r: Root) {
    || TablesClash(r) || GenerationsWrong(r) || HistoriesWrong(r) || FilesWrong(r) || CountersWrong(r) || PartsClash(r)
    || exists i :: 0 <= i < |r.parts| && PartWrong(r, r.parts[i])
  }

  ghost predicate PartWrong(r: Root, p: PartInfo) {
    ReferencesWrong(r, p) || KeysWrong(r, p) || FilesMissing(r, p)
  }

  lemma KnowsMeans(r: Root, table: nat, number: nat, file: FileId)
    ensures KnowsTable(r, table) <==> !forall i :: 0 <= i < |r.tables| ==> r.tables[i].id != table
    ensures KnowsGeneration(r.generations, number)
       <==> !forall i :: 0 <= i < |r.generations| ==> r.generations[i].number != number
    ensures KnowsGeneration(r.histories, number)
       <==> !forall i :: 0 <= i < |r.histories| ==> r.histories[i].number != number
    ensures ListsFile(r.files, file) <==> !forall i :: 0 <= i < |r.files| ==> r.files[i].file != file
  {
  }

  lemma PartMeans(r: Root, p: PartInfo)
    ensures PartRight(r, p) && PartListed(r, p) <==> !PartWrong(r, p)
  {
    KnowsMeans(r, p.file.table, 0, p.file);
    forall k | 0 <= k < |p.dependencies|
      ensures ListsFile(r.files, p.dependencies[k])
         <==> !forall i :: 0 <= i < |r.files| ==> r.files[i].file != p.dependencies[k]
    {
      KnowsMeans(r, 0, 0, p.dependencies[k]);
    }
    ReferencesMean(r, p);
    KeysMean(r, p);
    ListedMeans(r, p);
  }

  lemma ReferencesMean(r: Root, p: PartInfo)
    ensures SlotsMap(r, p.slots) && DependsRight(p.file.table, p.dependencies) <==> !ReferencesWrong(r, p)
  {
  }

  lemma KeysMean(r: Root, p: PartInfo)
    ensures PartRight(r, p) <==>
            SlotsMap(r, p.slots) && DependsRight(p.file.table, p.dependencies) && !KeysWrong(r, p)
  {
    KnowsMeans(r, p.file.table, 0, p.file);
  }

  lemma ListedMeans(r: Root, p: PartInfo)
    ensures PartListed(r, p) <==> !FilesMissing(r, p)
  {
    forall k | 0 <= k < |p.dependencies|
      ensures ListsFile(r.files, p.dependencies[k])
         <==> !forall i :: 0 <= i < |r.files| ==> r.files[i].file != p.dependencies[k]
    {
      KnowsMeans(r, 0, 0, p.dependencies[k]);
    }
  }

  lemma FileMeans(r: Root, file: FileId)
    ensures FileRight(r, file) <==> !FileStray(r, file)
  {
    KnowsMeans(r, file.table, file.generation, file);
  }

  lemma FilesMean(r: Root)
    ensures FilesRight(r) <==> !FilesWrong(r)
  {
    forall i | 0 <= i < |r.files| ensures FileRight(r, r.files[i].file) <==> !FileStray(r, r.files[i].file) {
      FileMeans(r, r.files[i].file);
    }
  }

  lemma CountersMean(r: Root)
    ensures OccupiedRight(r) <==> !CountersWrong(r)
  {
    forall i | 0 <= i < |r.occupied| ensures KnowsTable(r, r.occupied[i].table)
      <==> !forall k :: 0 <= k < |r.tables| ==> r.tables[k].id != r.occupied[i].table
    {
      KnowsMeans(r, r.occupied[i].table, 0, FileId(0, 0, 0, 0));
    }
  }

  lemma PartsMean(r: Root)
    ensures PartsDiffer(r) <==> !PartsClash(r)
  {
  }

  /** A manifest is refused exactly when it is damaged. */
  lemma RefusedWhenDamaged(r: Root)
    ensures Accepts(r) <==> !Damaged(r)
  {
    forall i | 0 <= i < |r.parts|
      ensures PartRight(r, r.parts[i]) && PartListed(r, r.parts[i]) <==> !PartWrong(r, r.parts[i])
    {
      PartMeans(r, r.parts[i]);
    }
    FilesMean(r);
    CountersMean(r);
    PartsMean(r);
  }

  // ----- rows -----

  const PAIR: seq<nat> := [8, 8]
  const SLOT: seq<nat> := [1, 1]
  const FILE: seq<nat> := [8, 8, 1, 8]
  const LISTED: seq<nat> := [8, 8, 1, 8, 8, 4]
  const OCCUPIED: seq<nat> := [8, 1, 8, 8]
  const PART: seq<nat> := [8, 1, 8, 8, 8, 8, 8, 8, 8, 8, 8, 8]

  function OfGeneration(g: Generation): seq<nat> { [g.number, g.lsn] }

  function ToGeneration(row: seq<nat>): Generation { Generation(Nth(row, 0), Nth(row, 1)) }

  function OfSlot(s: Slot): seq<nat> { [s.prior, s.now] }

  function ToSlot(row: seq<nat>): Slot { Slot(Nth(row, 0), Nth(row, 1)) }

  function OfFile(f: FileId): seq<nat> { [f.table, f.generation, f.kind, f.segment] }

  function ToFile(row: seq<nat>): FileId { FileId(Nth(row, 0), Nth(row, 1), Nth(row, 2), Nth(row, 3)) }

  function OfListed(f: FileInfo): seq<nat> {
    [f.file.generation, f.file.table, f.file.kind, f.file.segment, f.size, f.crc]
  }

  function ToListed(row: seq<nat>): FileInfo {
    FileInfo(FileId(Nth(row, 1), Nth(row, 0), Nth(row, 2), Nth(row, 3)), Nth(row, 4), Nth(row, 5))
  }

  function OfOccupied(o: Occupied): seq<nat> { [o.table, o.slot, o.entities, o.dead] }

  function ToOccupied(row: seq<nat>): Occupied { Occupied(Nth(row, 0), Nth(row, 1), Nth(row, 2), Nth(row, 3)) }

  function OfPart(p: PartInfo): seq<nat> {
    [p.file.table, p.file.kind, p.lower.0, p.lower.1, p.file.generation, p.file.segment, p.lsn, p.base,
     p.first.0, p.first.1, p.last.0, p.last.1]
  }

  function ToPart(row: seq<nat>, slots: seq<seq<nat>>, dependencies: seq<seq<nat>>): PartInfo {
    PartInfo((Nth(row, 2), Nth(row, 3)), FileId(Nth(row, 0), Nth(row, 4), Nth(row, 1), Nth(row, 5)),
             Nth(row, 6), Nth(row, 7), (Nth(row, 8), Nth(row, 9)), (Nth(row, 10), Nth(row, 11)),
             Mapped(ToSlot, slots), Mapped(ToFile, dependencies))
  }

  function Mapped<A, B>(f: A -> B, s: seq<A>): (r: seq<B>)
    ensures |r| == |s| && forall i :: 0 <= i < |s| ==> r[i] == f(s[i])
  {
    seq(|s|, i requires 0 <= i < |s| => f(s[i]))
  }

  lemma MappedBack<A(!new), B(!new)>(of: A -> B, to: B -> A, s: seq<A>)
    requires forall x :: to(of(x)) == x
    ensures Mapped(to, Mapped(of, s)) == s
  {
  }

  lemma Widths()
    ensures Width(PAIR) == 16 && Width(SLOT) == 2 && Width(FILE) == 25 && Width(LISTED) == 37
    ensures Width(OCCUPIED) == 25 && Width(PART) == 89
  {
    assert WidthFrom(PART, 11) == 8 && WidthFrom(PART, 10) == 16 && WidthFrom(PART, 9) == 24;
    assert WidthFrom(PART, 8) == 32 && WidthFrom(PART, 7) == 40 && WidthFrom(PART, 6) == 48;
    assert WidthFrom(PART, 5) == 56 && WidthFrom(PART, 4) == 64 && WidthFrom(PART, 3) == 72;
    assert WidthFrom(PART, 2) == 80 && WidthFrom(PART, 1) == 81 && WidthFrom(PART, 0) == 89;
    assert WidthFrom(LISTED, 5) == 4 && WidthFrom(LISTED, 4) == 12 && WidthFrom(LISTED, 3) == 20;
    assert WidthFrom(LISTED, 2) == 21 && WidthFrom(LISTED, 1) == 29 && WidthFrom(LISTED, 0) == 37;
    assert WidthFrom(FILE, 3) == 8 && WidthFrom(FILE, 2) == 9 && WidthFrom(FILE, 1) == 17;
    assert WidthFrom(OCCUPIED, 3) == 8 && WidthFrom(OCCUPIED, 2) == 16 && WidthFrom(OCCUPIED, 1) == 17;
    assert WidthFrom(PAIR, 1) == 8 && WidthFrom(SLOT, 1) == 1;
  }

  // ----- typed lists -----

  function TypedBytes<T>(widths: seq<nat>, of: T -> seq<nat>, items: seq<T>): seq<byte> {
    RowsBytes(widths, Mapped(of, items))
  }

  function ParseTyped<T>(widths: seq<nat>, to: seq<nat> -> T, data: seq<byte>, at: nat): Result<Parsed<seq<T>>> {
    var rows :- ParseRows(widths, data, at);
    Ok(Parsed(Mapped(to, rows.value), rows.next))
  }

  ghost predicate AllFit<T>(widths: seq<nat>, of: T -> seq<nat>, items: seq<T>) {
    |items| <= U64_MAX && forall i :: 0 <= i < |items| ==> RowFits(widths, of(items[i]))
  }

  lemma TypedParses<T(!new)>(
    widths: seq<nat>, of: T -> seq<nat>, to: seq<nat> -> T, data: seq<byte>, at: nat, items: seq<T>, next: nat)
    requires (forall x :: to(of(x)) == x) && AllFit(widths, of, items) && Width(widths) > 0
    requires Holds(data, at, TypedBytes(widths, of, items)) && next == at + |TypedBytes(widths, of, items)|
    ensures Yields<seq<T>>(ParseTyped(widths, to, data, at), items, next)
  {
    RowsParse(data, at, widths, Mapped(of, items), next);
    MappedBack(of, to, items);
  }

  // ----- partitions -----

  function PartBytes(p: PartInfo): seq<byte> {
    Words(PART, OfPart(p)) + (TypedBytes(SLOT, OfSlot, p.slots) + TypedBytes(FILE, OfFile, p.dependencies))
  }

  lemma PartLong(p: PartInfo)
    ensures |PartBytes(p)| >= 105
  {
    Widths();
    RowsLength(SLOT, Mapped(OfSlot, p.slots));
    RowsLength(FILE, Mapped(OfFile, p.dependencies));
  }

  function ParsePart(data: seq<byte>, at: nat): Result<Parsed<PartInfo>> {
    var head :- ParseWords(data, at, PART);
    var slots :- ParseRows(SLOT, data, head.next);
    var dependencies :- ParseRows(FILE, data, slots.next);
    Ok(Parsed(ToPart(head.value, slots.value, dependencies.value), dependencies.next))
  }

  ghost predicate EncodablePart(p: PartInfo) {
    RowFits(PART, OfPart(p)) && AllFit(SLOT, OfSlot, p.slots) && AllFit(FILE, OfFile, p.dependencies)
  }

  lemma PartStands(data: seq<byte>, at: nat, p: PartInfo, slots: nat, dependencies: nat)
    requires Holds(data, at, PartBytes(p)) && slots == at + Width(PART)
    requires dependencies == slots + |TypedBytes(SLOT, OfSlot, p.slots)|
    ensures Holds(data, at, Words(PART, OfPart(p))) && Holds(data, slots, TypedBytes(SLOT, OfSlot, p.slots))
    ensures Holds(data, dependencies, TypedBytes(FILE, OfFile, p.dependencies))
  {
    HoldsThree(data, at, Words(PART, OfPart(p)), TypedBytes(SLOT, OfSlot, p.slots),
               TypedBytes(FILE, OfFile, p.dependencies), slots, dependencies);
  }

  lemma PartYields(
    data: seq<byte>, at: nat, p: PartInfo, head: seq<nat>, slots: seq<seq<nat>>, dependencies: seq<seq<nat>>,
    middle: nat, later: nat, next: nat)
    requires Yields<seq<nat>>(ParseWords(data, at, PART), head, middle)
    requires Yields<seq<seq<nat>>>(ParseRows(SLOT, data, middle), slots, later)
    requires Yields<seq<seq<nat>>>(ParseRows(FILE, data, later), dependencies, next)
    requires ToPart(head, slots, dependencies) == p
    ensures Yields<PartInfo>(ParsePart(data, at), p, next)
  {
  }

  lemma PartBack(p: PartInfo)
    ensures ToPart(OfPart(p), Mapped(OfSlot, p.slots), Mapped(OfFile, p.dependencies)) == p
  {
    MappedBack(OfSlot, ToSlot, p.slots);
    MappedBack(OfFile, ToFile, p.dependencies);
  }

  lemma PartParses(data: seq<byte>, at: nat, p: PartInfo, next: nat)
    requires Holds(data, at, PartBytes(p)) && EncodablePart(p) && next == at + |PartBytes(p)|
    ensures Yields<PartInfo>(ParsePart(data, at), p, next)
  {
    Widths();
    var middle := at + Width(PART);
    var later := middle + |TypedBytes(SLOT, OfSlot, p.slots)|;
    PartStands(data, at, p, middle, later);
    WordsParse(data, at, PART, OfPart(p), middle);
    RowsParse(data, middle, SLOT, Mapped(OfSlot, p.slots), later);
    RowsParse(data, later, FILE, Mapped(OfFile, p.dependencies), next);
    PartBack(p);
    PartYields(data, at, p, OfPart(p), Mapped(OfSlot, p.slots), Mapped(OfFile, p.dependencies), middle, later, next);
  }

  function PartItem(data: seq<byte>): (seq<PartInfo>, nat) -> Result<Parsed<seq<PartInfo>>> {
    (acc: seq<PartInfo>, at: nat) => ParsePartAfter(data, acc, at)
  }

  function ParsePartAfter(data: seq<byte>, acc: seq<PartInfo>, at: nat): Result<Parsed<seq<PartInfo>>> {
    var part :- ParsePart(data, at);
    Ok(Parsed(acc + [part.value], part.next))
  }

  ghost predicate IsPartItem(item: (seq<PartInfo>, nat) -> Result<Parsed<seq<PartInfo>>>, data: seq<byte>) {
    forall same: seq<byte> :: same == data ==> item == PartItem(same)
  }

  lemma PartGives(
    item: (seq<PartInfo>, nat) -> Result<Parsed<seq<PartInfo>>>, data: seq<byte>, acc: seq<PartInfo>, at: nat,
    p: PartInfo, next: nat)
    requires IsPartItem(item, data) && Holds(data, at, PartBytes(p)) && EncodablePart(p) && next == at + |PartBytes(p)|
    ensures Gives<seq<PartInfo>>(item, at, acc, Parsed(acc + [p], next))
  {
    PartParses(data, at, p, next);
    assert item == PartItem(data);
  }

  lemma PartRead(
    item: (seq<PartInfo>, nat) -> Result<Parsed<seq<PartInfo>>>, data: seq<byte>, parts: seq<PartInfo>, k: nat, at: nat)
    requires IsPartItem(item, data) && k < |parts| && EncodablePart(parts[k])
    ensures ReadsItem(item, PartBytes, data, parts, k, at)
  {
    var bytes := PartBytes(parts[k]);
    if Holds(data, at, bytes) {
      PartGives(item, data, parts[..k], at, parts[k], at + |bytes|);
    }
    ReadsGiven(item, PartBytes, data, parts, k, at, bytes);
  }

  ghost predicate EncodableParts(parts: seq<PartInfo>) {
    |parts| <= U64_MAX && forall i :: 0 <= i < |parts| ==> EncodablePart(parts[i])
  }

  lemma PartsRead(item: (seq<PartInfo>, nat) -> Result<Parsed<seq<PartInfo>>>, data: seq<byte>, parts: seq<PartInfo>)
    requires IsPartItem(item, data) && EncodableParts(parts)
    ensures ReadsAll(item, PartBytes, data, parts)
  {
    forall k: nat, at: nat ensures ReadsItem(item, PartBytes, data, parts, k, at) {
      if k < |parts| {
        PartRead(item, data, parts, k, at);
      }
    }
  }

  function PartsBytes(parts: seq<PartInfo>): seq<byte> {
    Counted(PartBytes, parts)
  }

  function ParseParts(data: seq<byte>, at: nat): Result<Parsed<seq<PartInfo>>> {
    ParseCounted(PartItem(data), 105, data, at)
  }

  lemma PartsParse(data: seq<byte>, at: nat, parts: seq<PartInfo>, next: nat)
    requires Holds(data, at, PartsBytes(parts)) && EncodableParts(parts) && next == at + |PartsBytes(parts)|
    ensures Yields<seq<PartInfo>>(ParseParts(data, at), parts, next)
  {
    forall i | 0 <= i < |parts| ensures |PartBytes(parts[i])| >= 105 {
      PartLong(parts[i]);
    }
    ManyAtLeast(PartBytes, 105, parts);
    PartsRead(PartItem(data), data, parts);
    CountedParses(PartItem(data), PartBytes, 105, data, at, parts, next);
  }

  // ----- tables -----

  function TableItem(data: seq<byte>): (seq<Table>, nat) -> Result<Parsed<seq<Table>>> {
    (acc: seq<Table>, at: nat) => ParseTableAfter(data, acc, at)
  }

  function ParseTableAfter(data: seq<byte>, acc: seq<Table>, at: nat): Result<Parsed<seq<Table>>> {
    var table :- ParseTable(data, at);
    Ok(Parsed(acc + [table.value], table.next))
  }

  ghost predicate IsTableItem(item: (seq<Table>, nat) -> Result<Parsed<seq<Table>>>, data: seq<byte>) {
    forall same: seq<byte> :: same == data ==> item == TableItem(same)
  }

  lemma TableGives(
    item: (seq<Table>, nat) -> Result<Parsed<seq<Table>>>, data: seq<byte>, acc: seq<Table>, at: nat, table: Table,
    next: nat)
    requires IsTableItem(item, data) && EncodableTable(table)
    requires Holds(data, at, TableBytes(table)) && next == at + TableLength(table)
    ensures Gives<seq<Table>>(item, at, acc, Parsed(acc + [table], next))
  {
    TableParses(data, at, table, next);
    assert item == TableItem(data);
  }

  lemma TableRead(
    item: (seq<Table>, nat) -> Result<Parsed<seq<Table>>>, data: seq<byte>, tables: seq<Table>, k: nat, at: nat)
    requires IsTableItem(item, data) && k < |tables| && EncodableTable(tables[k])
    ensures ReadsItem(item, TableBytes, data, tables, k, at)
  {
    var bytes := TableBytes(tables[k]);
    if Holds(data, at, bytes) {
      TableGives(item, data, tables[..k], at, tables[k], at + |bytes|);
    }
    ReadsGiven(item, TableBytes, data, tables, k, at, bytes);
  }

  ghost predicate EncodableTables(tables: seq<Table>) {
    |tables| <= U64_MAX && forall i :: 0 <= i < |tables| ==> EncodableTable(tables[i])
  }

  lemma TablesRead(item: (seq<Table>, nat) -> Result<Parsed<seq<Table>>>, data: seq<byte>, tables: seq<Table>)
    requires IsTableItem(item, data) && EncodableTables(tables)
    ensures ReadsAll(item, TableBytes, data, tables)
  {
    forall k: nat, at: nat ensures ReadsItem(item, TableBytes, data, tables, k, at) {
      if k < |tables| {
        TableRead(item, data, tables, k, at);
      }
    }
  }

  function TablesBytes(tables: seq<Table>): seq<byte> {
    Counted(TableBytes, tables)
  }

  function ParseTables(data: seq<byte>, at: nat): Result<Parsed<seq<Table>>> {
    ParseCounted(TableItem(data), 25, data, at)
  }

  lemma TablesParse(data: seq<byte>, at: nat, tables: seq<Table>, next: nat)
    requires Holds(data, at, TablesBytes(tables)) && EncodableTables(tables) && next == at + |TablesBytes(tables)|
    ensures Yields<seq<Table>>(ParseTables(data, at), tables, next)
  {
    forall i | 0 <= i < |tables| ensures |TableBytes(tables[i])| >= 25 {
      assert EncodableTable(tables[i]) && ValidName(tables[i].name);
    }
    ManyAtLeast(TableBytes, 25, tables);
    TablesRead(TableItem(data), data, tables);
    CountedParses(TableItem(data), TableBytes, 25, data, at, tables, next);
  }

  // ----- a whole manifest -----

  /** The part after the partitions. */
  datatype Rest = Rest(compacted: bool, histories: seq<Generation>, files: seq<FileInfo>, occupied: seq<Occupied>)

  function RestBytes(r: Rest): seq<byte> {
    [if r.compacted then 1 else 0]
    + (TypedBytes(PAIR, OfGeneration, r.histories)
       + (TypedBytes(LISTED, OfListed, r.files) + TypedBytes(OCCUPIED, OfOccupied, r.occupied)))
  }

  function ParseRest(data: seq<byte>, at: nat): Result<Parsed<Rest>> {
    var compacted :- ParseFlag(data, at);
    var histories :- ParseTyped(PAIR, ToGeneration, data, compacted.next);
    var files :- ParseTyped(LISTED, ToListed, data, histories.next);
    var occupied :- ParseTyped(OCCUPIED, ToOccupied, data, files.next);
    Ok(Parsed(Rest(compacted.value, histories.value, files.value, occupied.value), occupied.next))
  }

  ghost predicate EncodableRest(r: Rest) {
    AllFit(PAIR, OfGeneration, r.histories) && AllFit(LISTED, OfListed, r.files)
    && AllFit(OCCUPIED, OfOccupied, r.occupied)
  }

  lemma RestYields(data: seq<byte>, at: nat, r: Rest, a: nat, b: nat, c: nat, next: nat)
    requires Yields<bool>(ParseFlag(data, at), r.compacted, a)
    requires Yields<seq<Generation>>(ParseTyped(PAIR, ToGeneration, data, a), r.histories, b)
    requires Yields<seq<FileInfo>>(ParseTyped(LISTED, ToListed, data, b), r.files, c)
    requires Yields<seq<Occupied>>(ParseTyped(OCCUPIED, ToOccupied, data, c), r.occupied, next)
    ensures Yields<Rest>(ParseRest(data, at), r, next)
  {
  }

  /** Where the lists after the flag stand. */
  lemma RestStands(data: seq<byte>, at: nat, r: Rest, a: nat, b: nat, c: nat)
    requires Holds(data, at, RestBytes(r)) && a == at + 1
    requires b == a + |TypedBytes(PAIR, OfGeneration, r.histories)| && c == b + |TypedBytes(LISTED, OfListed, r.files)|
    ensures Yields<bool>(ParseFlag(data, at), r.compacted, a)
    ensures Holds(data, a, TypedBytes(PAIR, OfGeneration, r.histories))
    ensures Holds(data, b, TypedBytes(LISTED, OfListed, r.files))
    ensures Holds(data, c, TypedBytes(OCCUPIED, OfOccupied, r.occupied))
  {
    AfterFlag(data, at, r.compacted, TypedBytes(PAIR, OfGeneration, r.histories), TypedBytes(LISTED, OfListed, r.files),
              TypedBytes(OCCUPIED, OfOccupied, r.occupied), a, b, c);
  }

  lemma AfterFlag(
    data: seq<byte>, at: nat, flag: bool, h: seq<byte>, f: seq<byte>, o: seq<byte>, a: nat, b: nat, c: nat)
    requires Holds(data, at, [if flag then 1 else 0] + (h + (f + o))) && a == at + 1 && b == a + |h| && c == b + |f|
    ensures Yields<bool>(ParseFlag(data, at), flag, a) && Holds(data, a, h) && Holds(data, b, f) && Holds(data, c, o)
  {
    FlagParses(data, at, flag, h + (f + o));
    HoldsThree(data, a, h, f, o, b, c);
  }

  lemma RestParses(data: seq<byte>, at: nat, r: Rest, a: nat, b: nat, c: nat, next: nat)
    requires Holds(data, at, RestBytes(r)) && EncodableRest(r) && a == at + 1
    requires b == a + |TypedBytes(PAIR, OfGeneration, r.histories)| && c == b + |TypedBytes(LISTED, OfListed, r.files)|
    requires next == c + |TypedBytes(OCCUPIED, OfOccupied, r.occupied)|
    ensures Yields<Rest>(ParseRest(data, at), r, next)
  {
    Widths();
    RestStands(data, at, r, a, b, c);
    TypedParses(PAIR, OfGeneration, ToGeneration, data, a, r.histories, b);
    TypedParses(LISTED, OfListed, ToListed, data, b, r.files, c);
    TypedParses(OCCUPIED, OfOccupied, ToOccupied, data, c, r.occupied, next);
    RestYields(data, at, r, a, b, c, next);
  }

  lemma RestParsesAll(data: seq<byte>, at: nat, r: Rest, next: nat)
    requires Holds(data, at, RestBytes(r)) && EncodableRest(r) && next == at + |RestBytes(r)|
    ensures Yields<Rest>(ParseRest(data, at), r, next)
  {
    var a := at + 1;
    var b := a + |TypedBytes(PAIR, OfGeneration, r.histories)|;
    RestParses(data, at, r, a, b, b + |TypedBytes(LISTED, OfListed, r.files)|, next);
  }

  function RestOf(r: Root): Rest {
    Rest(r.compacted, r.histories, r.files, r.occupied)
  }

  /** Root::encode. */
  function RootBytes(r: Root): seq<byte> {
    Words(PAIR, [r.generation, r.lsn])
    + (TablesBytes(r.tables)
       + (TypedBytes(PAIR, OfGeneration, r.generations) + (PartsBytes(r.parts) + RestBytes(RestOf(r)))))
  }

  /** The lists of a manifest, without the checks. */
  function ParseLists(data: seq<byte>): Result<Parsed<Root>> {
    var head :- ParseWords(data, 0, PAIR);
    var tables :- ParseTables(data, head.next);
    var generations :- ParseTyped(PAIR, ToGeneration, data, tables.next);
    var parts :- ParseParts(data, generations.next);
    var rest :- ParseRest(data, parts.next);
    Ok(Parsed(Root(Nth(head.value, 0), Nth(head.value, 1), tables.value, generations.value, parts.value,
                   rest.value.compacted, rest.value.histories, rest.value.files, rest.value.occupied), rest.next))
  }

  /** Root::decode. */
  function ParseRoot(data: seq<byte>): Result<Root> {
    var r :- ParseLists(data);
    if r.next != |data| || !Accepts(r.value) then Err(Corrupt) else Ok(r.value)
  }

  ghost predicate EncodableRoot(r: Root) {
    && RowFits(PAIR, [r.generation, r.lsn]) && EncodableTables(r.tables)
    && AllFit(PAIR, OfGeneration, r.generations) && EncodableParts(r.parts) && EncodableRest(RestOf(r))
  }

  lemma ListsYield(data: seq<byte>, r: Root, a: nat, b: nat, c: nat, d: nat, next: nat)
    requires Yields<seq<nat>>(ParseWords(data, 0, PAIR), [r.generation, r.lsn], a)
    requires Yields<seq<Table>>(ParseTables(data, a), r.tables, b)
    requires Yields<seq<Generation>>(ParseTyped(PAIR, ToGeneration, data, b), r.generations, c)
    requires Yields<seq<PartInfo>>(ParseParts(data, c), r.parts, d)
    requires Yields<Rest>(ParseRest(data, d), RestOf(r), next)
    ensures Yields<Root>(ParseLists(data), r, next)
  {
  }

  /** Where the lists stand. */
  lemma ListsStand(data: seq<byte>, r: Root, a: nat, b: nat, c: nat, d: nat)
    requires Holds(data, 0, RootBytes(r)) && a == Width(PAIR) && b == a + |TablesBytes(r.tables)|
    requires c == b + |TypedBytes(PAIR, OfGeneration, r.generations)| && d == c + |PartsBytes(r.parts)|
    ensures Holds(data, 0, Words(PAIR, [r.generation, r.lsn])) && Holds(data, a, TablesBytes(r.tables))
    ensures Holds(data, b, TypedBytes(PAIR, OfGeneration, r.generations)) && Holds(data, c, PartsBytes(r.parts))
    ensures Holds(data, d, RestBytes(RestOf(r)))
    ensures |RootBytes(r)| == d + |RestBytes(RestOf(r))|
  {
    FiveStand(data, Words(PAIR, [r.generation, r.lsn]), TablesBytes(r.tables),
              TypedBytes(PAIR, OfGeneration, r.generations), PartsBytes(r.parts), RestBytes(RestOf(r)), a, b, c, d);
  }

  lemma FiveStand(
    data: seq<byte>, h: seq<byte>, t: seq<byte>, g: seq<byte>, p: seq<byte>, rest: seq<byte>, a: nat, b: nat, c: nat,
    d: nat)
    requires Holds(data, 0, h + (t + (g + (p + rest)))) && a == |h| && b == a + |t| && c == b + |g| && d == c + |p|
    ensures Holds(data, 0, h) && Holds(data, a, t) && Holds(data, b, g) && Holds(data, c, p) && Holds(data, d, rest)
    ensures |h + (t + (g + (p + rest)))| == d + |rest|
  {
    HoldsThree(data, 0, h, t, g + (p + rest), a, b);
    HoldsThree(data, b, g, p, rest, c, d);
  }

  lemma ListsParse(data: seq<byte>, r: Root)
    requires Holds(data, 0, RootBytes(r)) && EncodableRoot(r)
    ensures Yields<Root>(ParseLists(data), r, |RootBytes(r)|)
  {
    Widths();
    var a := Width(PAIR);
    var b := a + |TablesBytes(r.tables)|;
    var c := b + |TypedBytes(PAIR, OfGeneration, r.generations)|;
    var d := c + |PartsBytes(r.parts)|;
    ListsStand(data, r, a, b, c, d);
    WordsParse(data, 0, PAIR, [r.generation, r.lsn], a);
    TablesParse(data, a, r.tables, b);
    TypedParses(PAIR, OfGeneration, ToGeneration, data, b, r.generations, c);
    PartsParse(data, c, r.parts, d);
    RestParsesAll(data, d, RestOf(r), |RootBytes(r)|);
    ListsYield(data, r, a, b, c, d, |RootBytes(r)|);
  }

  /** An encoded manifest decodes to itself, unless it is damaged: then it is refused. */
  lemma RootRoundTrip(r: Root)
    requires EncodableRoot(r)
    ensures ParseRoot(RootBytes(r)) == if Damaged(r) then Err(Corrupt) else Ok(r)
  {
    RefusedWhenDamaged(r);
    var data := RootBytes(r);
    assert data[0..0 + |data|] == data;
    assert Stands(data, 0, data);
    ListsParse(data, r);
  }
}
