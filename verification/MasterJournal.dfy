/**
  The master's journal: its entries, and what replaying one does to a file manager.
 */
module MasterJournal {
  import opened Options
  import opened SheetCells
  import opened SheetFiles
  import opened SheetLoading

  // ---- file managers

  /** A directory entry. */
  datatype MapEntry = MapEntry(fileName: string, tableName: string, recycled: bool)

  /** What the database keeps of the metadata. */
  datatype Database = Database(entries: map<string, MapEntry>, tables: map<string, seq<Cell>>, infos: map<nat, Info>)

  datatype Manager = Manager(entries: map<string, MapEntry>, openFiles: map<string, Sheet>,
                             fds: map<nat, string>, nextFd: nat, db: Database)

  function LoadSheetFile(db: Database, name: string): (f: Sheet) {
    Load(if name in db.tables then db.tables[name] else [], db.infos)
  }

  /** A manager just loaded: no file is open yet. */
  function LoadFileManager(db: Database): (m: Manager) {
    Manager(db.entries, map[], map[], 0, db)
  }

  const EMPTY_DATABASE := Database(map[], map[], map[])

  /** The file called `name`, in memory or else as it would be loaded. */
  function FileAt(m: Manager, name: string): (f: Sheet) {
    if name in m.openFiles then m.openFiles[name] else LoadSheetFile(m.db, name)
  }

  // ---- entries

  datatype State = Present | Absent

  datatype FileMapEntry = FileMapEntry(target: State, fileName: string, tableName: string, recycled: bool)
  datatype CellEntry = CellEntry(target: State, cellId: int, offset: nat, size: nat, chunkId: nat, sheetName: string)
  datatype ChunkEntry = ChunkEntry(target: State, id: nat, version: nat, dataNode: string)

  datatype MasterEntry = MasterEntry(cell: Option<CellEntry>, chunk: Option<ChunkEntry>, mapEntry: Option<FileMapEntry>)

  function FromSheetCell(c: Cell, name: string): (e: CellEntry) {
    CellEntry(Present, c.cellId, c.offset, c.size, c.chunkId, name)
  }

  function ToSheetCell(e: CellEntry): (c: Cell) { Cell(e.cellId, e.offset, e.size, e.chunkId) }

  function FromSheetChunk(c: Chunk): (e: ChunkEntry) { ChunkEntry(Present, c.id, c.version, c.dataNode) }

  /** Keeps the list of the chunk that is overwritten. */
  function ToSheetChunk(e: ChunkEntry, cells: seq<Cell>): (c: Chunk) { Chunk(e.id, e.dataNode, e.version, cells) }

  function FromMgrEntry(e: MapEntry): (r: FileMapEntry) { FileMapEntry(Present, e.fileName, e.tableName, e.recycled) }

  function ToMgrEntry(e: FileMapEntry): (r: MapEntry) { MapEntry(e.fileName, e.tableName, e.recycled) }

  /** A journaled cell or directory entry is read back unchanged; of a chunk, everything but the list is. */
  lemma ConversionsInvert(c: Cell, name: string, chunk: Chunk, e: MapEntry)
    ensures ToSheetCell(FromSheetCell(c, name)) == c && FromSheetCell(c, name).sheetName == name
    ensures ToSheetChunk(FromSheetChunk(chunk), chunk.cells) == chunk
    ensures ToMgrEntry(FromMgrEntry(e)) == e
  {
  }

  // ---- replaying one entry

  function HandleMapEntry(entries: map<string, MapEntry>, e: FileMapEntry): (r: map<string, MapEntry>) {
    match e.target
    case Present => entries[e.fileName := ToMgrEntry(e)]
    case Absent => entries - {e.fileName}
  }

  function HandleChunkEntry(f: Sheet, e: ChunkEntry): (r: Sheet) {
    match e.target
    case Present =>
      f.(chunks := f.chunks[e.id := ToSheetChunk(e, if e.id in f.chunks then f.chunks[e.id].cells else [])])
    case Absent => f.(chunks := f.chunks - {e.id})
  }

  /** The list with `x` in the place of the cell with its id, or behind the others. */
  function Place(cells: seq<Cell>, x: Cell): (r: seq<Cell>) {
    if cells == [] then [x]
    else if cells[0].cellId == x.cellId then [x] + cells[1..]
    else [cells[0]] + Place(cells[1..], x)
  }

  function HandleCellEntry(f: Sheet, e: CellEntry): (r: Sheet)
    requires e.target == Present ==> e.chunkId in f.chunks
  {
    match e.target
    case Present =>
      var x := ToSheetCell(e);
      var chunk := f.chunks[x.chunkId];
      f.(cells := f.cells[x.cellId := x], chunks := f.chunks[x.chunkId := chunk.(cells := Place(chunk.cells, x))])
    case Absent => f.(cells := f.cells - {e.cellId})
  }

  /** Replays `e`; false if the entry is refused as invalid. The directory part takes effect in any case. */
  function HandleMasterEntry(m: Manager, e: MasterEntry): (r: (Manager, bool)) {
    var entries := if e.mapEntry.Some? then HandleMapEntry(m.entries, e.mapEntry.value) else m.entries;
    var m1 := m.(entries := entries);
    if e.cell.None? && e.chunk.None? then (m1, true)
    else if e.cell.None? || e.chunk.None? then (m1, false)
    else
      var (cell, chunk) := (e.cell.value, e.chunk.value);
      if cell.chunkId != chunk.id || cell.target != chunk.target then (m1, false)
      else if cell.sheetName !in entries then (m1, false)
      else
        var f := HandleChunkEntry(FileAt(m, cell.sheetName), chunk);
        (m1.(openFiles := m.openFiles[cell.sheetName := HandleCellEntry(f, cell)]), true)
  }

  // ---- a manager as a table of values

  /** What an entry can write to. */
  datatype Key = FileKey(name: string) | CellKey(name: string, cell: int) | ChunkKey(name: string, chunk: nat)
  datatype Value = FileValue(e: MapEntry) | CellValue(c: Cell) | ChunkValue(i: Info)

  ghost function SheetLook(f: Sheet, k: Key): (v: Option<Value>)
    requires !k.FileKey?
  {
    match k
    case CellKey(_, i) => if i in f.cells then Some(CellValue(f.cells[i])) else None
    case ChunkKey(_, c) =>
      if c in f.chunks then Some(ChunkValue(Info(f.chunks[c].dataNode, f.chunks[c].version))) else None
  }

  ghost function Look(m: Manager, k: Key): (v: Option<Value>) {
    if k.FileKey? then
      if k.name in m.entries then Some(FileValue(m.entries[k.name])) else None
    else SheetLook(FileAt(m, k.name), k)
  }

  /** An entry as the source writes them: no removals, a cell together with its chunk. */
  ghost predicate Proper(e: MasterEntry) {
    && (e.mapEntry.Some? ==> e.mapEntry.value.target == Present)
    && e.cell.Some? == e.chunk.Some?
    && (e.cell.Some? ==>
      e.cell.value.target == e.chunk.value.target == Present && e.cell.value.chunkId == e.chunk.value.id)
  }

  /** What a proper entry writes to `k`, if anything. */
  ghost function WrittenTo(e: MasterEntry, k: Key): (v: Option<Value>) {
    match k
    case FileKey(n) =>
      if e.mapEntry.Some? && e.mapEntry.value.fileName == n then Some(FileValue(ToMgrEntry(e.mapEntry.value))) else None
    case CellKey(n, i) =>
      if e.cell.Some? && e.cell.value.sheetName == n && e.cell.value.cellId == i
      then Some(CellValue(ToSheetCell(e.cell.value))) else None
    case ChunkKey(n, c) =>
      if e.cell.Some? && e.chunk.Some? && e.cell.value.sheetName == n && e.chunk.value.id == c
      then Some(ChunkValue(Info(e.chunk.value.dataNode, e.chunk.value.version))) else None
  }

  /** Written over what was there. */
  ghost function Over(v: Option<Value>, was: Option<Value>): (r: Option<Value>) { if v.Some? then v else was }

  /** The entry's file is in the directory, at the latest because the entry itself puts it there. */
  ghost predicate Placeable(entries: map<string, MapEntry>, e: MasterEntry) {
    e.cell.Some? ==>
      e.cell.value.sheetName in entries || (e.mapEntry.Some? && e.mapEntry.value.fileName == e.cell.value.sheetName)
  }

  /** A proper entry is accepted exactly if its file is known; it then writes what it says and nothing else. */
  lemma HandleWrites(m: Manager, e: MasterEntry, k: Key)
    requires Proper(e)
    ensures var (m', ok) := HandleMasterEntry(m, e);
      && (ok <==> Placeable(m.entries, e))
      && (ok ==> Look(m', k) == Over(WrittenTo(e, k), Look(m, k)))
      && m'.db == m.db && m'.fds == m.fds && m'.nextFd == m.nextFd
  {
    hide Place, LoadSheetFile;
  }

  /** Only one of cell and chunk, or two that do not belong together, or a file the directory does not have. */
  ghost predicate Faulty(entries: map<string, MapEntry>, e: MasterEntry) {
    || e.cell.Some? != e.chunk.Some?
    || (e.cell.Some? && (e.cell.value.chunkId != e.chunk.value.id || e.cell.value.target != e.chunk.value.target
                         || e.cell.value.sheetName !in entries))
  }

  /** The directory after the entry's part for it: one name is set or removed. */
  lemma DirectoryPart(m: Manager, e: MasterEntry, name: string)
    ensures var m' := HandleMasterEntry(m, e).0;
      if e.mapEntry.Some? && e.mapEntry.value.fileName == name then
        var x := e.mapEntry.value;
        && (name in m'.entries <==> x.target == Present)
        && (x.target == Present ==> m'.entries[name] == MapEntry(name, x.tableName, x.recycled))
      else (name in m'.entries <==> name in m.entries) && (name in m.entries ==> m'.entries[name] == m.entries[name])
  {
    hide FileAt, Place;
  }

  /** An entry is refused exactly if it is faulty, and then, as without a cell, no file changes. */
  lemma FaultyRefused(m: Manager, e: MasterEntry)
    ensures var (m', ok) := HandleMasterEntry(m, e);
      && (!ok <==> Faulty(m'.entries, e))
      && (!ok || e.cell.None? ==> m'.openFiles == m.openFiles)
      && m'.db == m.db && m'.fds == m.fds && m'.nextFd == m.nextFd
  {
    hide FileAt, Place;
  }

  /** An accepted entry with target state ABSENT removes its cell and its chunk, and nothing else. */
  lemma AbsentRemoves(m: Manager, e: MasterEntry, k: Key)
    requires e.cell.Some? && e.cell.value.target == Absent && HandleMasterEntry(m, e).1 && !k.FileKey?
    ensures Look(HandleMasterEntry(m, e).0, k) ==
      if k == CellKey(e.cell.value.sheetName, e.cell.value.cellId)
         || k == ChunkKey(e.cell.value.sheetName, e.cell.value.chunkId) then None else Look(m, k)
  {
    hide Place, LoadSheetFile;
  }

  // ---- replaying keeps lists and cells in step

  /** The list of chunk `c` holds exactly its cells, each once. */
  ghost predicate Listed(cells: map<int, Cell>, c: nat, chunk: Chunk) {
    chunk.id == c && multiset(chunk.cells) == multiset(CellsOf(cells, c))
  }

  ghost predicate Agrees(f: Sheet) {
    && (forall c :: c in f.chunks ==> Listed(f.cells, c, f.chunks[c]))
    && (forall k :: k in f.cells ==> Located(f.chunks, k, f.cells[k]))
    && (f.last.Some? ==> f.last.value in f.chunks)
  }

  /** Every chunk of the sheet has its cells in slots of their own. */
  ghost predicate AllSlotted(f: Sheet) {
    forall c :: c in f.chunks ==> Slotted(CellsOf(f.cells, c))
  }

  lemma LayoutParts(f: Sheet)
    ensures Layout(f) <==> Agrees(f) && AllSlotted(f)
  {
    hide Slotted, CellsOf, Located;
    if Layout(f) {
      assert forall c :: c in f.chunks ==> Fits(f.cells, c, f.chunks[c]);
    }
    if Agrees(f) && AllSlotted(f) {
      assert forall c :: c in f.chunks ==> Listed(f.cells, c, f.chunks[c]);
    }
  }

  lemma {:induction false} PlaceNew(cells: seq<Cell>, x: Cell)
    requires forall y :: y in cells ==> y.cellId != x.cellId
    ensures Place(cells, x) == cells + [x]
  {
    if cells != [] {
      PlaceNew(cells[1..], x);
      assert cells == [cells[0]] + cells[1..];
    }
  }

  lemma {:induction false} PlaceSame(cells: seq<Cell>, x: Cell)
    requires x in cells && forall y :: y in cells && y.cellId == x.cellId ==> y == x
    ensures Place(cells, x) == cells
  {
    assert cells == [cells[0]] + cells[1..];
    if cells[0] != x {
      PlaceSame(cells[1..], x);
    }
  }

  /** The first cell with the same id is replaced where it stands. */
  lemma {:induction false} PlaceReplaces(cells: seq<Cell>, x: Cell, i: nat)
    requires i < |cells| && cells[i].cellId == x.cellId && forall j :: 0 <= j < i ==> cells[j].cellId != x.cellId
    ensures Place(cells, x) == cells[i := x]
  {
    assert cells == [cells[0]] + cells[1..];
    if i > 0 {
      PlaceReplaces(cells[1..], x, i - 1);
    }
  }

  /** The cells listed for a chunk are those of the sheet. */
  lemma ListedCells(f: Sheet, c: nat)
    requires Agrees(f) && c in f.chunks
    ensures forall x :: x in f.chunks[c].cells <==> x.cellId in f.cells && f.cells[x.cellId] == x && x.chunkId == c
  {
    assert Listed(f.cells, c, f.chunks[c]);
    SameCells(f.chunks[c].cells, CellsOf(f.cells, c));
    assert forall k :: k in f.cells ==> Located(f.chunks, k, f.cells[k]);
    forall x ensures x in CellsOf(f.cells, c) <==> x.cellId in f.cells && f.cells[x.cellId] == x && x.chunkId == c {
      if x in CellsOf(f.cells, c) {
        var k :| k in f.cells && f.cells[k] == x;
        assert Located(f.chunks, k, x);
      }
    }
  }

  /** Replaying a write: a chunk entry and a cell entry of the same chunk. */
  function Replayed(f: Sheet, chunk: ChunkEntry, cell: CellEntry): (f': Sheet)
    requires chunk.target == cell.target == Present && cell.chunkId == chunk.id
  {
    HandleCellEntry(HandleChunkEntry(f, chunk), cell)
  }

  /** What replaying does to the lists, if it does not change a cell that is there. */
  lemma ReplayedParts(f: Sheet, chunk: ChunkEntry, cell: CellEntry)
    requires chunk.target == cell.target == Present && cell.chunkId == chunk.id && Agrees(f)
    requires cell.cellId in f.cells ==> f.cells[cell.cellId] == ToSheetCell(cell)
    ensures var f' := Replayed(f, chunk, cell); var x := ToSheetCell(cell);
      var was := if chunk.id in f.chunks then f.chunks[chunk.id].cells else [];
      && f'.last == f.last && f'.cells == f.cells[x.cellId := x]
      && f'.chunks == f.chunks[chunk.id := ToSheetChunk(chunk, if x.cellId in f.cells then was else was + [x])]
  {
    var x := ToSheetCell(cell);
    var was := if chunk.id in f.chunks then f.chunks[chunk.id].cells else [];
    hide Listed;
    if x.cellId in f.cells {
      assert Located(f.chunks, x.cellId, x);
      ListedCells(f, x.chunkId);
      PlaceSame(was, x);
    } else {
      if chunk.id in f.chunks {
        ListedCells(f, chunk.id);
      }
      PlaceNew(was, x);
    }
  }

  lemma NoneThere(f: Sheet, c: nat)
    requires Agrees(f) && c !in f.chunks
    ensures CellsOf(f.cells, c) == {}
  {
    hide Listed;
    assert forall k :: k in f.cells ==> Located(f.chunks, k, f.cells[k]);
  }

  lemma GrownListed(f: Sheet, x: Cell, c: nat, chunk: Chunk)
    requires Agrees(f) && x.cellId !in f.cells
    requires if c == x.chunkId
      then chunk.id == c && chunk.cells == (if c in f.chunks then f.chunks[c].cells else []) + [x]
             else c in f.chunks && chunk == f.chunks[c]
    ensures Listed(f.cells[x.cellId := x], c, chunk)
  {
    assert c in f.chunks ==> Listed(f.cells, c, f.chunks[c]);
    assert forall k :: k in f.cells ==> Located(f.chunks, k, f.cells[k]) && f.cells[k].cellId == k;
    CellsGrow(f.cells, x, c);
    if c !in f.chunks {
      NoneThere(f, c);
    }
    hide CellsOf;
    assert c == x.chunkId ==> multiset(CellsOf(f.cells, c) + {x}) == multiset(CellsOf(f.cells, c)) + multiset{x};
  }

  lemma ReplayedAgrees(f: Sheet, chunk: ChunkEntry, cell: CellEntry)
    requires chunk.target == cell.target == Present && cell.chunkId == chunk.id && Agrees(f)
    requires cell.cellId in f.cells ==> f.cells[cell.cellId] == ToSheetCell(cell)
    ensures Agrees(Replayed(f, chunk, cell))
  {
    var f' := Replayed(f, chunk, cell);
    var x := ToSheetCell(cell);
    ReplayedParts(f, chunk, cell);
    hide Replayed, CellsOf;
    forall k | k in f'.cells ensures Located(f'.chunks, k, f'.cells[k]) {
      assert k in f.cells ==> Located(f.chunks, k, f.cells[k]);
    }
    forall c | c in f'.chunks ensures Listed(f'.cells, c, f'.chunks[c]) {
      assert c in f.chunks ==> Listed(f.cells, c, f.chunks[c]);
      if x.cellId in f.cells {
        assert f.cells[x.cellId := x] == f.cells;
        assert Located(f.chunks, x.cellId, x);
      } else {
        GrownListed(f, x, c, f'.chunks[c]);
      }
    }
  }

  // ---- a write is what replaying its entry would have done

  lemma WriteReplays(f: Sheet, r: Request, name: string)
    requires Layout(f) && r.id !in f.chunks
    ensures var w := WriteCell(f, r.row, r.col, r.node, r.id); w.Some? ==>
      var f' := Replayed(f, FromSheetChunk(w.value.chunk), FromSheetCell(w.value.cell, name));
      w.value.sheet == f'.(last := w.value.sheet.last)
  {
    LayoutParts(f);
    WriteBranch(f, r);
    WriteMeans(f, r.row, r.col, r.node, r.id);
    var w := WriteCell(f, r.row, r.col, r.node, r.id);
    hide WriteCell, GetCellID, Layout, Replayed, SizeOfNew, Current, Agrees;
    if w.Some? {
      ReplayedParts(f, FromSheetChunk(w.value.chunk), FromSheetCell(w.value.cell, name));
    }
  }

  lemma CreateReplays(node: string, id: nat, name: string)
    ensures var w := Create(node, id);
      w.sheet == Replayed(NO_SHEET, FromSheetChunk(w.chunk), FromSheetCell(w.cell, name))
  {
    var w := Create(node, id);
    ReplayedParts(NO_SHEET, FromSheetChunk(w.chunk), FromSheetCell(w.cell, name));
  }
}
