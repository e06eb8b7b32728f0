/**
  What the master's file manager does for its clients while it is the primary.
  Every operation that changes metadata journals one entry, and that entry says
  exactly what the operation did.
 */
module MasterPrimary {
  import opened Options
  import opened SheetCells
  import opened SheetFiles
  import opened SheetLoading
  import opened MasterJournal

  datatype Error = FileExists | FileNotFound | FdNotFound | NoDataNodes

  datatype Reply = Fd(fd: nat) | Done | Placed(cell: Cell, chunk: Chunk) | Failed(error: Error)

  /** The manager after an operation, the entry it journaled, and its answer. */
  datatype Step = Step(m: Manager, entry: Option<MasterEntry>, reply: Reply)

  /** `node` is the allocator's answer, `id` the id the database gives the next chunk. */
  datatype Operation =
    | CreateSheet(name: string, node: Option<string>, id: nat)
    | OpenSheet(name: string)
    | RecycleSheet(name: string)
    | ResumeSheet(name: string)
    | WriteFileCell(fd: nat, r: Request)

  function TableName(name: string): (t: string) { "cells_" + name }

  function WithFd(m: Manager, name: string): (m': Manager) {
    m.(fds := m.fds[m.nextFd := name], nextFd := m.nextFd + 1)
  }

  function Creating(m: Manager, name: string, node: Option<string>, id: nat): (s: Step) {
    if name in m.entries then Step(m, None, Failed(FileExists))
    else if node.None? then Step(m, None, Failed(NoDataNodes))
    else
      var w := Create(node.value, id);
      var entry := MapEntry(name, TableName(name), false);
      var m' := m.(entries := m.entries[name := entry], openFiles := m.openFiles[name := w.sheet],
                   db := m.db.(infos := m.db.infos[id := Info(node.value, 0)]));
      Step(WithFd(m', name),
           Some(MasterEntry(Some(FromSheetCell(w.cell, name)), Some(FromSheetChunk(w.chunk)),
                            Some(FromMgrEntry(entry)))),
           Fd(m.nextFd))
  }

  function Opening(m: Manager, name: string): (s: Step) {
    if name !in m.entries || m.entries[name].recycled then Step(m, None, Failed(FileNotFound))
    else Step(WithFd(m.(openFiles := m.openFiles[name := FileAt(m, name)]), name), None, Fd(m.nextFd))
  }

  function Marking(m: Manager, name: string, recycled: bool): (s: Step) {
    if name !in m.entries then Step(m, None, Done)
    else
      var entry := m.entries[name].(recycled := recycled);
      Step(m.(entries := m.entries[name := entry]), Some(MasterEntry(None, None, Some(FromMgrEntry(entry)))), Done)
  }

  function Writing(m: Manager, fd: nat, r: Request): (s: Step)
    requires fd in m.fds ==> m.fds[fd] in m.openFiles && Layout(m.openFiles[m.fds[fd]])
  {
    if fd !in m.fds then Step(m, None, Failed(FdNotFound))
    else
      var name := m.fds[fd];
      var f := m.openFiles[name];
      var w := WriteCell(f, r.row, r.col, r.node, r.id);
      if w.None? then Step(m, None, Failed(NoDataNodes))
      else
        var (cell, chunk) := (w.value.cell, w.value.chunk);
        var infos := if chunk.id in f.chunks then m.db.infos else m.db.infos[chunk.id := Info(chunk.dataNode, 0)];
        Step(m.(openFiles := m.openFiles[name := w.value.sheet], db := m.db.(infos := infos)),
             Some(MasterEntry(Some(FromSheetCell(cell, name)), Some(FromSheetChunk(chunk)), None)), Placed(cell, chunk))
  }

  function Perform(m: Manager, op: Operation): (s: Step)
    requires Serving(m)
  {
    match op
    case CreateSheet(name, node, id) => Creating(m, name, node, id)
    case OpenSheet(name) => Opening(m, name)
    case RecycleSheet(name) => Marking(m, name, true)
    case ResumeSheet(name) => Marking(m, name, false)
    case WriteFileCell(fd, r) =>
      assert fd in m.fds ==> Layout(FileAt(m, m.fds[fd]));
      Writing(m, fd, r)
  }

  // ---- invariants of a manager

  /** Every file is laid out properly, and descriptors name open files of the directory. */
  ghost predicate Serving(m: Manager) {
    && Sound(m)
    && (forall d :: d in m.fds ==> m.fds[d] in m.openFiles && m.fds[d] in m.entries)
  }

  ghost predicate Sound(m: Manager) { AllLayout(m) && Owned(m) && Named(m) && Filed(m) }

  ghost predicate AllLayout(m: Manager) {
    forall name :: Layout(FileAt(m, name))
  }

  /** Directory entries carry their own names. */
  ghost predicate Named(m: Manager) {
    forall name :: name in m.entries ==> m.entries[name].fileName == name
  }

  /** A name outside the directory has no content. */
  ghost predicate Filed(m: Manager) {
    forall name :: name !in m.entries ==> FileAt(m, name).cells == map[] && FileAt(m, name).chunks == map[]
  }

  /** No chunk belongs to two files. */
  ghost predicate Owned(m: Manager) {
    forall n, n', c :: c in FileAt(m, n).chunks && c in FileAt(m, n').chunks ==> n == n'
  }

  /** No file uses the chunk `id` yet. */
  ghost predicate NewId(m: Manager, id: nat) {
    forall name :: id !in FileAt(m, name).chunks
  }

  ghost predicate NewIdOf(m: Manager, op: Operation) {
    match op
    case CreateSheet(_, _, id) => NewId(m, id)
    case WriteFileCell(_, r) => NewId(m, r.id)
    case _ => true
  }

  // ---- a new chunk row does not matter to the files in the database

  lemma {:induction false} LoadKeys(rows: seq<Cell>, infos: map<nat, Info>, n: nat, c: nat)
    requires n <= |rows|
    ensures c in LoadRows(rows, infos, n).chunks <==> HasRow(rows[..n], c)
  {
    hide Available, LoadChunk, Indexes;
    if n > 0 {
      LoadKeys(rows, infos, n - 1, c);
      assert rows[..n] == rows[..n - 1] + [rows[n - 1]];
      if HasRow(rows[..n - 1], c) {
        var y :| y in rows[..n - 1] && y.chunkId == c;
        assert y in rows[..n];
      }
      assert rows[n - 1] in rows[..n];
    }
  }

  lemma {:induction false} LoadRowsSame(rows: seq<Cell>, infos: map<nat, Info>, infos': map<nat, Info>, n: nat)
    requires n <= |rows|
    requires forall c :: HasRow(rows, c) ==> LoadChunk(rows, infos, c) == LoadChunk(rows, infos', c)
    ensures LoadRows(rows, infos, n) == LoadRows(rows, infos', n)
  {
    if n > 0 {
      hide Available, LoadChunk;
      LoadRowsSame(rows, infos, infos', n - 1);
      assert rows[n - 1] in rows;
      assert HasRow(rows, rows[n - 1].chunkId);
    }
  }

  /** Loading looks only at the rows of the chunks that the file has. */
  lemma LoadSame(db: Database, db': Database, name: string)
    requires (if name in db.tables then db.tables[name] else []) == if name in db'.tables then db'.tables[name] else []
    requires forall c :: c in LoadSheetFile(db, name).chunks ==>
      (c in db.infos <==> c in db'.infos) && (c in db.infos ==> db.infos[c] == db'.infos[c])
    ensures LoadSheetFile(db, name) == LoadSheetFile(db', name)
  {
    var rows := if name in db.tables then db.tables[name] else [];
    hide LoadRows;
    assert rows[..|rows|] == rows;
    forall c | HasRow(rows, c) ensures LoadChunk(rows, db.infos, c) == LoadChunk(rows, db'.infos, c) {
      LoadKeys(rows, db.infos, |rows|, c);
    }
    LoadRowsSame(rows, db.infos, db'.infos, |rows|);
  }

  lemma NewInfoSame(db: Database, id: nat, info: Info, name: string)
    requires id !in LoadSheetFile(db, name).chunks
    ensures LoadSheetFile(db.(infos := db.infos[id := info]), name) == LoadSheetFile(db, name)
  {
    LoadSame(db, db.(infos := db.infos[id := info]), name);
  }

  // ---- what operations do

  /** `e` says what changed between `m` and `m'`, and it does not change a cell that was there. */
  ghost predicate Describes(e: MasterEntry, m: Manager, m': Manager) {
    && Proper(e) && Placeable(m.entries, e)
    && (forall k :: Look(m', k) == Over(WrittenTo(e, k), Look(m, k)))
    && KeepsCells(e, m)
  }

  ghost predicate KeepsCells(e: MasterEntry, m: Manager) {
    e.cell.Some? ==>
      var k := CellKey(e.cell.value.sheetName, e.cell.value.cellId);
      Look(m, k).None? || Look(m, k) == WrittenTo(e, k)
  }

  /** The effect of an operation on the directory, on one file, and on the chunk rows. */
  ghost predicate Changes(m: Manager, m': Manager, name: string, f: Sheet) {
    && FileAt(m', name) == f
    && forall n :: n != name ==> FileAt(m', n) == FileAt(m, n)
  }

  lemma ChangedLayout(m: Manager, m': Manager, name: string, f: Sheet)
    requires AllLayout(m) && Changes(m, m', name, f) && Layout(f)
    ensures AllLayout(m')
  {
    hide Layout, FileAt;
    forall n ensures Layout(FileAt(m', n)) {
      assert Layout(FileAt(m, n));
    }
  }

  /** The file gets at most one chunk more, a new one. */
  lemma ChangedOwned(m: Manager, m': Manager, name: string, f: Sheet, id: nat)
    requires Owned(m) && Changes(m, m', name, f) && NewId(m, id)
    requires forall c :: c in f.chunks ==> c == id || c in FileAt(m, name).chunks
    ensures Owned(m')
  {
    hide FileAt;
    forall n, n', c | c in FileAt(m', n).chunks && c in FileAt(m', n').chunks ensures n == n' {
      assert c != id ==> c in FileAt(m, n).chunks && c in FileAt(m, n').chunks;
    }
  }

  /** What holds of a manager `m'` that differs from `m` in file `name` and in the directory. */
  lemma Served(m: Manager, m': Manager, name: string, f: Sheet, id: nat)
    requires Serving(m) && Changes(m, m', name, f) && Layout(f) && NewId(m, id)
    requires forall c :: c in f.chunks ==> c == id || c in FileAt(m, name).chunks
    requires Named(m') && name in m'.entries && forall n :: n in m.entries ==> n in m'.entries
    requires forall d :: d in m'.fds ==> m'.fds[d] in m'.openFiles && m'.fds[d] in m'.entries
    ensures Serving(m')
  {
    hide Layout, FileAt, Owned, NewId, AllLayout;
    ChangedLayout(m, m', name, f);
    ChangedOwned(m, m', name, f, id);
  }

  lemma CreatingChanges(m: Manager, name: string, node: string, id: nat)
    requires NewId(m, id) && name !in m.entries
    ensures Changes(m, Creating(m, name, Some(node), id).m, name, Create(node, id).sheet)
  {
    hide LoadSheetFile;
    forall n
      ensures n !in m.openFiles ==>
        LoadSheetFile(m.db.(infos := m.db.infos[id := Info(node, 0)]), n) == LoadSheetFile(m.db, n) {
      if n !in m.openFiles {
        assert id !in FileAt(m, n).chunks;
        NewInfoSame(m.db, id, Info(node, 0), n);
      }
    }
  }

  /** Replaying the two entries into a file writes to the file's keys what they say. */
  lemma ReplayedLook(f: Sheet, e: MasterEntry, k: Key)
    requires Proper(e) && e.cell.Some? && !k.FileKey? && k.name == e.cell.value.sheetName
    ensures SheetLook(Replayed(f, e.chunk.value, e.cell.value), k) == Over(WrittenTo(e, k), SheetLook(f, k))
  {
    hide Place;
  }

  /** An entry with a cell describes a change to one file that is what replaying it there would do. */
  lemma FileChange(e: MasterEntry, m: Manager, m': Manager, f: Sheet)
    requires Proper(e) && e.cell.Some? && Placeable(m.entries, e) && KeepsCells(e, m)
    requires Changes(m, m', e.cell.value.sheetName, f)
    requires m'.entries == if e.mapEntry.Some? then HandleMapEntry(m.entries, e.mapEntry.value) else m.entries
    requires var f0 := Replayed(FileAt(m, e.cell.value.sheetName), e.chunk.value, e.cell.value);
      f.cells == f0.cells && f.chunks == f0.chunks
    ensures Describes(e, m, m')
  {
    var name := e.cell.value.sheetName;
    forall k ensures Look(m', k) == Over(WrittenTo(e, k), Look(m, k)) {
      hide Proper, Placeable, KeepsCells, Replayed, FileAt;
      if !k.FileKey? {
        if k.name == name {
          ReplayedLook(FileAt(m, name), e, k);
        }
      } else {
      }
    }
  }

  lemma CreatingDescribes(m: Manager, name: string, node: string, id: nat)
    requires Serving(m) && NewId(m, id) && name !in m.entries
    ensures var s := Creating(m, name, Some(node), id); s.entry.Some? && Describes(s.entry.value, m, s.m)
  {
    var s := Creating(m, name, Some(node), id);
    CreatingChanges(m, name, node, id);
    CreateReplays(node, id, name);
    hide Layout, FileAt, Describes, Changes, Look;
    assert FileAt(m, name).cells == map[] && FileAt(m, name).chunks == map[];
    assert KeepsCells(s.entry.value, m) by { NothingThere(m, name); }
    FileChange(s.entry.value, m, s.m, Create(node, id).sheet);
  }

  lemma NothingThere(m: Manager, name: string)
    requires Filed(m) && name !in m.entries
    ensures forall i :: Look(m, CellKey(name, i)).None?
  {
    hide FileAt;
  }

  lemma CreatingServes(m: Manager, name: string, node: string, id: nat)
    requires Serving(m) && NewId(m, id) && name !in m.entries
    ensures Serving(Creating(m, name, Some(node), id).m)
  {
    CreatingChanges(m, name, node, id);
    CreateLayout(node, id);
    hide Layout, FileAt, Packed, Changes, NewId, AllLayout, Owned, Filed;
    Served(m, Creating(m, name, Some(node), id).m, name, Create(node, id).sheet, id);
  }

  /** A manager with the same files and the same names in its directory. */
  lemma SameFiles(m: Manager, m': Manager)
    requires Serving(m) && (forall n :: FileAt(m', n) == FileAt(m, n)) && Named(m') && m'.entries.Keys == m.entries.Keys
    requires forall d :: d in m'.fds ==> m'.fds[d] in m'.openFiles && m'.fds[d] in m'.entries
    ensures Serving(m')
  {
    hide Layout, FileAt;
    forall n ensures Layout(FileAt(m', n)) {
      assert Layout(FileAt(m, n));
    }
    forall n, n', c | c in FileAt(m', n).chunks && c in FileAt(m', n').chunks ensures n == n' {
      assert c in FileAt(m, n).chunks && c in FileAt(m, n').chunks;
    }
    forall n | n !in m'.entries ensures FileAt(m', n).cells == map[] && FileAt(m', n).chunks == map[] {
      assert n !in m.entries.Keys;
    }
  }

  /** Opening a file that is not in memory loads what was there all along. */
  lemma OpeningSame(m: Manager, name: string)
    requires Serving(m)
    ensures var s := Opening(m, name); s.entry.None? && Serving(s.m) && forall k :: Look(s.m, k) == Look(m, k)
  {
    var s := Opening(m, name);
    assert forall n :: FileAt(s.m, n) == FileAt(m, n);
    hide Layout, FileAt, AllLayout, Owned, Filed;
    SameFiles(m, s.m);
  }

  lemma MarkingServes(m: Manager, name: string, recycled: bool)
    requires Serving(m)
    ensures var s := Marking(m, name, recycled); Serving(s.m) && s.m.db == m.db && (s.entry.None? ==> s.m == m)
  {
    var s := Marking(m, name, recycled);
    assert forall n :: FileAt(s.m, n) == FileAt(m, n);
    hide Layout, FileAt, AllLayout, Owned, Filed;
    SameFiles(m, s.m);
  }

  lemma MarkingDescribes(m: Manager, name: string, recycled: bool)
    requires Serving(m)
    ensures var s := Marking(m, name, recycled); s.entry.Some? ==> Describes(s.entry.value, m, s.m)
  {
    var s := Marking(m, name, recycled);
    if s.entry.Some? {
      var e := s.entry.value;
      forall k ensures Look(s.m, k) == Over(WrittenTo(e, k), Look(m, k)) {
        assert FileAt(s.m, k.name) == FileAt(m, k.name);
        hide FileAt, SheetLook, AllLayout, Owned, Filed;
      }
    }
  }

  lemma WritingChanges(m: Manager, fd: nat, r: Request)
    requires Serving(m) && NewId(m, r.id) && fd in m.fds
    ensures fd in m.fds ==> m.fds[fd] in m.openFiles && Layout(m.openFiles[m.fds[fd]])
    ensures var name := m.fds[fd]; var w := WriteCell(m.openFiles[name], r.row, r.col, r.node, r.id);
      w.Some? ==> Changes(m, Writing(m, fd, r).m, name, w.value.sheet)
  {
    var name := m.fds[fd];
    var f := m.openFiles[name];
    assert f == FileAt(m, name) && Layout(FileAt(m, name));
    var w := WriteCell(f, r.row, r.col, r.node, r.id);
    hide LoadSheetFile, Layout;
    if w.Some? {
      WriteMeans(f, r.row, r.col, r.node, r.id);
      hide WriteCell;
      var chunk := w.value.chunk;
      if chunk.id !in f.chunks {
        forall n ensures n !in m.openFiles ==>
            LoadSheetFile(m.db.(infos := m.db.infos[r.id := Info(chunk.dataNode, 0)]), n) == LoadSheetFile(m.db, n) {
          if n !in m.openFiles {
            assert r.id !in FileAt(m, n).chunks;
            NewInfoSame(m.db, r.id, Info(chunk.dataNode, 0), n);
          }
        }
      }
    }
  }

  lemma WritingParts(m: Manager, fd: nat, r: Request)
    requires Serving(m) && NewId(m, r.id) && fd in m.fds
    ensures fd in m.fds ==> m.fds[fd] in m.openFiles && Layout(m.openFiles[m.fds[fd]])
    ensures Layout(FileAt(m, m.fds[fd])) && r.id !in FileAt(m, m.fds[fd]).chunks
    ensures var name := m.fds[fd]; var s := Writing(m, fd, r);
      var w := WriteCell(FileAt(m, name), r.row, r.col, r.node, r.id);
      if w.None? then s == Step(m, None, Failed(NoDataNodes))
      else
        && Changes(m, s.m, name, w.value.sheet)
        && s.m.entries == m.entries && s.m.fds == m.fds && s.m.openFiles == m.openFiles[name := w.value.sheet]
        && s.entry ==
          Some(MasterEntry(Some(FromSheetCell(w.value.cell, name)), Some(FromSheetChunk(w.value.chunk)), None))
  {
    WritingChanges(m, fd, r);
    hide LoadSheetFile, Layout, WriteCell, Changes;
    var f := FileAt(m, m.fds[fd]);
    assert Layout(f) && r.id !in f.chunks;
  }

  lemma WritingKeeps(m: Manager, name: string, cell: Cell, e: MasterEntry)
    requires e.cell == Some(FromSheetCell(cell, name))
    requires var f := FileAt(m, name); cell.cellId in f.cells ==> cell == f.cells[cell.cellId]
    ensures KeepsCells(e, m)
  {
    hide FileAt;
  }

  lemma WritingDescribes(m: Manager, fd: nat, r: Request)
    requires Serving(m) && NewId(m, r.id) && fd in m.fds
    ensures fd in m.fds ==> m.fds[fd] in m.openFiles && Layout(m.openFiles[m.fds[fd]])
    ensures var s := Writing(m, fd, r);
      if s.entry.Some? then Describes(s.entry.value, m, s.m) else s.m == m
  {
    WritingParts(m, fd, r);
    hide LoadSheetFile, Layout, WriteCell, Changes, FileAt, Writing, Replayed;
    var name := m.fds[fd];
    var f := FileAt(m, name);
    var w := WriteCell(f, r.row, r.col, r.node, r.id);
    if w.Some? {
      WriteMeans(f, r.row, r.col, r.node, r.id);
      WriteReplays(f, r, name);
      WritingKeeps(m, name, w.value.cell, Writing(m, fd, r).entry.value);
      hide Look, KeepsCells, Describes;
      FileChange(Writing(m, fd, r).entry.value, m, Writing(m, fd, r).m, w.value.sheet);
    }
  }

  lemma WritingServes(m: Manager, fd: nat, r: Request)
    requires Serving(m) && NewId(m, r.id) && fd in m.fds
    ensures fd in m.fds ==> m.fds[fd] in m.openFiles && Layout(m.openFiles[m.fds[fd]])
    ensures Serving(Writing(m, fd, r).m)
  {
    WritingParts(m, fd, r);
    var name := m.fds[fd];
    var f := FileAt(m, name);
    hide LoadSheetFile, Layout, WriteCell, Changes, FileAt, Writing, AllLayout, Owned, Filed, NewId;
    var w := WriteCell(f, r.row, r.col, r.node, r.id);
    if w.Some? {
      WriteMeans(f, r.row, r.col, r.node, r.id);
      WriteLayout(f, r.row, r.col, r.node, r.id);
      Served(m, Writing(m, fd, r).m, name, w.value.sheet, r.id);
    }
  }

  /** Every operation keeps the manager in order, and journals exactly what it changed. */
  lemma PerformDescribes(m: Manager, op: Operation)
    requires Serving(m) && NewIdOf(m, op)
    ensures var s := Perform(m, op);
      && Serving(s.m)
      && (s.entry.Some? ==> Describes(s.entry.value, m, s.m))
      && (s.entry.None? ==> forall k :: Look(s.m, k) == Look(m, k))
  {
    hide Layout, Creating, Opening, Marking, Writing, Describes, Look;
    match op
    case CreateSheet(name, node, id) =>
      if name !in m.entries && node.Some? {
        CreatingDescribes(m, name, node.value, id);
        CreatingServes(m, name, node.value, id);
      } else {
        NotCreating(m, name, node, id);
      }
    case OpenSheet(name) => OpeningSame(m, name);
    case RecycleSheet(name) =>
      MarkingServes(m, name, true);
      MarkingDescribes(m, name, true);
    case ResumeSheet(name) =>
      MarkingServes(m, name, false);
      MarkingDescribes(m, name, false);
    case WriteFileCell(fd, r) =>
      assert fd in m.fds ==> Layout(FileAt(m, m.fds[fd]));
      if fd in m.fds {
        WritingDescribes(m, fd, r);
        WritingServes(m, fd, r);
      } else {
        NotWriting(m, fd, r);
      }
  }

  lemma NotCreating(m: Manager, name: string, node: Option<string>, id: nat)
    requires name in m.entries || node.None?
    ensures Creating(m, name, node, id).m == m && Creating(m, name, node, id).entry.None?
  {
  }

  lemma NotWriting(m: Manager, fd: nat, r: Request)
    requires fd !in m.fds
    ensures Writing(m, fd, r).m == m && Writing(m, fd, r).entry.None?
  {
  }

  /** An operation changes nothing of what a restart would load. */
  lemma PerformKeepsStored(m: Manager, op: Operation, name: string)
    requires Serving(m) && NewIdOf(m, op) && NewIdOf(LoadFileManager(m.db), op)
    ensures var db' := Perform(m, op).m.db;
      db'.entries == m.db.entries && db'.tables == m.db.tables && LoadSheetFile(db', name) == LoadSheetFile(m.db, name)
  {
    var stored := LoadFileManager(m.db);
    assert LoadSheetFile(m.db, name) == FileAt(stored, name);
    hide Layout, FileAt, LoadSheetFile, AllLayout, Owned, Filed, Named, WriteCell;
    match op
    case CreateSheet(n, node, id) =>
      if n !in m.entries && node.Some? {
        NewInfoSame(m.db, id, Info(node.value, 0), name);
      }
    case OpenSheet(n) =>
    case RecycleSheet(n) =>
    case ResumeSheet(n) =>
    case WriteFileCell(fd, r) =>
      if fd in m.fds {
        WritingStores(m, fd, r, name);
      }
  }

  lemma WritingStores(m: Manager, fd: nat, r: Request, name: string)
    requires Serving(m) && NewId(m, r.id) && fd in m.fds && r.id !in LoadSheetFile(m.db, name).chunks
    ensures fd in m.fds ==> m.fds[fd] in m.openFiles && Layout(m.openFiles[m.fds[fd]])
    ensures var db' := Writing(m, fd, r).m.db;
      db'.entries == m.db.entries && db'.tables == m.db.tables && LoadSheetFile(db', name) == LoadSheetFile(m.db, name)
  {
    WritingParts(m, fd, r);
    var f := m.openFiles[m.fds[fd]];
    assert f == FileAt(m, m.fds[fd]);
    hide Layout, FileAt, LoadSheetFile, AllLayout, Owned, Filed, Named, WriteCell;
    var w := WriteCell(f, r.row, r.col, r.node, r.id);
    if w.Some? {
      WriteMeans(f, r.row, r.col, r.node, r.id);
      NewInfoSame(m.db, r.id, Info(w.value.chunk.dataNode, 0), name);
    }
  }

  // ---- what clients see

  /** A recycled file cannot be opened, a resumed one can, and resuming undoes recycling. */
  lemma RecycleAndResume(m: Manager, name: string)
    requires name in m.entries
    ensures Opening(Marking(m, name, true).m, name).reply == Failed(FileNotFound)
    ensures Opening(Marking(m, name, false).m, name).reply.Fd?
    ensures !m.entries[name].recycled ==> Marking(Marking(m, name, true).m, name, false).m == m
  {
    hide FileAt;
    var m' := Marking(Marking(m, name, true).m, name, false).m;
    assert !m.entries[name].recycled ==> m'.entries == m.entries;
  }

  /** A created file is open under the descriptor returned, holds just its meta cell, can be opened again, and
      cannot be created again. */
  lemma CreateThenUse(m: Manager, name: string, node: string, id: nat, node': Option<string>, id': nat)
    requires name !in m.entries
    ensures var s := Creating(m, name, Some(node), id);
      && s.reply.Fd? && s.m.fds[s.reply.fd] == name && FileAt(s.m, name).cells.Keys == {META_CELL_ID}
      && Opening(s.m, name).reply.Fd? && FileAt(Opening(s.m, name).m, name) == FileAt(s.m, name)
      && Creating(s.m, name, node', id').reply == Failed(FileExists) && Creating(s.m, name, node', id').m == s.m
  {
  }

  /** What a read of the cell returns. */
  function ReadFileCell(m: Manager, fd: nat, row: uint32, col: uint32): (r: Option<(Cell, Chunk)>)
    requires fd in m.fds ==> m.fds[fd] in m.openFiles && Layout(m.openFiles[m.fds[fd]])
  {
    if fd !in m.fds then None else
    var f := m.openFiles[m.fds[fd]];
    var k := GetCellID(row, col);
    if k !in f.cells then None else
    assert Located(f.chunks, k, f.cells[k]);
    Some((f.cells[k], f.chunks[f.cells[k].chunkId]))
  }

  /** What WriteCell does to the cell itself. */
  lemma WriteCellRead(f: Sheet, q: Request)
    requires Layout(f) && q.id !in f.chunks
    ensures var w := WriteCell(f, q.row, q.col, q.node, q.id); var k := GetCellID(q.row, q.col);
      && (k in f.cells ==> f.cells[k].chunkId in f.chunks)
      && (w.Some? ==>
            && k in w.value.sheet.cells && w.value.sheet.cells[k] == w.value.cell
            && w.value.cell.chunkId in w.value.sheet.chunks
            && w.value.sheet.chunks[w.value.cell.chunkId] == w.value.chunk
            && (k in f.cells ==>
                  && w.value.cell == f.cells[k]
                  && w.value.chunk ==
                    f.chunks[f.cells[k].chunkId].(version := f.chunks[f.cells[k].chunkId].version + 1)))
      && (w.None? ==> q.node.None? && k !in f.cells)
  {
    WriteMeans(f, q.row, q.col, q.node, q.id);
    hide GetCellID, Layout;
    assert GetCellID(q.row, q.col) in f.cells ==>
      Located(f.chunks, GetCellID(q.row, q.col), f.cells[GetCellID(q.row, q.col)]);
  }

  /** After a write, a read returns the cell and chunk that the write returned, one version up; a write fails only
      for want of a descriptor, or of a data node for a new chunk. */
  lemma WriteThenRead(m: Manager, fd: nat, q: Request)
    requires Serving(m) && NewId(m, q.id)
    ensures fd in m.fds ==> m.fds[fd] in m.openFiles && Layout(m.openFiles[m.fds[fd]])
    ensures var s := Writing(m, fd, q);
      && (fd in s.m.fds ==> s.m.fds[fd] in s.m.openFiles && Layout(s.m.openFiles[s.m.fds[fd]]))
      && (s.reply.Placed? ==>
            && ReadFileCell(s.m, fd, q.row, q.col) == Some((s.reply.cell, s.reply.chunk))
            && (ReadFileCell(m, fd, q.row, q.col).Some? ==>
                  var (cell, chunk) := ReadFileCell(m, fd, q.row, q.col).value;
                  s.reply.cell == cell && s.reply.chunk == chunk.(version := chunk.version + 1)))
      && (!s.reply.Placed? ==> s.m == m && (fd !in m.fds || (q.node.None? && ReadFileCell(m, fd, q.row, q.col).None?)))
  {
    if fd in m.fds {
      hide WriteCell, Layout, GetCellID, Owned, Filed, Named, NewId, LoadSheetFile;
      WritingParts(m, fd, q);
      WritingServes(m, fd, q);
      var s := Writing(m, fd, q);
      assert Layout(FileAt(s.m, s.m.fds[fd]));
      hide AllLayout, Changes;
      WriteCellRead(m.openFiles[m.fds[fd]], q);
    }
  }
}
