/**
  A secondary that has followed the journal from its beginning is an exact copy of
  the primary: even the lists of its chunks are in the same order.
 */
module MasterReplica {
  import opened Options
  import opened SheetFiles
  import opened SheetLoading
  import opened MasterJournal
  import opened MasterPrimary

  /** The same cells and chunks, lists included; only the current chunk may differ. */
  ghost predicate Copy(f: Sheet, g: Sheet) { f.cells == g.cells && f.chunks == g.chunks }

  /** The primary has all files of its directory in memory; the secondary has copies of them. */
  ghost predicate Twin(m: Manager, r: Manager) {
    && m.entries == r.entries && r.db == EMPTY_DATABASE
    && (forall n :: n in m.entries <==> n in m.openFiles) && (forall n :: n in m.openFiles <==> n in r.openFiles)
    && (forall n :: n in m.openFiles ==> Copy(m.openFiles[n], r.openFiles[n]))
  }

  lemma ReplayedCopy(f: Sheet, g: Sheet, chunk: ChunkEntry, cell: CellEntry)
    requires chunk.target == cell.target == Present && cell.chunkId == chunk.id && Copy(f, g)
    ensures Copy(Replayed(f, chunk, cell), Replayed(g, chunk, cell))
  {
  }

  lemma HandledFile(r: Manager, e: MasterEntry)
    requires Proper(e) && e.cell.Some? && Placeable(r.entries, e)
    ensures var (r', ok) := HandleMasterEntry(r, e); var name := e.cell.value.sheetName;
      && ok && r'.db == r.db
      && r'.entries == (if e.mapEntry.Some? then HandleMapEntry(r.entries, e.mapEntry.value) else r.entries)
      && r'.openFiles == r.openFiles[name := Replayed(FileAt(r, name), e.chunk.value, e.cell.value)]
  {
    hide HandleCellEntry, HandleChunkEntry, LoadSheetFile;
  }

  /** Both put a copy of the same file under the same name. */
  lemma PutTwin(m: Manager, r: Manager, m': Manager, r': Manager, name: string, f: Sheet, g: Sheet)
    requires Twin(m, r) && Copy(f, g) && m'.entries == r'.entries && r'.db == r.db
    requires m'.openFiles == m.openFiles[name := f] && r'.openFiles == r.openFiles[name := g]
    requires forall n :: n in m'.entries <==> n in m.entries || n == name
    ensures Twin(m', r')
  {
    hide Copy;
  }

  lemma TwinEntries(m: Manager, r: Manager)
    requires Twin(m, r)
    ensures m.entries == r.entries && r.db == EMPTY_DATABASE
    ensures forall n :: n in m.openFiles ==> n in m.entries && n in r.openFiles && Copy(m.openFiles[n], r.openFiles[n])
    ensures forall n :: n in r.openFiles ==> n in m.entries
  {
    hide Copy;
  }

  lemma CreateTwin(m: Manager, r: Manager, name: string, node: string, id: nat)
    requires Twin(m, r) && name !in m.entries
    ensures var s := Creating(m, name, Some(node), id);
      s.entry.Some? && HandleMasterEntry(r, s.entry.value).1 && Twin(s.m, HandleMasterEntry(r, s.entry.value).0)
  {
    hide Twin, HandleMasterEntry, Replayed, Create, Copy;
    var s := Creating(m, name, Some(node), id);
    CreateReplays(node, id, name);
    TwinEntries(m, r);
    assert FileAt(r, name) == NO_SHEET;
    CreateIds(node, id);
    HandledFile(r, s.entry.value);
    var r' := HandleMasterEntry(r, s.entry.value).0;
    assert Copy(Create(node, id).sheet, r'.openFiles[name]) by { CopyItself(Create(node, id).sheet); }
    PutTwin(m, r, s.m, r', name, Create(node, id).sheet, r'.openFiles[name]);
  }

  lemma CreateIds(node: string, id: nat)
    ensures var w := Create(node, id); w.cell.chunkId == w.chunk.id
  {
  }

  lemma CopyItself(f: Sheet)
    ensures Copy(f, f)
  {
  }

  lemma MarkTwin(m: Manager, r: Manager, name: string, recycled: bool)
    requires Twin(m, r) && Named(m)
    ensures var s := Marking(m, name, recycled);
      if s.entry.None? then s.m == m
      else HandleMasterEntry(r, s.entry.value).1 && Twin(s.m, HandleMasterEntry(r, s.entry.value).0)
  {
    hide LoadSheetFile;
  }

  /** A copy of the file, replaying a write, becomes a copy of the file written to. */
  lemma WriteCopy(f: Sheet, g: Sheet, q: Request, name: string)
    requires Layout(f) && q.id !in f.chunks && Copy(f, g)
    ensures var w := WriteCell(f, q.row, q.col, q.node, q.id); w.Some? ==>
      && w.value.cell.chunkId == w.value.chunk.id
      && Copy(w.value.sheet, Replayed(g, FromSheetChunk(w.value.chunk), FromSheetCell(w.value.cell, name)))
  {
    var w := WriteCell(f, q.row, q.col, q.node, q.id);
    hide WriteCell, Layout, Replayed;
    if w.Some? {
      WriteMeans(f, q.row, q.col, q.node, q.id);
      WriteReplays(f, q, name);
      ReplayedCopy(f, g, FromSheetChunk(w.value.chunk), FromSheetCell(w.value.cell, name));
    }
  }

  lemma WriteTwin(m: Manager, r: Manager, fd: nat, q: Request)
    requires Twin(m, r) && Serving(m) && NewId(m, q.id) && fd in m.fds
    ensures fd in m.fds ==> m.fds[fd] in m.openFiles && Layout(m.openFiles[m.fds[fd]])
    ensures var s := Writing(m, fd, q);
      if s.entry.None? then s.m == m
      else HandleMasterEntry(r, s.entry.value).1 && Twin(s.m, HandleMasterEntry(r, s.entry.value).0)
  {
    WritingParts(m, fd, q);
    var name := m.fds[fd];
    var f := FileAt(m, name);
    TwinEntries(m, r);
    assert f == m.openFiles[name] && FileAt(r, name) == r.openFiles[name];
    hide Twin, Copy, Serving, NewId, Layout, WriteCell, Changes, Writing, HandleMasterEntry, Replayed, FileAt;
    var w := WriteCell(f, q.row, q.col, q.node, q.id);
    if w.Some? {
      var e := Writing(m, fd, q).entry.value;
      WriteCopy(f, r.openFiles[name], q, name);
      HandledFile(r, e);
      var r' := HandleMasterEntry(r, e).0;
      PutTwin(m, r, Writing(m, fd, q).m, r', name, w.value.sheet, r'.openFiles[name]);
    }
  }

  lemma TwinStep(m: Manager, r: Manager, op: Operation)
    requires Twin(m, r) && Serving(m) && NewIdOf(m, op)
    ensures var s := Perform(m, op);
      if s.entry.None? then Twin(s.m, r)
      else HandleMasterEntry(r, s.entry.value).1 && Twin(s.m, HandleMasterEntry(r, s.entry.value).0)
  {
    hide Layout, Creating, Marking, Writing, HandleMasterEntry, AllLayout, Owned, Filed;
    match op
    case CreateSheet(name, node, id) =>
      if name !in m.entries && node.Some? {
        CreateTwin(m, r, name, node.value, id);
      } else {
        NotCreating(m, name, node, id);
      }
    case OpenSheet(name) =>
    case RecycleSheet(name) => MarkTwin(m, r, name, true);
    case ResumeSheet(name) => MarkTwin(m, r, name, false);
    case WriteFileCell(fd, q) =>
      assert AllLayout(m);
      assert fd in m.fds ==> Layout(FileAt(m, m.fds[fd])) by { LayoutAt(m, fd); }
      if fd in m.fds {
        WriteTwin(m, r, fd, q);
      } else {
        NotWriting(m, fd, q);
      }
  }

  lemma LayoutAt(m: Manager, fd: nat)
    requires AllLayout(m)
    ensures fd in m.fds ==> Layout(FileAt(m, m.fds[fd]))
  {
  }

  // ---- whole runs

  /** Each operation brings a chunk id that is new at its time. */
  ghost predicate NewIds(m: Manager, ops: seq<Operation>)
    decreases |ops|
  {
    ops == [] || (Serving(m) && NewIdOf(m, ops[0]) && NewIds(Perform(m, ops[0]).m, ops[1..]))
  }

  /** The primary after the operations, and the journal it wrote. */
  ghost function Run(m: Manager, ops: seq<Operation>): (r: (Manager, seq<MasterEntry>))
    requires NewIds(m, ops)
    decreases |ops|
  {
    if ops == [] then (m, []) else
    var s := Perform(m, ops[0]);
    var (m', es) := Run(s.m, ops[1..]);
    (m', if s.entry.Some? then [s.entry.value] + es else es)
  }

  ghost function Replay(r: Manager, es: seq<MasterEntry>): (r': Manager)
    decreases |es|
  {
    if es == [] then r else Replay(HandleMasterEntry(r, es[0]).0, es[1..])
  }

  lemma {:induction false} TwinRun(m: Manager, r: Manager, ops: seq<Operation>)
    requires Twin(m, r) && Serving(m) && NewIds(m, ops)
    ensures var (m', es) := Run(m, ops); Twin(m', Replay(r, es)) && Serving(m')
    decreases |ops|
  {
    if ops != [] {
      hide Twin, Serving, Perform, HandleMasterEntry, NewIdOf, Describes, Look;
      var s := Perform(m, ops[0]);
      TwinStep(m, r, ops[0]);
      PerformDescribes(m, ops[0]);
      if s.entry.Some? {
        TwinRun(s.m, HandleMasterEntry(r, s.entry.value).0, ops[1..]);
        var es := Run(s.m, ops[1..]).1;
        assert ([s.entry.value] + es)[0] == s.entry.value && ([s.entry.value] + es)[1..] == es;
      } else {
        TwinRun(s.m, r, ops[1..]);
      }
    }
  }

  /** Replaying the journal of any run into an empty manager makes an exact copy of the primary:
      its directory, cells, chunk versions, data nodes and chunk lists. */
  lemma ReplicaAgreement(ops: seq<Operation>)
    requires NewIds(LoadFileManager(EMPTY_DATABASE), ops)
    ensures var start := LoadFileManager(EMPTY_DATABASE); var (m, es) := Run(start, ops); Twin(m, Replay(start, es))
  {
    var start := LoadFileManager(EMPTY_DATABASE);
    assert Serving(start) by {
      forall n ensures FileAt(start, n) == NO_SHEET {
      }
      assert Layout(NO_SHEET);
      hide FileAt, Layout;
      forall n ensures Layout(FileAt(start, n)) {
        assert FileAt(start, n) == NO_SHEET;
      }
    }
    assert Twin(start, start);
    hide Twin, Serving, Run, Replay, NewIds;
    TwinRun(start, start, ops);
  }
}
