/**
  What the clients of a master see: which descriptors they are given, which files those
  name, and which files an operation changes.
 */
module MasterClients {
  import opened Numbers
  import opened Options
  import opened SheetCells
  import opened SheetFiles
  import opened SheetLoading
  import opened MasterJournal
  import opened MasterPrimary
  import R = MasterReplica

  /** Descriptors are handed out in order. */
  ghost predicate FdsBelow(m: Manager) { forall d :: d in m.fds ==> d < m.nextFd }

  /** The file an operation is about, if it is given by name. */
  ghost predicate Names(op: Operation, name: string) {
    match op
    case CreateSheet(n, _, _) => n == name
    case OpenSheet(n) => n == name
    case _ => false
  }

  /** A descriptor that is returned was not in use, and names the file created or opened; all older descriptors
      name what they named before. */
  lemma Descriptors(m: Manager, op: Operation)
    requires Serving(m) && FdsBelow(m)
    ensures var s := Perform(m, op);
      && FdsBelow(s.m) && (forall d :: d in m.fds ==> d in s.m.fds && s.m.fds[d] == m.fds[d])
      && (s.reply.Fd? ==> s.reply.fd !in m.fds && s.reply.fd in s.m.fds && Names(op, s.m.fds[s.reply.fd]))
      && (s.reply.Fd? ==> s.reply.fd == m.nextFd && s.m.nextFd == m.nextFd + 1)
      && (forall d :: d in s.m.fds ==> d in m.fds || s.reply == Fd(d))
      && (!s.reply.Fd? ==> s.m.fds == m.fds)
  {
    hide Layout, FileAt, WriteCell, Create;
  }

  /** When each operation succeeds, and with what error it fails. */
  lemma Verdicts(m: Manager, op: Operation)
    requires Serving(m)
    ensures var s := Perform(m, op);
      match op
      case CreateSheet(name, node, _) =>
        && (s.reply == Failed(FileExists) <==> name in m.entries)
        && (s.reply == Failed(NoDataNodes) <==> name !in m.entries && node.None?)
        && (s.reply.Fd? <==> name !in m.entries && node.Some?)
      case OpenSheet(name) =>
        && (s.reply == Failed(FileNotFound) <==> name !in m.entries || m.entries[name].recycled)
        && (s.reply.Fd? <==> name in m.entries && !m.entries[name].recycled)
      case RecycleSheet(name) => s.reply == Done && (name in m.entries ==> s.m.entries[name].recycled)
      case ResumeSheet(name) => s.reply == Done && (name in m.entries ==> !s.m.entries[name].recycled)
      case WriteFileCell(fd, r) => (s.reply == Failed(FdNotFound) <==> fd !in m.fds)
  {
    hide Layout, FileAt, WriteCell, Create;
  }

  /** Opening, recycling and resuming change no file; recycling and resuming change one flag of the directory. */
  lemma FilesStay(m: Manager, op: Operation, name: string)
    requires Serving(m) && (op.OpenSheet? || op.RecycleSheet? || op.ResumeSheet?)
    ensures var s := Perform(m, op);
      && FileAt(s.m, name) == FileAt(m, name)
      && (op.OpenSheet? ==> s.m.entries == m.entries)
      && s.m.entries.Keys == m.entries.Keys
      && (name in m.entries && (op.OpenSheet? || op.name != name) ==> s.m.entries[name] == m.entries[name])
  {
    hide Layout, LoadSheetFile, WriteCell, Create;
  }

  /** The chunk rows of the database: a new chunk gets one, at version 0 on its data node; nothing else of the
      database changes. */
  lemma ChunkRows(m: Manager, op: Operation)
    requires Serving(m)
    ensures var s := Perform(m, op);
      && s.m.db.entries == m.db.entries && s.m.db.tables == m.db.tables
      && (op.CreateSheet? && s.reply.Fd? ==> s.m.db.infos == m.db.infos[op.id := Info(op.node.value, 0)])
      && (op.WriteFileCell? && s.reply.Placed? && s.reply.chunk.id !in FileAt(m, m.fds[op.fd]).chunks ==>
            s.m.db.infos == m.db.infos[s.reply.chunk.id := Info(s.reply.chunk.dataNode, 0)])
      && (op.WriteFileCell? && s.reply.Placed? && s.reply.chunk.id in FileAt(m, m.fds[op.fd]).chunks ==>
            s.m.db.infos == m.db.infos)
      && ((!s.reply.Fd? && !s.reply.Placed?) || op.OpenSheet? ==> s.m.db == m.db)
  {
    hide Layout, WriteCell, Create, LoadSheetFile;
  }

  /** A write through the descriptor of an open changes that file as WriteCell says, and no other. */
  lemma OpenThenWrite(m: Manager, name: string, r: Request)
    requires Serving(m) && NewId(m, r.id) && name in m.entries && !m.entries[name].recycled
    ensures var s := Opening(m, name);
      && s.reply.Fd? && Serving(s.m) && s.reply.fd in s.m.fds
      && Layout(FileAt(m, name)) && Layout(s.m.openFiles[s.m.fds[s.reply.fd]])
      && var w := WriteCell(FileAt(m, name), r.row, r.col, r.node, r.id);
        && (w.Some? ==> Changes(m, Writing(s.m, s.reply.fd, r).m, name, w.value.sheet))
        && (w.None? ==> Writing(s.m, s.reply.fd, r).m == s.m)
  {
    var s := Opening(m, name);
    PerformDescribes(m, OpenSheet(name));
    forall n ensures FileAt(s.m, n) == FileAt(m, n) {
      FilesStay(m, OpenSheet(name), n);
    }
    assert s.m.fds[s.reply.fd] == name;
    hide Layout, FileAt, LoadSheetFile, WriteCell, Create, Opening, Writing, Serving, Owned, Filed, Look;
    WritingParts(s.m, s.reply.fd, r);
  }

  /** What a descriptor shows of a file that was just created. */
  lemma ReadCreated(m: Manager, fd: nat, node: string, id: nat, row: uint32, col: uint32)
    requires fd in m.fds && m.fds[fd] in m.openFiles && m.openFiles[m.fds[fd]] == Create(node, id).sheet
    ensures Layout(m.openFiles[m.fds[fd]])
    ensures var meta := Cell(META_CELL_ID, 0, BYTES_PER_CHUNK, id);
      ReadFileCell(m, fd, row, col) ==
      if row == TWO32 - 1 && col == TWO32 - 1 then Some((meta, Chunk(id, node, 0, [meta]))) else None
  {
    CreateLayout(node, id);
    hide Layout, GetCellID;
    MetaCellPlace(row, col);
  }

  /** A created file: the meta cell has all of the first chunk, which lies on the data node given, at version 0;
      there is no other cell, and no other file changes. */
  lemma CreateThenRead(m: Manager, name: string, node: string, id: nat, row: uint32, col: uint32)
    requires Serving(m) && NewId(m, id) && name !in m.entries
    ensures var s := Creating(m, name, Some(node), id);
      && s.reply.Fd? && s.reply.fd in s.m.fds && s.m.fds[s.reply.fd] in s.m.openFiles
      && Layout(s.m.openFiles[s.m.fds[s.reply.fd]])
      && (forall n :: n != name ==> FileAt(s.m, n) == FileAt(m, n))
      && s.m.entries == m.entries[name := MapEntry(name, "cells_" + name, false)]
      && var meta := Cell(META_CELL_ID, 0, BYTES_PER_CHUNK, id);
        ReadFileCell(s.m, s.reply.fd, row, col) ==
        if row == TWO32 - 1 && col == TWO32 - 1 then Some((meta, Chunk(id, node, 0, [meta]))) else None
  {
    hide Layout, Create, FileAt, ReadFileCell;
    CreatingChanges(m, name, node, id);
    var s := Creating(m, name, Some(node), id);
    ReadCreated(s.m, s.reply.fd, node, id, row, col);
  }

  /** Over any run of operations descriptors keep naming what they name. */
  lemma {:induction false} RunDescriptors(m: Manager, ops: seq<Operation>)
    requires R.NewIds(m, ops) && FdsBelow(m)
    ensures var m' := R.Run(m, ops).0; FdsBelow(m') && forall d :: d in m.fds ==> d in m'.fds && m'.fds[d] == m.fds[d]
    decreases |ops|
  {
    if ops != [] {
      hide Serving, Perform, FdsBelow, NewIdOf;
      Descriptors(m, ops[0]);
      RunDescriptors(Perform(m, ops[0]).m, ops[1..]);
    }
  }

  /** Whatever was done since the manager was loaded, and whatever is done later: the descriptor returned by an
      open is a new one, and names the file opened ever after. */
  lemma OpenedForever(db: Database, ops: seq<Operation>, name: string, later: seq<Operation>)
    requires R.NewIds(LoadFileManager(db), ops) && Serving(R.Run(LoadFileManager(db), ops).0)
    requires R.NewIds(Opening(R.Run(LoadFileManager(db), ops).0, name).m, later)
    ensures var m := R.Run(LoadFileManager(db), ops).0; var s := Opening(m, name);
      s.reply.Fd? ==>
        && s.reply.fd !in m.fds
        && var m' := R.Run(s.m, later).0; s.reply.fd in m'.fds && m'.fds[s.reply.fd] == name
  {
    var m := R.Run(LoadFileManager(db), ops).0;
    assert FdsBelow(LoadFileManager(db));
    RunDescriptors(LoadFileManager(db), ops);
    Descriptors(m, OpenSheet(name));
    hide Opening, Serving, FdsBelow, R.Run, R.NewIds;
    RunDescriptors(Opening(m, name).m, later);
  }
}
