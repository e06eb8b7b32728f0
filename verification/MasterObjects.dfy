/**
  The master's file manager as an object. Its table of open files holds file objects,
  which all descriptors of a file share and which are changed in place. Each method
  does to the manager's value, and to the journal, what the functions of the other
  modules say.
 */
module MasterObjects {
  import opened Options
  import opened SheetCells
  import opened SheetFiles
  import opened SheetLoading
  import opened MasterJournal
  import opened MasterPrimary
  import opened SheetObjects

  // ---- tables of file objects

  /** The object `f` holds `sheet`; it and its chunks, which lie in `foot`, are among `repr`. */
  ghost predicate Holds(f: SheetFile, sheet: Sheet, foot: set<ChunkObject>, repr: set<object>)
    reads repr
  {
    && f in repr && foot <= repr && f.objects <= foot
    && f.Valid() && f.value == sheet
  }

  /** No two names have the same file object. */
  ghost predicate Distinct(files: map<string, SheetFile>) {
    forall n, n' :: n in files && n' in files && n != n' ==> files[n] != files[n']
  }

  /** No two names have a chunk object in common. */
  ghost predicate Separate(feet: map<string, set<ChunkObject>>) {
    forall n, n' :: n in feet && n' in feet && n != n' ==> feet[n] !! feet[n']
  }

  /** The names, their objects and their sheets fit together, but for `name`, if it is one of them. */
  ghost predicate TableBut(files: map<string, SheetFile>, sheets: map<string, Sheet>,
                           feet: map<string, set<ChunkObject>>,
                           repr: set<object>, name: Option<string>)
    reads repr
  {
    && Distinct(files) && Separate(feet)
    && (forall n :: n in files <==> n in sheets) && (forall n :: n in files <==> n in feet)
    && forall n :: n in files && name != Some(n) ==> Holds(files[n], sheets[n], feet[n], repr)
  }

  ghost predicate Table(files: map<string, SheetFile>, sheets: map<string, Sheet>, feet: map<string, set<ChunkObject>>,
                        repr: set<object>)
    reads repr
  {
    TableBut(files, sheets, feet, repr, None)
  }

  lemma SeparateGrown(feet: map<string, set<ChunkObject>>, name: string, foot: set<ChunkObject>)
    requires Separate(feet)
    requires forall n :: n in feet && n != name ==> feet[n] !! foot
    ensures Separate(feet[name := foot])
  {
  }

  lemma DistinctGrown(files: map<string, SheetFile>, name: string, f: SheetFile)
    requires Distinct(files) && forall n :: n in files ==> files[n] != f
    ensures Distinct(files[name := f])
  {
  }

  lemma HoldsMore(f: SheetFile, sheet: Sheet, foot: set<ChunkObject>, repr: set<object>, more: set<object>)
    requires Holds(f, sheet, foot, repr)
    ensures Holds(f, sheet, foot, repr + more)
  {
    hide SheetFile.Valid;
  }

  /** Takes note of what the object under `name` holds. */
  lemma TableRefreshed(files: map<string, SheetFile>, sheets: map<string, Sheet>, feet: map<string, set<ChunkObject>>,
                       repr: set<object>, name: string)
    requires TableBut(files, sheets, feet, repr, Some(name)) && name in files && files[name] in repr &&
      feet[name] <= repr
    requires files[name].Valid() && forall n :: n in feet && n != name ==> feet[n] !! files[name].objects
    ensures var f := files[name];
      Table(files, sheets[name := f.value], feet[name := feet[name] + f.objects], repr + f.objects)
  {
    hide SheetFile.Valid;
    var f := files[name];
    var foot := feet[name] + f.objects;
    SeparateGrown(feet, name, foot);
    assert Holds(f, f.value, foot, repr + f.objects);
    OthersHoldMore(files, sheets, feet, repr, name, f.objects);
    hide Holds, Separate, Distinct, SheetFile.Valid;
  }

  lemma OthersHoldMore(files: map<string, SheetFile>, sheets: map<string, Sheet>, feet: map<string, set<ChunkObject>>,
                       repr: set<object>, name: string, more: set<object>)
    requires TableBut(files, sheets, feet, repr, Some(name))
    ensures forall n :: n in files && n != name ==>
      n in sheets && n in feet && Holds(files[n], sheets[n], feet[n], repr + more)
  {
    hide Holds, Separate, Distinct;
    forall n | n in files && n != name ensures Holds(files[n], sheets[n], feet[n], repr + more) {
      HoldsMore(files[n], sheets[n], feet[n], repr, more);
    }
  }

  lemma NewHolds(f: SheetFile, repr: set<object>)
    requires f.Valid()
    ensures Holds(f, f.value, f.objects, repr + {f} + f.objects)
  {
    hide SheetFile.Valid;
  }

  lemma AllHoldMore(files: map<string, SheetFile>, sheets: map<string, Sheet>, feet: map<string, set<ChunkObject>>,
                    repr: set<object>, f: SheetFile)
    requires Table(files, sheets, feet, repr)
    ensures forall n :: n in files ==>
      n in sheets && n in feet && Holds(files[n], sheets[n], feet[n], repr + {f} + f.objects)
  {
    hide Holds, Separate, Distinct;
    forall n | n in files ensures Holds(files[n], sheets[n], feet[n], repr + {f} + f.objects) {
      HoldsMore(files[n], sheets[n], feet[n], repr, {f} + f.objects);
      assert repr + ({f} + f.objects) == repr + {f} + f.objects;
    }
  }

  /** A new object under a name. */
  lemma TablePut(files: map<string, SheetFile>, sheets: map<string, Sheet>, feet: map<string, set<ChunkObject>>,
                 repr: set<object>, name: string, f: SheetFile)
    requires Table(files, sheets, feet, repr) && f.Valid()
    requires (forall n :: n in files ==> files[n] != f) && forall n :: n in feet ==> feet[n] !! f.objects
    ensures Table(files[name := f], sheets[name := f.value], feet[name := f.objects], repr + {f} + f.objects)
  {
    hide Holds, Separate, Distinct, SheetFile.Valid;
    SeparateGrown(feet, name, f.objects);
    DistinctGrown(files, name, f);
    NewHolds(f, repr);
    AllHoldMore(files, sheets, feet, repr, f);
  }

  lemma TableParts(files: map<string, SheetFile>, sheets: map<string, Sheet>, feet: map<string, set<ChunkObject>>,
                   repr: set<object>)
    requires Table(files, sheets, feet, repr)
    ensures Distinct(files) && Separate(feet) && files.Keys == sheets.Keys == feet.Keys
    ensures forall n :: n in files ==> n in sheets && n in feet && Holds(files[n], sheets[n], feet[n], repr)
  {
    hide Holds, Distinct, Separate;
  }

  lemma TableOfParts(files: map<string, SheetFile>, sheets: map<string, Sheet>, feet: map<string, set<ChunkObject>>,
                     repr: set<object>, name: string)
    requires Distinct(files) && Separate(feet) && files.Keys == sheets.Keys == feet.Keys
    requires forall n :: n in files ==> n in sheets && n in feet
    requires forall n :: n in files && n != name ==> Holds(files[n], sheets[n], feet[n], repr)
    ensures TableBut(files, sheets, feet, repr, Some(name))
  {
    hide Holds, Distinct, Separate;
    assert forall n :: (n in sheets <==> n in sheets.Keys) && (n in feet <==> n in feet.Keys);
  }

  /** What the file under `name` shares with no other. */
  lemma Unshared(files: map<string, SheetFile>, sheets: map<string, Sheet>, feet: map<string, set<ChunkObject>>,
              repr: set<object>, name: string)
    requires Table(files, sheets, feet, repr) && name in files
    ensures name in sheets && name in feet && Holds(files[name], sheets[name], feet[name], repr)
    ensures files[name] in repr && files[name].objects <= feet[name] <= repr
    ensures files[name].Valid() && files[name].value == sheets[name]
    ensures forall n :: n in feet && n != name ==>
      n in files && files[n] != files[name] && feet[n] !! feet[name] && feet[n] <= repr && files[n].objects <= feet[n]
  {
    hide SheetFile.Valid;
    forall n | n in files ensures feet[n] <= repr && files[n].objects <= feet[n] {
      assert Holds(files[n], sheets[n], feet[n], repr);
    }
  }

  // ---- changing a file in its place

  /** A write to the object under `name`. */
  method WriteFile(f: SheetFile, q: Request, ghost files: map<string, SheetFile>, ghost sheets: map<string, Sheet>,
                   ghost feet: map<string, set<ChunkObject>>, ghost repr: set<object>, ghost name: string)
    returns (r: Option<(Cell, Chunk)>)
    requires Table(files, sheets, feet, repr) && name in files && name in sheets && files[name] == f
    requires Layout(sheets[name]) && q.id !in sheets[name].chunks
    modifies f, f.objects
    ensures TableBut(files, sheets, feet, repr, Some(name)) && f in repr && f.Valid()
    ensures name in feet && feet[name] <= repr && forall n :: n in feet && n != name ==> feet[n] !! f.objects
    ensures fresh(f.objects - old(f.objects))
    ensures var w := WriteCell(sheets[name], q.row, q.col, q.node, q.id);
      if w.None? then r == None && f.value == sheets[name]
      else r == Some((w.value.cell, w.value.chunk)) && f.value == w.value.sheet
  {
    hide SheetFile.Valid, Layout, WriteCell, Table, TableBut;
    Unshared(files, sheets, feet, repr, name);
    f.Chunks();
    TableParts(files, sheets, feet, repr);
    r := f.WriteCellChunk(q.row, q.col, q.node, q.id);
    forall n | n in files && n != name ensures Holds(files[n], sheets[n], feet[n], repr) {
      assert n in feet && n in sheets;
    }
    TableOfParts(files, sheets, feet, repr, name);
  }

  /** Replays a chunk entry and a cell entry into the object under `name`. */
  method ReplayFile(f: SheetFile, chunk: ChunkEntry, cell: CellEntry, ghost files: map<string, SheetFile>,
                    ghost sheets: map<string, Sheet>, ghost feet: map<string, set<ChunkObject>>,
                    ghost repr: set<object>,
                    ghost name: string)
    requires Table(files, sheets, feet, repr) && name in files && name in sheets && files[name] == f
    requires cell.chunkId == chunk.id && cell.target == chunk.target
    requires chunk.target == Absent ==> sheets[name].last != Some(chunk.id)
    modifies f, f.objects
    ensures TableBut(files, sheets, feet, repr, Some(name)) && f in repr && f.Valid()
    ensures name in feet && feet[name] <= repr && forall n :: n in feet && n != name ==> feet[n] !! f.objects
    ensures fresh(f.objects - old(f.objects))
    ensures f.value == HandleCellEntry(HandleChunkEntry(sheets[name], chunk), cell)
  {
    hide SheetFile.Valid, Table, TableBut, HandleCellEntry, Place;
    Unshared(files, sheets, feet, repr, name);
    TableParts(files, sheets, feet, repr);
    f.Replay(chunk, cell);
    forall n | n in files && n != name ensures Holds(files[n], sheets[n], feet[n], repr) {
      assert n in feet && n in sheets;
    }
    TableOfParts(files, sheets, feet, repr, name);
  }

  // ---- the file manager

  /** Every stored cell row has its chunk row. */
  ghost predicate Keyed(db: Database) {
    forall n, x :: n in db.tables && x in db.tables[n] ==> x.chunkId in db.infos
  }

  class FileManager {
    var entries: map<string, MapEntry>
    var openFiles: map<string, SheetFile>
    var fds: map<nat, string>
    var nextFd: nat
    var db: Database
    var journal: seq<MasterEntry>
    ghost var value: Manager
    ghost var feet: map<string, set<ChunkObject>>
    ghost var repr: set<object>

    ghost predicate Valid()
      reads this, repr
    {
      && this !in repr && value == Manager(entries, value.openFiles, fds, nextFd, db) && Keyed(db)
      && Table(openFiles, value.openFiles, feet, repr)
    }

    constructor Load(db: Database)
      requires Keyed(db)
      ensures Valid() && repr == {} && value == LoadFileManager(db) && journal == []
    {
      entries, openFiles, fds, nextFd, this.db, journal := db.entries, map[], map[], 0, db, [];
      value := LoadFileManager(db);
      feet, repr := map[], {};
    }

    method WriteJournal(e: MasterEntry)
      requires Valid()
      modifies this`journal
      ensures Valid() && journal == old(journal) + [e]
    {
      hide Table, Keyed;
      journal := journal + [e];
    }

    /** What was journaled and answered is what `s` says, and so is the new value. */
    twostate predicate Did(s: Step, reply: Reply)
      reads this
    {
      && value == s.m && reply == s.reply
      && journal == old(journal) + (if s.entry.Some? then [s.entry.value] else [])
    }

    /** Recycling and resuming. */
    method MarkSheet(name: string, recycled: bool) returns (r: Reply)
      requires Valid()
      modifies this
      ensures Valid() && repr == old(repr) && Did(Marking(old(value), name, recycled), r)
    {
      hide Table, Keyed;
      if name in entries {
        var entry := entries[name].(recycled := recycled);
        WriteJournal(MasterEntry(None, None, Some(FromMgrEntry(entry))));
        entries := entries[name := entry];
        value := value.(entries := entries);
      }
      r := Done;
    }

    method AllocFd(name: string) returns (fd: nat)
      requires Valid()
      modifies this`fds, this`nextFd, this`value
      ensures Valid() && fd == old(nextFd) && value == WithFd(old(value), name)
    {
      hide Table, Keyed;
      fd := nextFd;
      nextFd := nextFd + 1;
      fds := fds[fd := name];
      value := value.(fds := fds, nextFd := nextFd);
    }

    /** Puts a new object into the table of open files. */
    method PutFile(name: string, f: SheetFile)
      requires Valid() && f.Valid() && f !in repr && f.objects !! repr
      modifies this`openFiles, this`value, this`feet, this`repr
      ensures Valid() && openFiles == old(openFiles)[name := f] && repr == old(repr) + {f} + f.objects
      ensures value == old(value).(openFiles := old(value).openFiles[name := f.value])
    {
      hide Table, Keyed, SheetFile.Valid;
      Putting(name, f);
      openFiles := openFiles[name := f];
      feet := feet[name := f.objects];
      repr := repr + {f} + f.objects;
      value := value.(openFiles := value.openFiles[name := f.value]);
    }

    /** A write to the one object of a file, in its place. */
    method WriteInPlace(name: string, q: Request) returns (r: Option<(Cell, Chunk)>)
      requires Valid() && name in openFiles && name in value.openFiles
      requires Layout(value.openFiles[name]) && q.id !in value.openFiles[name].chunks
      modifies this`value, this`feet, this`repr, openFiles[name], openFiles[name].objects
      ensures Valid() && fresh(repr - old(repr))
      ensures var w := WriteCell(old(value).openFiles[name], q.row, q.col, q.node, q.id);
        if w.None? then r == None && value == old(value)
        else
          && r == Some((w.value.cell, w.value.chunk))
          && value == old(value).(openFiles := old(value).openFiles[name := w.value.sheet])
    {
      hide Table, TableBut, Keyed, SheetFile.Valid, Layout, WriteCell;
      var f := openFiles[name];
      Unshared(openFiles, value.openFiles, feet, repr, name);
      ghost var sheets := value.openFiles;
      r := WriteFile(f, q, openFiles, value.openFiles, feet, repr, name);
      Note(name);
      assert sheets[name := sheets[name]] == sheets;
    }

    /** Takes note of what the object under `name` holds now. */
    ghost method Note(name: string)
      requires this !in repr && value == Manager(entries, value.openFiles, fds, nextFd, db) && Keyed(db)
      requires TableBut(openFiles, value.openFiles, feet, repr, Some(name)) && name in openFiles && name in feet
      requires openFiles[name] in repr && feet[name] <= repr && openFiles[name].Valid()
      requires forall n :: n in feet && n != name ==> feet[n] !! openFiles[name].objects
      modifies this`value, this`feet, this`repr
      ensures Valid() && repr == old(repr) + openFiles[name].objects
      ensures value == old(value).(openFiles := old(value).openFiles[name := openFiles[name].value])
    {
      hide Table, TableBut, Keyed, SheetFile.Valid;
      var f := openFiles[name];
      TableRefreshed(openFiles, value.openFiles, feet, repr, name);
      feet := feet[name := feet[name] + f.objects];
      repr := repr + f.objects;
      value := value.(openFiles := value.openFiles[name := f.value]);
    }

    method ReplayInPlace(name: string, chunk: ChunkEntry, cell: CellEntry)
      requires Valid() && name in openFiles && name in value.openFiles
      requires cell.chunkId == chunk.id && cell.target == chunk.target
      requires chunk.target == Absent ==> value.openFiles[name].last != Some(chunk.id)
      modifies this`value, this`feet, this`repr, openFiles[name], openFiles[name].objects
      ensures Valid() && fresh(repr - old(repr))
      ensures var f := HandleCellEntry(HandleChunkEntry(old(value).openFiles[name], chunk), cell);
        value == old(value).(openFiles := old(value).openFiles[name := f])
    {
      hide Table, TableBut, Keyed, SheetFile.Valid, HandleCellEntry, HandleChunkEntry;
      var f := openFiles[name];
      Unshared(openFiles, value.openFiles, feet, repr, name);
      ReplayFile(f, chunk, cell, openFiles, value.openFiles, feet, repr, name);
      Note(name);
    }

    /** The names of the table are those of its value. */
    lemma Names()
      requires Valid()
      ensures (forall n :: n in openFiles <==> n in value.openFiles) && this !in repr
      ensures value == Manager(entries, value.openFiles, fds, nextFd, db)
    {
      hide Keyed, Distinct, Separate, Holds;
    }

    lemma ObjectAt(name: string)
      requires Valid() && name in openFiles && name in value.openFiles
      ensures openFiles[name] in repr && openFiles[name].objects <= repr
      ensures openFiles[name].Valid() && openFiles[name].value == value.openFiles[name]
    {
      hide Keyed, SheetFile.Valid, Distinct, Separate, Table;
      Unshared(openFiles, value.openFiles, feet, repr, name);
    }

    /** A file object from outside shares nothing with the table. */
    lemma Putting(name: string, f: SheetFile)
      requires Valid() && f.Valid() && f !in repr && f.objects !! repr
      ensures Table(openFiles[name := f], value.openFiles[name := f.value], feet[name := f.objects],
                    repr + {f} + f.objects)
    {
      hide Keyed, SheetFile.Valid, Distinct, Separate, Table;
      TableParts(openFiles, value.openFiles, feet, repr);
      TablePut(openFiles, value.openFiles, feet, repr, name, f);
    }

    /** The row of a new chunk. */
    method AddInfo(id: nat, info: Info)
      requires Valid()
      modifies this`db, this`value
      ensures Valid() && value == old(value).(db := old(value).db.(infos := old(value).db.infos[id := info]))
    {
      hide Table;
      db := db.(infos := db.infos[id := info]);
      value := value.(db := db);
    }

    method SetEntries(es: map<string, MapEntry>)
      requires Valid()
      modifies this`entries, this`value
      ensures Valid() && value == old(value).(entries := es)
    {
      hide Table, Keyed;
      entries := es;
      value := value.(entries := es);
    }

    /** The write and, for a new chunk, its row. */
    method WriteAndStore(name: string, q: Request) returns (r: Option<(Cell, Chunk)>)
      requires Valid() && name in openFiles && name in value.openFiles
      requires Layout(value.openFiles[name]) && q.id !in value.openFiles[name].chunks
      modifies this`value, this`feet, this`repr, this`db, openFiles[name], openFiles[name].objects
      ensures Valid() && fresh(repr - old(repr))
      ensures var w := WriteCell(old(value).openFiles[name], q.row, q.col, q.node, q.id);
        if w.None? then r == None && value == old(value)
        else
          var (cell, chunk, was) := (w.value.cell, w.value.chunk, old(value));
          var infos := if chunk.id in was.openFiles[name].chunks then was.db.infos
            else was.db.infos[chunk.id := Info(chunk.dataNode, 0)];
          && r == Some((cell, chunk))
          && value == was.(openFiles := was.openFiles[name := w.value.sheet], db := was.db.(infos := infos))
    {
      hide Valid, Layout, WriteCell, SheetFile.Valid;
      ObjectAt(name);
      openFiles[name].Chunks();
      var known := openFiles[name].chunks.Keys;
      r := WriteInPlace(name, q);
      if r.Some? && r.value.1.id !in known {
        AddInfo(r.value.1.id, Info(r.value.1.dataNode, 0));
      }
    }

    /** A write through a descriptor changes the one object of the file in its place. */
    method WriteFileCell(fd: nat, q: Request) returns (r: Reply)
      requires Valid()
      requires fd in value.fds ==> value.fds[fd] in value.openFiles && Layout(value.openFiles[value.fds[fd]])
      requires fd in value.fds ==> q.id !in value.openFiles[value.fds[fd]].chunks
      modifies this, repr
      ensures Valid() && fresh(repr - old(repr)) && openFiles == old(openFiles)
      ensures Did(Writing(old(value), fd, q), r)
    {
      hide Valid, Layout, WriteCell, SheetFile.Valid;
      Names();
      if fd !in fds {
        return Failed(FdNotFound);
      }
      var name := fds[fd];
      ObjectAt(name);
      var w := WriteAndStore(name, q);
      if w.None? {
        return Failed(NoDataNodes);
      }
      var (cell, chunk) := w.value;
      WriteJournal(MasterEntry(Some(FromSheetCell(cell, name)), Some(FromSheetChunk(chunk)), None));
      r := Placed(cell, chunk);
    }

    /** A new file object, with the row of its chunk. */
    method NewSheet(node: string, id: nat) returns (f: SheetFile, meta: Cell, chunk: Chunk)
      requires Valid()
      modifies this`db, this`value
      ensures Valid() && value == old(value).(db := old(value).db.(infos := old(value).db.infos[id := Info(node, 0)]))
      ensures fresh(f) && fresh(f.objects) && f.Valid() && Written(f.value, meta, chunk) == Create(node, id)
    {
      hide Valid, SheetFile.Valid, Create;
      f := new SheetFile.Create(node, id);
      AddInfo(id, Info(node, 0));
      meta, chunk := f.Meta(node, id);
    }

    /** Enters a new file into the directory and the table, and opens it. */
    method Enter(name: string, entry: MapEntry, f: SheetFile) returns (fd: nat)
      requires Valid() && f.Valid() && f !in repr && f.objects !! repr
      modifies this`entries, this`openFiles, this`value, this`feet, this`repr, this`fds, this`nextFd
      ensures Valid() && repr == old(repr) + {f} + f.objects && fd == old(value).nextFd
      ensures value == WithFd(old(value).(entries := old(value).entries[name := entry],
                                          openFiles := old(value).openFiles[name := f.value]), name)
    {
      hide Valid, SheetFile.Valid;
      Names();
      SetEntries(entries[name := entry]);
      PutFile(name, f);
      fd := AllocFd(name);
    }

    /** The new object goes into the table. */
    method CreateSheet(name: string, node: Option<string>, id: nat) returns (r: Reply)
      requires Valid()
      modifies this
      ensures Valid() && fresh(repr - old(repr)) && Did(Creating(old(value), name, node, id), r)
    {
      hide Valid, SheetFile.Valid, Create;
      Names();
      if name in entries {
        return Failed(FileExists);
      }
      if node.None? {
        return Failed(NoDataNodes);
      }
      var f, meta, chunk := NewSheet(node.value, id);
      var entry := MapEntry(name, TableName(name), false);
      WriteJournal(MasterEntry(Some(FromSheetCell(meta, name)), Some(FromSheetChunk(chunk)),
                               Some(FromMgrEntry(entry))));
      var fd := Enter(name, entry, f);
      r := Fd(fd);
    }

    /** A file that is not in memory is loaded, one that is keeps its object. */
    method OpenSheet(name: string) returns (r: Reply)
      requires Valid()
      modifies this
      ensures Valid() && fresh(repr - old(repr)) && Did(Opening(old(value), name), r)
      ensures name in old(openFiles) ==> openFiles == old(openFiles)
    {
      hide Valid, SheetFile.Valid, LoadSheetFile;
      Names();
      if name !in entries || entries[name].recycled {
        return Failed(FileNotFound);
      }
      EnsureOpen(name);
      var fd := AllocFd(name);
      r := Fd(fd);
    }

    /** The file is in memory afterwards, and what it holds has not changed. */
    method EnsureOpen(name: string)
      requires Valid()
      modifies this`openFiles, this`value, this`feet, this`repr
      ensures Valid() && fresh(repr - old(repr)) && name in openFiles
      ensures value == old(value).(openFiles := old(value).openFiles[name := FileAt(old(value), name)])
      ensures name in old(openFiles) ==> openFiles == old(openFiles)
    {
      hide Valid, LoadSheetFile;
      Names();
      if name !in openFiles {
        LoadIn(name);
      } else {
        assert value.openFiles[name := value.openFiles[name]] == value.openFiles;
      }
    }

    method LoadIn(name: string)
      requires Valid()
      modifies this`openFiles, this`value, this`feet, this`repr
      ensures Valid() && fresh(repr - old(repr)) && name in openFiles
      ensures value == old(value).(openFiles := old(value).openFiles[name := LoadSheetFile(old(value).db, name)])
    {
      var rows := if name in db.tables then db.tables[name] else [];
      assert forall x :: x in rows ==> x.chunkId in db.infos;
      hide Valid, SheetFile.Valid, Keyed;
      var f := LoadFile(rows, db.infos);
      PutFile(name, f);
    }

    /** Replays an entry of the journal into the objects; nothing is journaled again. */
    method HandleEntry(e: MasterEntry) returns (ok: bool)
      requires Valid()
      requires e.cell.Some? && e.chunk.Some? && e.chunk.value.target == Absent ==>
        FileAt(value, e.cell.value.sheetName).last != Some(e.chunk.value.id)
      modifies this, repr
      ensures Valid() && fresh(repr - old(repr)) && journal == old(journal)
      ensures value == HandleMasterEntry(old(value), e).0 && ok == HandleMasterEntry(old(value), e).1
    {
      hide Valid, SheetFile.Valid, LoadSheetFile, HandleCellEntry, HandleChunkEntry;
      Names();
      if e.mapEntry.Some? {
        SetEntries(HandleMapEntry(entries, e.mapEntry.value));
      }
      Names();
      if e.cell.None? && e.chunk.None? {
        return true;
      }
      if e.cell.None? || e.chunk.None? {
        return false;
      }
      var (cell, chunk) := (e.cell.value, e.chunk.value);
      if cell.chunkId != chunk.id || cell.target != chunk.target || cell.sheetName !in entries {
        return false;
      }
      ReplayInto(cell.sheetName, chunk, cell);
      ok := true;
    }

    /** Loads the file if it is not in memory, and replays the entries into its object. */
    method ReplayInto(name: string, chunk: ChunkEntry, cell: CellEntry)
      requires Valid() && cell.chunkId == chunk.id && cell.target == chunk.target
      requires chunk.target == Absent ==> FileAt(value, name).last != Some(chunk.id)
      modifies this`openFiles, this`value, this`feet, this`repr, repr
      ensures Valid() && fresh(repr - old(repr))
      ensures var f := HandleCellEntry(HandleChunkEntry(FileAt(old(value), name), chunk), cell);
        value == old(value).(openFiles := old(value).openFiles[name := f])
    {
      hide Valid, SheetFile.Valid, FileAt, HandleCellEntry, HandleChunkEntry;
      EnsureOpen(name);
      ObjectAt(name);
      ReplayInPlace(name, chunk, cell);
    }
  }
}
