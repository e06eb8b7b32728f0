/**
  The checkpoint transaction of the file manager: what it leaves in the database
  is, for every key, what the manager had in memory.
 */
module MasterPersist {
  import opened SheetCells
  import opened SheetFiles
  import opened SheetLoading
  import opened MasterJournal
  import opened MasterPrimary
  import opened MasterRecovery

  function TableOf(db: Database, name: string): (rows: seq<Cell>) {
    if name in db.tables then db.tables[name] else []
  }

  /** The rows after all of `cells` were inserted or updated, in some order. */
  ghost predicate Upserted(rows: seq<Cell>, cells: map<int, Cell>, rows': seq<Cell>) {
    && DistinctIds(rows')
    && forall x :: x in rows' <==> (x.cellId in cells && cells[x.cellId] == x) || (x in rows && x.cellId !in cells)
  }

  /** Some open file has the chunk `c`. */
  ghost predicate InMemory(m: Manager, c: nat) {
    exists n :: n in m.openFiles && c in m.openFiles[n].chunks
  }

  /** `db'` is the database after the transaction; only files in memory are written. */
  ghost predicate Persisted(m: Manager, db': Database) {
    && db'.entries == m.db.entries + m.entries
    && (forall n :: n !in m.openFiles ==> TableOf(db', n) == TableOf(m.db, n))
    && (forall n :: n in m.openFiles ==> Upserted(TableOf(m.db, n), m.openFiles[n].cells, TableOf(db', n)))
    && (forall n :: n in m.openFiles ==> InfosOf(m.openFiles[n], db'.infos))
    && (forall c :: !InMemory(m, c) ==> SameInfo(m.db.infos, db'.infos, c))
  }

  ghost predicate InfosOf(f: Sheet, infos: map<nat, Info>) {
    forall c :: c in f.chunks ==> c in infos && infos[c] == Info(f.chunks[c].dataNode, f.chunks[c].version)
  }

  ghost predicate SameInfo(infos: map<nat, Info>, infos': map<nat, Info>, c: nat) {
    (c in infos <==> c in infos') && (c in infos ==> infos[c] == infos'[c])
  }

  // ---- files that are not in memory

  lemma UntouchedFile(m: Manager, db': Database, name: string)
    requires Owned(m) && Persisted(m, db') && name !in m.openFiles
    ensures LoadSheetFile(db', name) == LoadSheetFile(m.db, name)
  {
    forall c | c in LoadSheetFile(m.db, name).chunks ensures SameInfo(m.db.infos, db'.infos, c) {
      assert c in FileAt(m, name).chunks;
      forall n ensures !(n in m.openFiles && c in m.openFiles[n].chunks) {
        assert n in m.openFiles ==> m.openFiles[n] == FileAt(m, n);
      }
    }
    hide LoadSheetFile, Owned;
    LoadSame(m.db, db', name);
  }

  /** The manager itself sees nothing of the transaction. */
  lemma SameInMemory(m: Manager, db': Database, name: string)
    requires Owned(m) && Persisted(m, db')
    ensures FileAt(m.(db := db'), name) == FileAt(m, name)
  {
    hide LoadSheetFile, Persisted, Owned;
    if name !in m.openFiles {
      UntouchedFile(m, db', name);
    }
  }

  // ---- files in memory

  /** What is stored of a file is also in memory. */
  ghost predicate Covered(m: Manager) {
    forall n, x :: n in m.openFiles && x in TableOf(m.db, n) ==>
      x.cellId in m.openFiles[n].cells && m.openFiles[n].cells[x.cellId] == x
  }

  lemma StoredFile(m: Manager, db': Database, name: string)
    requires Sound(m) && Covered(m) && Persisted(m, db') && name in m.openFiles
    ensures SameContent(m.openFiles[name], LoadSheetFile(db', name)) && Layout(LoadSheetFile(db', name))
  {
    var f := m.openFiles[name];
    assert Layout(FileAt(m, name));
    OwnIds(f);
    assert Upserted(TableOf(m.db, name), f.cells, TableOf(db', name));
    assert InfosOf(f, db'.infos);
    assert Indexes(f.cells, TableOf(db', name));
    hide Sound, Persisted, Layout, Covered, LoadRows;
    LoadContent(TableOf(db', name), db'.infos, f);
    var g := LoadSheetFile(db', name);
    assert g == Load(TableOf(db', name), db'.infos);
    assert FirstFree(g.chunks, g.last);
    SameLayout(f, g);
  }

  lemma SameContentLook(f: Sheet, g: Sheet, k: Key)
    requires SameContent(f, g) && !k.FileKey?
    ensures SheetLook(f, k) == SheetLook(g, k)
  {
    if k.ChunkKey? && k.chunk in f.chunks {
      assert SameChunk(f.chunks[k.chunk], g.chunks[k.chunk]);
    }
  }

  /** A restart after the transaction loads every file with the content it had in memory. */
  lemma StoredLook(m: Manager, db': Database, k: Key)
    requires Sound(m) && Covered(m) && Persisted(m, db') && m.db.entries.Keys <= m.entries.Keys
    ensures Look(LoadFileManager(db'), k) == Look(m, k)
  {
    if k.FileKey? {
      assert forall n :: n in m.db.entries ==> n in m.entries.Keys;
    } else if k.name in m.openFiles {
      StoredFile(m, db', k.name);
      hide LoadSheetFile, Persisted, Covered, Sound, SheetLook;
      SameContentLook(m.openFiles[k.name], LoadSheetFile(db', k.name), k);
    } else {
      UntouchedFile(m, db', k.name);
      hide LoadSheetFile, Persisted, Covered, Sound, SheetLook;
    }
  }

  lemma StoredAgrees(m: Manager, db': Database)
    requires Sound(m) && Covered(m) && Persisted(m, db') && m.db.entries.Keys <= m.entries.Keys
    ensures AllAgree(LoadFileManager(db')) && Named(LoadFileManager(db')) && Same(m, LoadFileManager(db'))
  {
    var stored := LoadFileManager(db');
    forall name ensures Agrees(FileAt(stored, name)) {
      assert FileAt(stored, name) == LoadSheetFile(db', name);
      hide LoadSheetFile, Persisted, Covered, Agrees, Layout;
      if name in m.openFiles {
        StoredFile(m, db', name);
      } else {
        UntouchedFile(m, db', name);
        assert Layout(FileAt(m, name));
      }
      LayoutParts(LoadSheetFile(db', name));
    }
    assert Named(stored) by {
      assert forall n :: n in m.db.entries ==> n in m.entries.Keys;
    }
    forall k ensures Look(m, k) == Look(stored, k) {
      hide Look, Persisted, Covered, Sound, FileAt;
      StoredLook(m, db', k);
    }
  }

  /** A checkpoint keeps everything there is to know of the manager, in memory and for a restart. */
  lemma PersistKeeps(m: Manager, db': Database)
    requires Sound(m) && Covered(m) && Persisted(m, db') && m.db.entries.Keys <= m.entries.Keys
    ensures Same(m, m.(db := db')) && Sound(m.(db := db'))
    ensures Same(m, LoadFileManager(db')) && Sound(LoadFileManager(db'))
  {
    var m' := m.(db := db');
    var stored := LoadFileManager(db');
    hide *;
    StoredAgrees(m, db');
    SameSound(m, stored);
    SameInMemorySound(m, db');
  }

  lemma SameSound(m: Manager, stored: Manager)
    requires Sound(m) && Same(m, stored) && AllAgree(stored) && Named(stored)
    ensures Sound(stored)
  {
    hide Look, Sound, AllAgree, Named;
    forall k ensures Look(stored, k) == Look(m, k) {
      assert Look(m, k) == Look(stored, k);
    }
    SameShape(stored, m);
    ShapedSound(stored, m);
  }

  lemma SameInMemorySound(m: Manager, db': Database)
    requires Sound(m) && Persisted(m, db')
    ensures Same(m, m.(db := db')) && Sound(m.(db := db'))
  {
    var m' := m.(db := db');
    forall n ensures FileAt(m', n) == FileAt(m, n) {
      hide Persisted, FileAt;
      SameInMemory(m, db', n);
    }
    hide Persisted, FileAt, Layout;
    forall n ensures Layout(FileAt(m', n)) {
      assert Layout(FileAt(m, n)) && FileAt(m', n) == FileAt(m, n);
    }
    forall n, n', c | c in FileAt(m', n).chunks && c in FileAt(m', n').chunks ensures n == n' {
      assert c in FileAt(m, n).chunks && c in FileAt(m, n').chunks;
    }
  }

  // ---- the transaction is always possible

  lemma {:induction false} UpsertPossible(rows: seq<Cell>, cells: map<int, Cell>) returns (rows': seq<Cell>)
    requires DistinctIds(rows) && forall k :: k in cells ==> cells[k].cellId == k
    ensures Upserted(rows, cells, rows')
    decreases |cells|
  {
    if k :| k in cells {
      var fewer := cells - {k};
      assert cells == fewer[k := cells[k]];
      rows' := UpsertPossible(rows, fewer);
      rows' := UpsertOne(rows, fewer, rows', cells[k]);
    } else {
      rows' := rows;
    }
  }

  /** One more cell: the row with its id goes, and a new one comes at the end. */
  lemma UpsertOne(rows: seq<Cell>, cells: map<int, Cell>, was: seq<Cell>, x: Cell) returns (rows': seq<Cell>)
    requires Upserted(rows, cells, was) && x.cellId !in cells
    ensures Upserted(rows, cells[x.cellId := x], rows')
  {
    var others := Others(was, x.cellId);
    OthersDistinct(was, x.cellId);
    rows' := others + [x];
  }

  ghost function Others(rows: seq<Cell>, k: int): (r: seq<Cell>) {
    if rows == [] then [] else
    Others(rows[..|rows| - 1], k) + if rows[|rows| - 1].cellId == k then [] else [rows[|rows| - 1]]
  }

  lemma {:induction false} OthersDistinct(rows: seq<Cell>, k: int)
    requires DistinctIds(rows)
    ensures DistinctIds(Others(rows, k)) && forall x :: x in Others(rows, k) <==> x in rows && x.cellId != k
  {
    if rows != [] {
      var last := rows[|rows| - 1];
      OthersDistinct(rows[..|rows| - 1], k);
      assert rows == rows[..|rows| - 1] + [last];
      assert forall y :: y in rows[..|rows| - 1] ==> y.cellId != last.cellId;
    }
  }

  ghost function InfoIn(m: Manager, c: nat): (i: Info)
    requires InMemory(m, c)
  {
    var n :| n in m.openFiles && c in m.openFiles[n].chunks;
    Info(m.openFiles[n].chunks[c].dataNode, m.openFiles[n].chunks[c].version)
  }

  lemma InfoOwned(m: Manager, n: string, c: nat)
    requires Owned(m) && n in m.openFiles && c in m.openFiles[n].chunks
    ensures InMemory(m, c) && InfoIn(m, c) == Info(m.openFiles[n].chunks[c].dataNode, m.openFiles[n].chunks[c].version)
  {
    forall n' | n' in m.openFiles && c in m.openFiles[n'].chunks ensures n' == n {
      assert m.openFiles[n] == FileAt(m, n) && m.openFiles[n'] == FileAt(m, n');
    }
  }

  ghost function AllInfos(m: Manager): (infos: map<nat, Info>) {
    map c | c in m.db.infos.Keys + (set n, c | n in m.openFiles && c in m.openFiles[n].chunks :: c) ::
      if InMemory(m, c) then InfoIn(m, c) else if c in m.db.infos then m.db.infos[c] else Info("", 0)
  }

  /** From every state that a node can be in, the checkpoint transaction can be carried out. */
  lemma PersistPossible(m: Manager) returns (db: Database)
    requires Sound(m) && forall n :: DistinctIds(TableOf(m.db, n))
    ensures Persisted(m, db)
  {
    var tables := TablesPossible(m, m.openFiles.Keys);
    db := Database(m.db.entries + m.entries, tables, AllInfos(m));
    forall n | n in m.openFiles ensures InfosOf(m.openFiles[n], db.infos) {
      forall c | c in m.openFiles[n].chunks
        ensures c in db.infos &&
          db.infos[c] == Info(m.openFiles[n].chunks[c].dataNode, m.openFiles[n].chunks[c].version) {
        InfoOwned(m, n, c);
      }
    }
    forall c | !InMemory(m, c) ensures SameInfo(m.db.infos, db.infos, c) {
    }
  }

  ghost predicate TablesFor(m: Manager, tables: map<string, seq<Cell>>, done: set<string>) {
    forall n :: n in done && n in m.openFiles ==>
      n in tables && Upserted(TableOf(m.db, n), m.openFiles[n].cells, tables[n])
  }

  lemma {:induction false} TablesPossible(m: Manager, done: set<string>) returns (tables: map<string, seq<Cell>>)
    requires Sound(m) && (forall n :: DistinctIds(TableOf(m.db, n))) && done <= m.openFiles.Keys
    ensures TablesFor(m, tables, done)
    ensures forall n :: n !in done ==> (if n in tables then tables[n] else []) == TableOf(m.db, n)
    decreases |done|
  {
    if done == {} {
      tables := m.db.tables;
    } else {
      var n :| n in done;
      tables := TablesPossible(m, done - {n});
      assert Layout(FileAt(m, n));
      OwnIds(m.openFiles[n]);
      hide Sound, Layout, Upserted;
      var rows := UpsertPossible(TableOf(m.db, n), m.openFiles[n].cells);
      tables := tables[n := rows];
    }
  }
}
