/**
  Storing a sheet file and loading it again.

  The database keeps one table of cell rows for each sheet, in any order, and one
  table of chunk rows for all sheets. Chunk lists and the current chunk are not
  stored: loading works them out from the cell rows.
 */
module SheetLoading {
  import opened Options
  import opened SheetCells
  import opened SheetFiles

  /** A chunk row. */
  datatype Info = Info(dataNode: string, version: nat)

  /** The rows of chunk `c`, in the table's order. */
  function RowsOf(rows: seq<Cell>, c: nat): (r: seq<Cell>) {
    if rows == [] then [] else
    var x := rows[|rows| - 1];
    RowsOf(rows[..|rows| - 1], c) + if x.chunkId == c then [x] else []
  }

  /** A chunk that is not in the database loads as an all-zero one. */
  function LoadChunk(rows: seq<Cell>, infos: map<nat, Info>, c: nat): (chunk: Chunk) {
    if c in infos then Chunk(c, infos[c].dataNode, infos[c].version, RowsOf(rows, c)) else Chunk(0, "", 0, [])
  }

  /** One round of the loading loop. */
  function LoadRow(f: Sheet, rows: seq<Cell>, infos: map<nat, Info>, x: Cell): (f': Sheet) {
    var f1 := f.(cells := f.cells[x.cellId := x]);
    if x.chunkId in f.chunks then f1 else
    var chunk := LoadChunk(rows, infos, x.chunkId);
    Sheet(f.chunks[x.chunkId := chunk], f1.cells,
          if f.last == None && Available(chunk.cells, MAX_BYTES_PER_CELL) then Some(x.chunkId) else f.last)
  }

  /** The loop after `n` rows. */
  function LoadRows(rows: seq<Cell>, infos: map<nat, Info>, n: nat): (f: Sheet)
    requires n <= |rows|
  {
    if n == 0 then NO_SHEET else LoadRow(LoadRows(rows, infos, n - 1), rows, infos, rows[n - 1])
  }

  function Load(rows: seq<Cell>, infos: map<nat, Info>): (f: Sheet) { LoadRows(rows, infos, |rows|) }

  // ---- what loading gives

  /** The chunk `c` as the rows and its own row give it; without a row of its own it comes out all zero. */
  ghost predicate FromRows(chunk: Chunk, rows: seq<Cell>, infos: map<nat, Info>, c: nat) {
    if c in infos then
      && chunk.id == c && chunk.dataNode == infos[c].dataNode && chunk.version == infos[c].version
      && (forall x :: x in chunk.cells <==> x in rows && x.chunkId == c)
    else chunk == Chunk(0, "", 0, [])
  }

  lemma {:induction false} RowsOfMembers(rows: seq<Cell>, c: nat, x: Cell)
    ensures x in RowsOf(rows, c) <==> x in rows && x.chunkId == c
  {
    if rows != [] {
      RowsOfMembers(rows[..|rows| - 1], c, x);
      assert rows == rows[..|rows| - 1] + [rows[|rows| - 1]];
    }
  }

  /** Every chunk that some row names is loaded, from its own row and the rows that name it. */
  lemma {:induction false} LoadedFromRows(rows: seq<Cell>, infos: map<nat, Info>, n: nat, c: nat)
    requires n <= |rows|
    ensures c in LoadRows(rows, infos, n).chunks <==> exists i :: 0 <= i < n && rows[i].chunkId == c
    ensures c in LoadRows(rows, infos, n).chunks ==> FromRows(LoadRows(rows, infos, n).chunks[c], rows, infos, c)
  {
    if n > 0 {
      LoadedFromRows(rows, infos, n - 1, c);
      forall x ensures x in RowsOf(rows, c) <==> x in rows && x.chunkId == c {
        RowsOfMembers(rows, c, x);
      }
      hide RowsOf, Available;
    }
  }

  /** A chunk with room for a cell. */
  ghost predicate HasSpace(rows: seq<Cell>, infos: map<nat, Info>, c: nat) {
    Available(LoadChunk(rows, infos, c).cells, MAX_BYTES_PER_CELL)
  }

  /** The chunk of row `i` is the first with room, in the order of the rows. */
  ghost predicate FirstWithSpace(rows: seq<Cell>, infos: map<nat, Info>, n: nat, i: nat)
    requires n <= |rows|
  {
    && i < n && HasSpace(rows, infos, rows[i].chunkId)
    && forall j :: 0 <= j < i ==> !HasSpace(rows, infos, rows[j].chunkId)
  }

  ghost predicate NoneWithSpace(rows: seq<Cell>, infos: map<nat, Info>, n: nat)
    requires n <= |rows|
  {
    forall i :: 0 <= i < n ==> !HasSpace(rows, infos, rows[i].chunkId)
  }

  ghost predicate LastIs(rows: seq<Cell>, infos: map<nat, Info>, n: nat, last: Option<nat>)
    requires n <= |rows|
  {
    if last.None? then NoneWithSpace(rows, infos, n)
    else exists i: nat :: FirstWithSpace(rows, infos, n, i) && last.value == rows[i].chunkId
  }

  lemma LastStays(rows: seq<Cell>, infos: map<nat, Info>, n: nat, last: Option<nat>)
    requires 0 < n <= |rows| && LastIs(rows, infos, n - 1, last)
    requires last.None? ==> !HasSpace(rows, infos, rows[n - 1].chunkId)
    ensures LastIs(rows, infos, n, last)
  {
    hide HasSpace;
    if last.Some? {
      var i: nat :| FirstWithSpace(rows, infos, n - 1, i) && last.value == rows[i].chunkId;
      assert FirstWithSpace(rows, infos, n, i);
    }
  }

  lemma LastTaken(rows: seq<Cell>, infos: map<nat, Info>, n: nat)
    requires 0 < n <= |rows| && NoneWithSpace(rows, infos, n - 1) && HasSpace(rows, infos, rows[n - 1].chunkId)
    ensures LastIs(rows, infos, n, Some(rows[n - 1].chunkId))
  {
    hide HasSpace;
    assert FirstWithSpace(rows, infos, n, n - 1);
  }

  lemma LastNext(rows: seq<Cell>, infos: map<nat, Info>, n: nat)
    requires 0 < n <= |rows|
    ensures var was, c := LoadRows(rows, infos, n - 1), rows[n - 1].chunkId;
      LoadRows(rows, infos, n).last ==
      if c !in was.chunks && was.last.None? && HasSpace(rows, infos, c) then Some(c) else was.last
  {
    hide LoadChunk, Available;
  }

  /** A chunk that was loaded while none had room has none. */
  lemma SeenFull(rows: seq<Cell>, infos: map<nat, Info>, n: nat, c: nat)
    requires n <= |rows| && LastIs(rows, infos, n, None) && c in LoadRows(rows, infos, n).chunks
    ensures NoneWithSpace(rows, infos, n) && !HasSpace(rows, infos, c)
  {
    hide HasSpace, LoadRows, FromRows;
    LoadedFromRows(rows, infos, n, c);
  }

  lemma LastAtFirst(rows: seq<Cell>, infos: map<nat, Info>)
    ensures LastIs(rows, infos, 0, LoadRows(rows, infos, 0).last)
  {
  }

  /** The current chunk after loading is the first one with room, in the order of the rows, if there is one. */
  lemma {:induction false} LoadedLast(rows: seq<Cell>, infos: map<nat, Info>, n: nat)
    requires n <= |rows|
    ensures LastIs(rows, infos, n, LoadRows(rows, infos, n).last)
  {
    hide *;
    if n == 0 {
      LastAtFirst(rows, infos);
    } else {
      LoadedLast(rows, infos, n - 1);
      LastNext(rows, infos, n);
      var was, c := LoadRows(rows, infos, n - 1), rows[n - 1].chunkId;
      if was.last.None? {
        NoneIs(rows, infos, n - 1);
        if c in was.chunks {
          SeenFull(rows, infos, n - 1, c);
        }
      }
      if c !in was.chunks && was.last.None? && HasSpace(rows, infos, c) {
        LastTaken(rows, infos, n);
      } else {
        LastStays(rows, infos, n, was.last);
      }
    }
  }

  lemma NoneIs(rows: seq<Cell>, infos: map<nat, Info>, n: nat)
    requires n <= |rows| && LastIs(rows, infos, n, None)
    ensures NoneWithSpace(rows, infos, n)
  {
  }

  ghost predicate DistinctIds(rows: seq<Cell>) {
    forall i, j :: 0 <= i < j < |rows| ==> rows[i].cellId != rows[j].cellId
  }

  /** `cells` maps ids to the cells in `done`. */
  ghost predicate Indexes(cells: map<int, Cell>, done: seq<Cell>) {
    && (forall x :: x in done ==> x.cellId in cells && cells[x.cellId] == x)
    && (forall k :: k in cells ==> cells[k].cellId == k && cells[k] in done)
  }

  ghost predicate HasRow(done: seq<Cell>, c: nat) {
    exists x :: x in done && x.chunkId == c
  }

  /** `chunks` holds the chunks of the rows in `done`, loaded from all `rows`. */
  ghost predicate LoadedFor(chunks: map<nat, Chunk>, done: seq<Cell>, rows: seq<Cell>, infos: map<nat, Info>) {
    forall c :: (c in chunks <==> HasRow(done, c)) && (c in chunks ==> chunks[c] == LoadChunk(rows, infos, c))
  }

  /** `last` has room if there is a chunk with room, and only then. */
  ghost predicate FirstFree(chunks: map<nat, Chunk>, last: Option<nat>) {
    if last.Some? then last.value in chunks && Available(chunks[last.value].cells, MAX_BYTES_PER_CELL)
    else forall c :: c in chunks ==> !Available(chunks[c].cells, MAX_BYTES_PER_CELL)
  }

  lemma RowIndexed(cells: map<int, Cell>, done: seq<Cell>, x: Cell)
    requires Indexes(cells, done) && forall y :: y in done ==> y.cellId != x.cellId
    ensures Indexes(cells[x.cellId := x], done + [x])
  {
  }

  lemma RowLoaded(chunks: map<nat, Chunk>, done: seq<Cell>, rows: seq<Cell>, infos: map<nat, Info>, x: Cell)
    requires LoadedFor(chunks, done, rows, infos)
    ensures LoadedFor(chunks[x.chunkId := LoadChunk(rows, infos, x.chunkId)], done + [x], rows, infos)
  {
    hide LoadChunk;
    forall c ensures HasRow(done + [x], c) <==> HasRow(done, c) || c == x.chunkId {
      if HasRow(done, c) {
        var y :| y in done && y.chunkId == c;
        assert y in done + [x];
      }
      assert x in done + [x];
    }
  }

  lemma LoadRowTakes(f: Sheet, rows: seq<Cell>, infos: map<nat, Info>, done: seq<Cell>, x: Cell)
    requires Indexes(f.cells, done) && LoadedFor(f.chunks, done, rows, infos) && FirstFree(f.chunks, f.last)
    requires forall y :: y in done ==> y.cellId != x.cellId
    ensures var f' := LoadRow(f, rows, infos, x);
      Indexes(f'.cells, done + [x]) && LoadedFor(f'.chunks, done + [x], rows, infos) && FirstFree(f'.chunks, f'.last)
  {
    hide Available, LoadChunk, Indexes, HasRow;
    RowIndexed(f.cells, done, x);
    RowLoaded(f.chunks, done, rows, infos, x);
    if x.chunkId in f.chunks {
      assert f.chunks[x.chunkId := LoadChunk(rows, infos, x.chunkId)] == f.chunks;
    }
  }

  lemma LoadNone(rows: seq<Cell>, infos: map<nat, Info>)
    ensures Indexes(map[], []) && LoadedFor(map[], [], rows, infos) && FirstFree(map[], None)
  {
    hide Available, LoadChunk;
  }

  lemma {:induction false} LoadTakes(rows: seq<Cell>, infos: map<nat, Info>, n: nat)
    requires n <= |rows| && DistinctIds(rows)
    ensures var f := LoadRows(rows, infos, n);
      Indexes(f.cells, rows[..n]) && LoadedFor(f.chunks, rows[..n], rows, infos) && FirstFree(f.chunks, f.last)
  {
    hide Indexes, LoadedFor, FirstFree, LoadRow;
    if n == 0 {
      LoadNone(rows, infos);
    } else {
      LoadTakes(rows, infos, n - 1);
      forall y | y in rows[..n - 1] ensures y.cellId != rows[n - 1].cellId {
        var i :| 0 <= i < n - 1 && rows[i] == y;
      }
      LoadRowTakes(LoadRows(rows, infos, n - 1), rows, infos, rows[..n - 1], rows[n - 1]);
      assert rows[..n] == rows[..n - 1] + [rows[n - 1]];
    }
  }

  // ---- the database holds a file

  /** `rows` and `infos` are what persisting `f` leaves, whatever the order of the rows. */
  ghost predicate Stores(rows: seq<Cell>, infos: map<nat, Info>, f: Sheet) {
    && DistinctIds(rows) && Indexes(f.cells, rows)
    && forall c :: c in f.chunks ==> c in infos && infos[c] == Info(f.chunks[c].dataNode, f.chunks[c].version)
  }

  lemma {:induction false} RowsCount(rows: seq<Cell>, c: nat, x: Cell)
    requires DistinctIds(rows)
    ensures multiset(RowsOf(rows, c))[x] == if x.chunkId == c && x in rows then 1 else 0
  {
    if rows != [] {
      var y := rows[|rows| - 1];
      RowsCount(rows[..|rows| - 1], c, x);
      assert rows == rows[..|rows| - 1] + [y];
    }
  }

  /** The rows of a chunk are its cells, each once. */
  lemma RowsAreCells(rows: seq<Cell>, cells: map<int, Cell>, c: nat)
    requires DistinctIds(rows) && Indexes(cells, rows)
    ensures multiset(RowsOf(rows, c)) == multiset(CellsOf(cells, c))
  {
    forall x ensures multiset(RowsOf(rows, c))[x] == multiset(CellsOf(cells, c))[x] {
      hide RowsOf;
      RowsCount(rows, c, x);
      assert x in CellsOf(cells, c) <==> x in rows && x.chunkId == c;
    }
  }

  /** Chunks that differ at most in the order of their lists. */
  ghost predicate SameChunk(a: Chunk, b: Chunk) {
    a.id == b.id && a.dataNode == b.dataNode && a.version == b.version && multiset(a.cells) == multiset(b.cells)
  }

  /** The same cells and chunks. */
  ghost predicate SameContent(f: Sheet, g: Sheet) {
    && f.cells == g.cells && (forall c :: c in f.chunks <==> c in g.chunks)
    && forall c :: c in f.chunks ==> SameChunk(f.chunks[c], g.chunks[c])
  }

  /** The chunk that would take a new ordinary cell. */
  ghost function Current(f: Sheet): (c: Option<nat>)
    requires f.last.Some? ==> f.last.value in f.chunks
  {
    if f.last.Some? && Available(f.chunks[f.last.value].cells, MAX_BYTES_PER_CELL) then f.last else None
  }

  /** A chunk of the file has a row, and a row has a chunk in the file. */
  lemma ChunkHasRow(rows: seq<Cell>, f: Sheet, c: nat)
    requires Layout(f) && Indexes(f.cells, rows)
    ensures HasRow(rows, c) <==> c in f.chunks
  {
    if c in f.chunks {
      assert Fits(f.cells, c, f.chunks[c]);
      var x :| x in CellsOf(f.cells, c);
      assert x in rows;
    }
    if HasRow(rows, c) {
      var x :| x in rows && x.chunkId == c;
      assert Located(f.chunks, x.cellId, x);
    }
  }

  lemma LoadedChunk(rows: seq<Cell>, infos: map<nat, Info>, f: Sheet, c: nat)
    requires Layout(f) && Stores(rows, infos, f) && c in f.chunks
    ensures SameChunk(f.chunks[c], LoadChunk(rows, infos, c))
  {
    hide Slotted, Indexes, DistinctIds, RowsOf, CellsOf;
    RowsAreCells(rows, f.cells, c);
    assert Fits(f.cells, c, f.chunks[c]);
  }

  lemma SameIndex(a: map<int, Cell>, b: map<int, Cell>, rows: seq<Cell>)
    requires Indexes(a, rows) && Indexes(b, rows)
    ensures a == b
  {
    forall k ensures k in a <==> k in b {
      assert k in a ==> a[k] in rows;
      assert k in b ==> b[k] in rows;
    }
    forall k | k in a ensures a[k] == b[k] {
      assert a[k] in rows;
    }
  }

  lemma LoadContent(rows: seq<Cell>, infos: map<nat, Info>, f: Sheet)
    requires Layout(f) && Stores(rows, infos, f)
    ensures SameContent(f, Load(rows, infos)) && FirstFree(Load(rows, infos).chunks, Load(rows, infos).last)
  {
    var g := Load(rows, infos);
    hide Layout, LoadRows, SameChunk, LoadChunk, FirstFree, Indexes, HasRow;
    LoadTakes(rows, infos, |rows|);
    assert rows[..|rows|] == rows;
    SameIndex(f.cells, g.cells, rows);
    forall c ensures c in g.chunks <==> c in f.chunks { ChunkHasRow(rows, f, c); }
    forall c | c in f.chunks ensures SameChunk(f.chunks[c], g.chunks[c]) { LoadedChunk(rows, infos, f, c); }
  }

  /** Layout depends on the content and on a current chunk that exists. */
  lemma SameLayout(f: Sheet, g: Sheet)
    requires Layout(f) && SameContent(f, g) && (g.last.Some? ==> g.last.value in g.chunks)
    ensures Layout(g)
  {
    forall c | c in g.chunks ensures Fits(g.cells, c, g.chunks[c]) {
      assert c in f.chunks && Fits(f.cells, c, f.chunks[c]) && SameChunk(f.chunks[c], g.chunks[c]);
    }
    forall k | k in g.cells ensures Located(g.chunks, k, g.cells[k]) {
      assert Located(f.chunks, k, f.cells[k]);
    }
  }

  /** Room in a chunk does not depend on the order of its list. */
  lemma SameRoom(f: Sheet, g: Sheet, c: nat)
    requires Layout(f) && SameContent(f, g) && c in f.chunks
    ensures Available(f.chunks[c].cells, MAX_BYTES_PER_CELL) == Available(g.chunks[c].cells, MAX_BYTES_PER_CELL)
    ensures !Available(f.chunks[c].cells, BYTES_PER_CHUNK) && !Available(g.chunks[c].cells, BYTES_PER_CHUNK)
    ensures |f.chunks[c].cells| == |g.chunks[c].cells|
  {
    hide Available, Slotted;
    var s := CellsOf(f.cells, c);
    assert Fits(f.cells, c, f.chunks[c]) && SameChunk(f.chunks[c], g.chunks[c]);
    Room(f.chunks[c].cells, s, 0);
    Room(g.chunks[c].cells, s, 0);
    SameCells(f.chunks[c].cells, s);
    SameCells(g.chunks[c].cells, s);
  }

  /** The same content and the same place for the next cell. */
  ghost predicate Equivalent(f: Sheet, g: Sheet) {
    && Layout(f) && Layout(g) && Packed(f) && Packed(g) && SameContent(f, g) && Current(f) == Current(g)
  }

  /** Persisting and loading a packed file gives an equivalent one, for every order of the rows. */
  lemma PersistThenLoad(rows: seq<Cell>, infos: map<nat, Info>, f: Sheet)
    requires Layout(f) && Packed(f) && Stores(rows, infos, f)
    ensures Equivalent(f, Load(rows, infos))
  {
    var g := Load(rows, infos);
    hide Available, Slotted, LoadRows, CellsOf;
    LoadContent(rows, infos, f);
    SameLayout(f, g);
    forall c | c in f.chunks
      ensures Available(f.chunks[c].cells, MAX_BYTES_PER_CELL) == Available(g.chunks[c].cells, MAX_BYTES_PER_CELL) {
      SameRoom(f, g, c);
    }
  }

  // ---- equivalent files behave alike

  /** One write request: what the allocator answers, and the next chunk id. */
  datatype Request = Request(row: uint32, col: uint32, node: Option<string>, id: nat)

  /** What a client is told. */
  datatype Answer = NoDataNode | Go(cell: Cell, chunkId: nat, dataNode: string, version: nat)

  ghost function AnswerOf(w: Option<Written>): (a: Answer) {
    if w.None? then NoDataNode else Go(w.value.cell, w.value.chunk.id, w.value.chunk.dataNode, w.value.chunk.version)
  }

  /** The branch a write takes: the cell is there, it goes to the current chunk, or to a new one. */
  lemma WriteBranch(f: Sheet, r: Request)
    requires Layout(f)
    ensures var w := WriteCell(f, r.row, r.col, r.node, r.id); var k := GetCellID(r.row, r.col);
      if k in f.cells then
        var c := f.cells[k].chunkId;
        && c in f.chunks && w.Some? && w.value.cell == f.cells[k]
        && w.value.chunk == f.chunks[c].(version := f.chunks[c].version + 1)
        && w.value.sheet == f.(chunks := f.chunks[c := w.value.chunk])
      else if k != META_CELL_ID && Current(f).Some? then
        w == Some(AddCell(f, f.last.value, k, MAX_BYTES_PER_CELL))
      else if r.node.None? then w == None
      else w == Some(AddCell(f.(chunks := f.chunks[r.id := Chunk(r.id, r.node.value, 0, [])]), r.id, k, SizeOfNew(k)))
  {
    var k := GetCellID(r.row, r.col);
    hide GetCellID, CellsOf, Slotted, Available, Fits;
    if k in f.cells {
      assert Located(f.chunks, k, f.cells[k]);
    } else if f.last.Some? {
      SameAsItself(f);
      SameRoom(f, f, f.last.value);
    }
  }

  lemma SameAsItself(f: Sheet)
    ensures SameContent(f, f)
  {
  }

  /** A write keeps all chunks but the current one full. */
  lemma WritePacked(f: Sheet, r: Request)
    requires Layout(f) && Packed(f) && r.id !in f.chunks
    ensures var w := WriteCell(f, r.row, r.col, r.node, r.id); w.Some? ==> Packed(w.value.sheet)
  {
    hide GetCellID, CellsOf, Slotted, Available, Fits, WriteCell, SizeOfNew;
    WriteBranch(f, r);
  }

  lemma SamePut(f: Sheet, g: Sheet, c: nat, a: Chunk, b: Chunk)
    requires SameContent(f, g) && SameChunk(a, b)
    ensures SameContent(f.(chunks := f.chunks[c := a]), g.(chunks := g.chunks[c := b]))
  {
    hide SameChunk;
  }

  lemma SameAdd(f: Sheet, g: Sheet, c: nat, k: int, size: nat)
    requires SameContent(f, g) && c in f.chunks && |f.chunks[c].cells| == |g.chunks[c].cells|
    ensures var v := AddCell(f, c, k, size); var w := AddCell(g, c, k, size);
      && v.cell == w.cell && SameChunk(v.chunk, w.chunk) && SameContent(v.sheet, w.sheet)
      && v.sheet.last == w.sheet.last == Some(c)
  {
    var v := AddCell(f, c, k, size);
    var w := AddCell(g, c, k, size);
    assert SameChunk(f.chunks[c], g.chunks[c]);
    SamePut(f, g, c, v.chunk, w.chunk);
  }

  lemma SameCurrent(f: Sheet, g: Sheet)
    requires Layout(f) && Layout(g) && SameContent(f, g) && f.last == g.last
    ensures Current(f) == Current(g)
  {
    hide Available, CellsOf, Slotted, Fits, SameContent;
    if f.last.Some? {
      SameRoom(f, g, f.last.value);
    }
  }

  /** A write to a cell that is there. */
  lemma SameRewrite(f: Sheet, g: Sheet, c: nat)
    requires Layout(f) && Layout(g) && SameContent(f, g) && Current(f) == Current(g) && c in f.chunks
    ensures var a := f.chunks[c].(version := f.chunks[c].version + 1);
      var b := g.chunks[c].(version := g.chunks[c].version + 1);
      && var f' := f.(chunks := f.chunks[c := a]); var g' := g.(chunks := g.chunks[c := b]);
      SameChunk(a, b) && SameContent(f', g') && Current(f') == Current(g')
  {
    hide Available, CellsOf, Slotted, Fits;
    var a := f.chunks[c].(version := f.chunks[c].version + 1);
    var b := g.chunks[c].(version := g.chunks[c].version + 1);
    assert SameChunk(f.chunks[c], g.chunks[c]);
    SamePut(f, g, c, a, b);
  }

  /** Two equivalent files answer alike. */
  lemma SameAnswer(f: Sheet, g: Sheet, r: Request)
    requires Equivalent(f, g) && r.id !in f.chunks
    ensures var v := WriteCell(f, r.row, r.col, r.node, r.id); var w := WriteCell(g, r.row, r.col, r.node, r.id);
      && v.Some? == w.Some?
      && (v.Some? ==> v.value.cell == w.value.cell && SameChunk(v.value.chunk, w.value.chunk))
      && (v.Some? ==> SameContent(v.value.sheet, w.value.sheet))
      && (v.Some? && GetCellID(r.row, r.col) !in f.cells ==> v.value.sheet.last == w.value.sheet.last)
  {
    var k := GetCellID(r.row, r.col);
    hide GetCellID, CellsOf, Slotted, Available, Fits, WriteCell, SizeOfNew, AddCell, SameChunk;
    WriteBranch(f, r);
    WriteBranch(g, r);
    if k in f.cells {
      SameRewrite(f, g, f.cells[k].chunkId);
    } else if k != META_CELL_ID && Current(f).Some? {
      SameRoom(f, g, f.last.value);
      SameAdd(f, g, f.last.value, k, MAX_BYTES_PER_CELL);
    } else if r.node.Some? {
      var chunk := Chunk(r.id, r.node.value, 0, []);
      assert SameChunk(chunk, chunk) by { SameChunkAsItself(chunk); }
      SamePut(f, g, r.id, chunk, chunk);
      SameAdd(f.(chunks := f.chunks[r.id := chunk]), g.(chunks := g.chunks[r.id := chunk]), r.id, k, SizeOfNew(k));
    }
  }

  lemma SameChunkAsItself(chunk: Chunk)
    ensures SameChunk(chunk, chunk)
  {
  }

  /** ... and stay equivalent. */
  lemma SameWrite(f: Sheet, g: Sheet, r: Request)
    requires Equivalent(f, g) && r.id !in f.chunks
    ensures var v := WriteCell(f, r.row, r.col, r.node, r.id); var w := WriteCell(g, r.row, r.col, r.node, r.id);
      && AnswerOf(v) == AnswerOf(w)
      && (v.Some? ==> Equivalent(v.value.sheet, w.value.sheet))
  {
    hide GetCellID, CellsOf, Slotted, Available, Fits, WriteCell, Current, AddCell;
    SameAnswer(f, g, r);
    WritePacked(f, r);
    WritePacked(g, r);
    WriteLayout(f, r.row, r.col, r.node, r.id);
    WriteLayout(g, r.row, r.col, r.node, r.id);
    var v := WriteCell(f, r.row, r.col, r.node, r.id);
    var w := WriteCell(g, r.row, r.col, r.node, r.id);
    if v.Some? {
      if GetCellID(r.row, r.col) in f.cells {
        WriteBranch(f, r);
        WriteBranch(g, r);
        SameRewrite(f, g, f.cells[GetCellID(r.row, r.col)].chunkId);
      } else {
        SameCurrent(v.value.sheet, w.value.sheet);
      }
    }
  }

  // ---- whole runs

  /** The file after a run of requests; a request that fails changes nothing. */
  ghost function After(f: Sheet, r: Request): (f': Sheet)
    requires Layout(f)
  {
    var w := WriteCell(f, r.row, r.col, r.node, r.id);
    if w.Some? then w.value.sheet else f
  }

  /** Each request brings a chunk id that is new at its time. */
  ghost predicate NewIds(f: Sheet, rs: seq<Request>)
    decreases |rs|
  {
    rs == [] || (Layout(f) && rs[0].id !in f.chunks && NewIds(After(f, rs[0]), rs[1..]))
  }

  ghost function Answers(f: Sheet, rs: seq<Request>): (answers: seq<Answer>)
    requires NewIds(f, rs)
    decreases |rs|
  {
    if rs == [] then [] else
    [AnswerOf(WriteCell(f, rs[0].row, rs[0].col, rs[0].node, rs[0].id))] + Answers(After(f, rs[0]), rs[1..])
  }

  lemma {:induction false} SameAnswers(f: Sheet, g: Sheet, rs: seq<Request>)
    requires Equivalent(f, g) && NewIds(f, rs)
    ensures NewIds(g, rs) && Answers(f, rs) == Answers(g, rs)
    decreases |rs|
  {
    if rs != [] {
      hide Layout, Packed, Current, WriteCell;
      SameWrite(f, g, rs[0]);
      SameAnswers(After(f, rs[0]), After(g, rs[0]), rs[1..]);
    }
  }

  /** A file that was persisted and loaded answers every later run of writes as the original would. */
  lemma LoadIsIdentity(rows: seq<Cell>, infos: map<nat, Info>, f: Sheet, rs: seq<Request>)
    requires Layout(f) && Packed(f) && Stores(rows, infos, f) && NewIds(f, rs)
    ensures NewIds(Load(rows, infos), rs) && Answers(f, rs) == Answers(Load(rows, infos), rs)
  {
    PersistThenLoad(rows, infos, f);
    SameAnswers(f, Load(rows, infos), rs);
  }

  // ---- a primary's whole life

  /** In the life of a file, a write or a restart that stores the file and loads it again. */
  datatype Turn = Ask(r: Request) | Reload(rows: seq<Cell>, infos: map<nat, Info>)

  /** The turns can be taken one after the other: chunk ids are new, and what is loaded is what was stored. */
  ghost predicate Lives(f: Sheet, turns: seq<Turn>)
    decreases |turns|
  {
    turns == [] ||
    match turns[0]
    case Ask(r) => Layout(f) && r.id !in f.chunks && Lives(After(f, r), turns[1..])
    case Reload(rows, infos) => Stores(rows, infos, f) && Lives(Load(rows, infos), turns[1..])
  }

  ghost function LifeAnswers(f: Sheet, turns: seq<Turn>): (answers: seq<Answer>)
    requires Lives(f, turns)
    decreases |turns|
  {
    if turns == [] then [] else
    match turns[0]
    case Ask(r) => [AnswerOf(WriteCell(f, r.row, r.col, r.node, r.id))] + LifeAnswers(After(f, r), turns[1..])
    case Reload(rows, infos) => LifeAnswers(Load(rows, infos), turns[1..])
  }

  /** The writes of a life, without the restarts. */
  ghost function Asked(turns: seq<Turn>): (rs: seq<Request>) {
    if turns == [] then [] else (if turns[0].Ask? then [turns[0].r] else []) + Asked(turns[1..])
  }

  lemma SameContentTransitive(f: Sheet, g: Sheet, h: Sheet)
    requires SameContent(f, g) && SameContent(g, h)
    ensures SameContent(f, h)
  {
    forall c | c in f.chunks ensures SameChunk(f.chunks[c], h.chunks[c]) {
      assert SameChunk(f.chunks[c], g.chunks[c]) && SameChunk(g.chunks[c], h.chunks[c]);
    }
  }

  lemma EquivalentTransitive(f: Sheet, g: Sheet, h: Sheet)
    requires Equivalent(f, g) && Equivalent(g, h)
    ensures Equivalent(f, h)
  {
    hide Layout, Packed, SameContent, Current;
    SameContentTransitive(f, g, h);
  }

  lemma EquivalentChunks(f: Sheet, g: Sheet, c: nat)
    requires Equivalent(f, g)
    ensures c in f.chunks <==> c in g.chunks
  {
    hide Layout, Packed, Current;
  }

  lemma {:induction false} LifeAlike(f: Sheet, g: Sheet, turns: seq<Turn>)
    requires Equivalent(f, g) && Lives(g, turns)
    ensures NewIds(f, Asked(turns)) && LifeAnswers(g, turns) == Answers(f, Asked(turns))
    decreases |turns|
  {
    if turns == [] {
      assert Asked(turns) == [];
    } else {
      match turns[0] {
        case Ask(r) => LifeAsk(f, g, r, turns);
        case Reload(rows, infos) =>
          hide After, NewIds, Answers;
          PersistThenLoad(rows, infos, g);
          EquivalentTransitive(f, g, Load(rows, infos));
          hide Equivalent;
          LifeAlike(f, Load(rows, infos), turns[1..]);
          assert Asked(turns) == Asked(turns[1..]);
      }
    }
  }

  lemma {:induction false} LifeAsk(f: Sheet, g: Sheet, r: Request, turns: seq<Turn>)
    requires Equivalent(f, g) && Lives(g, turns) && turns != [] && turns[0] == Ask(r)
    ensures NewIds(f, Asked(turns)) && LifeAnswers(g, turns) == Answers(f, Asked(turns))
    decreases |turns|, 0
  {
    var rest := turns[1..];
    assert Asked(turns)[0] == r && Asked(turns)[1..] == Asked(rest);
    EquivalentChunks(f, g, r.id);
    SameWrite(f, g, r);
    hide Layout, Packed, Current, WriteCell, SameContent, AnswerOf;
    LifeAlike(After(f, r), After(g, r), rest);
  }

  /** Restarts are never noticed: from its creation on, a file that is stored and loaded again at any points of its
      life answers every write as a file that stays in memory. */
  lemma WholeLife(node: string, id: nat, turns: seq<Turn>)
    requires Lives(Create(node, id).sheet, turns)
    ensures var f := Create(node, id).sheet;
      NewIds(f, Asked(turns)) && LifeAnswers(f, turns) == Answers(f, Asked(turns))
  {
    var f := Create(node, id).sheet;
    CreateLayout(node, id);
    SameAsItself(f);
    hide Layout, Packed, Create, SameContent;
    LifeAlike(f, f, turns);
  }

  /** In particular every chunk but the current one is full, after any writes to a created file. */
  lemma {:induction false} AlwaysPacked(f: Sheet, rs: seq<Request>)
    requires Layout(f) && Packed(f) && NewIds(f, rs)
    ensures Layout(AfterAll(f, rs)) && Packed(AfterAll(f, rs))
    decreases |rs|
  {
    if rs != [] {
      hide Layout, Packed, WriteCell;
      WritePacked(f, rs[0]);
      WriteLayout(f, rs[0].row, rs[0].col, rs[0].node, rs[0].id);
      AlwaysPacked(After(f, rs[0]), rs[1..]);
    }
  }

  ghost function AfterAll(f: Sheet, rs: seq<Request>): (f': Sheet)
    requires NewIds(f, rs)
    decreases |rs|
  {
    if rs == [] then f else AfterAll(After(f, rs[0]), rs[1..])
  }
}
