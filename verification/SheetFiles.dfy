/**
  A sheet file of the master: its cells, its chunks, and the chunk that takes the
  next new cell.
 */
module SheetFiles {
  import opened Options
  import opened SheetCells

  /** `last` is the id of LastAvailableChunk. */
  datatype Sheet = Sheet(chunks: map<nat, Chunk>, cells: map<int, Cell>, last: Option<nat>)

  /** What a write returns: the new file, and the cell and chunk to be written. */
  datatype Written = Written(sheet: Sheet, cell: Cell, chunk: Chunk)

  const NO_SHEET := Sheet(map[], map[], None)

  // ---- the invariant

  /** The list of chunk `c` holds exactly its cells, each once, in slots of their own. */
  ghost predicate Fits(cells: map<int, Cell>, c: nat, chunk: Chunk) {
    chunk.id == c && multiset(chunk.cells) == multiset(CellsOf(cells, c)) && Slotted(CellsOf(cells, c))
  }

  ghost predicate Located(chunks: map<nat, Chunk>, k: int, cell: Cell) {
    cell.cellId == k && cell.chunkId in chunks
  }

  ghost predicate Layout(f: Sheet) {
    && (forall c :: c in f.chunks ==> Fits(f.cells, c, f.chunks[c]))
    && (forall k :: k in f.cells ==> Located(f.chunks, k, f.cells[k]))
    && (f.last.Some? ==> f.last.value in f.chunks)
  }

  /** The list of chunk `c` holds cells of the sheet that lie in `c`, and each of them once. */
  ghost predicate ListsOwn(f: Sheet, c: nat)
    requires c in f.chunks
  {
    && (forall x :: x in f.chunks[c].cells ==> x.cellId in f.cells && f.cells[x.cellId] == x && x.chunkId == c)
    && (forall i, j :: 0 <= i < j < |f.chunks[c].cells| ==> f.chunks[c].cells[i] != f.chunks[c].cells[j])
  }

  lemma ListedAreMapped(f: Sheet, c: nat)
    requires Layout(f) && c in f.chunks
    ensures ListsOwn(f, c)
  {
    assert Fits(f.cells, c, f.chunks[c]);
    OwnIds(f);
    hide Slotted;
    SameCells(f.chunks[c].cells, CellsOf(f.cells, c));
  }

  /** Layout means: every cell has bytes of its own inside its chunk, and the cell map and the
      chunk lists say the same. */
  lemma LayoutMeans(f: Sheet, j: int, k: int)
    requires Layout(f) && j in f.cells && k in f.cells
    ensures var x := f.cells[j]; var y := f.cells[k];
      && x.chunkId in f.chunks && x in f.chunks[x.chunkId].cells && x.offset + x.size <= BYTES_PER_CHUNK
      && (j != k && x.chunkId == y.chunkId ==> Apart(x, y) && !x.IsMeta())
    ensures forall c :: c in f.chunks ==> ListsOwn(f, c)
  {
    forall c | c in f.chunks ensures ListsOwn(f, c) {
      ListedAreMapped(f, c);
    }
    var x := f.cells[j];
    var y := f.cells[k];
    var s := CellsOf(f.cells, x.chunkId);
    assert Located(f.chunks, j, x) && Located(f.chunks, k, y);
    assert Fits(f.cells, x.chunkId, f.chunks[x.chunkId]);
    assert x in s && (x.chunkId == y.chunkId ==> y in s);
    hide Slotted;
    SameCells(f.chunks[x.chunkId].cells, s);
    if x.chunkId == y.chunkId {
      SlotsApart(s, x, y);
    } else {
      SlotsApart(s, x, x);
    }
  }

  /** The meta cell is there, and every chunk but the current one is full. */
  ghost predicate Packed(f: Sheet) {
    && META_CELL_ID in f.cells
    && forall c :: c in f.chunks && f.last != Some(c) ==> !Available(f.chunks[c].cells, MAX_BYTES_PER_CELL)
  }

  // ---- operations

  /** A new file: a meta cell in a chunk of its own. */
  function Create(node: string, id: nat): (w: Written) {
    var meta := Cell(META_CELL_ID, 0, BYTES_PER_CHUNK, id);
    var chunk := Chunk(id, node, 0, [meta]);
    Written(Sheet(map[id := chunk], map[META_CELL_ID := meta], None), meta, chunk)
  }

  lemma CreateLayout(node: string, id: nat)
    ensures Layout(Create(node, id).sheet) && Packed(Create(node, id).sheet)
  {
    var w := Create(node, id);
    var meta := w.cell;
    assert w.sheet.cells[META_CELL_ID] == meta;
    assert CellsOf(w.sheet.cells, id) == {meta};
    assert multiset([meta]) == multiset({meta});
    Room([meta], {meta}, 0);
  }

  /** Puts a new cell behind the others of chunk `c`, which becomes the current chunk. */
  function AddCell(f: Sheet, c: nat, k: int, size: nat): (w: Written)
    requires c in f.chunks
  {
    var was := f.chunks[c];
    var cell := Cell(k, |was.cells| * MAX_BYTES_PER_CELL, size, was.id);
    var chunk := was.(cells := was.cells + [cell], version := was.version + 1);
    Written(Sheet(f.chunks[c := chunk], f.cells[k := cell], Some(c)), cell, chunk)
  }

  function SizeOfNew(k: int): (size: nat) { if k == META_CELL_ID then BYTES_PER_CHUNK else MAX_BYTES_PER_CELL }

  /** Writing the cell at (row, col): `node` is what the allocator answers, `id` the next chunk id. */
  function WriteCell(f: Sheet, row: uint32, col: uint32, node: Option<string>, id: nat): (w: Option<Written>)
    requires Layout(f)
  {
    var k := GetCellID(row, col);
    if k in f.cells then
      assert Located(f.chunks, k, f.cells[k]);
      var cell := f.cells[k];
      var chunk := f.chunks[cell.chunkId].(version := f.chunks[cell.chunkId].version + 1);
      Some(Written(f.(chunks := f.chunks[cell.chunkId := chunk]), cell, chunk))
    else if f.last.Some? && Available(f.chunks[f.last.value].cells, SizeOfNew(k)) then
      Some(AddCell(f, f.last.value, k, SizeOfNew(k)))
    else if node.None? then
      None
    else
      Some(AddCell(f.(chunks := f.chunks[id := Chunk(id, node.value, 0, [])]), id, k, SizeOfNew(k)))
  }

  // ---- a write keeps the layout

  /** Only chunk `c` gets another cell. */
  lemma CellsGrow(cells: map<int, Cell>, x: Cell, c: nat)
    requires x.cellId !in cells && forall k :: k in cells ==> cells[k].cellId == k
    ensures CellsOf(cells[x.cellId := x], c) == if c == x.chunkId then CellsOf(cells, c) + {x} else CellsOf(cells, c)
    ensures x !in CellsOf(cells, c)
  {
    var cells' := cells[x.cellId := x];
    forall y
      ensures y in CellsOf(cells', c) <==>
        y in (if c == x.chunkId then CellsOf(cells, c) + {x} else CellsOf(cells, c)) {
      if y in CellsOf(cells, c) {
        assert cells'[y.cellId] == y;
      }
      if c == x.chunkId && y == x {
        assert cells'[x.cellId] == x;
      }
    }
  }

  /** One more cell at the end of a list with room keeps its slots apart. */
  lemma NextSlot(cells: seq<Cell>, s: set<Cell>, x: Cell)
    requires multiset(cells) == multiset(s) && x !in s && x.size == SizeOfNew(x.cellId)
    requires x.offset == |cells| * MAX_BYTES_PER_CELL
    requires s != {} ==> Slotted(s) && Available(cells, x.size)
    ensures Slotted(s + {x}) && multiset(cells + [x]) == multiset(s + {x})
  {
    hide Available, Used;
    SameCells(cells, s);
    assert |s + {x}| == |s| + 1;
    assert multiset(s + {x}) == multiset(s) + multiset{x};
    if s != {} {
      Room(cells, s, x.size);
      assert !x.IsMeta();
      forall y | y in s ensures y.size == MAX_BYTES_PER_CELL && InSlot(y.offset, |s| + 1) && y.offset != x.offset {
        var i: nat :| i < |s| && y.offset == i * MAX_BYTES_PER_CELL;
        assert i < |s| + 1;
      }
      assert x.offset == |s| * MAX_BYTES_PER_CELL;
    } else {
      assert s + {x} == {x};
      assert x.offset == 0 * MAX_BYTES_PER_CELL;
    }
  }

  lemma NoCells(f: Sheet, id: nat)
    requires Layout(f) && id !in f.chunks
    ensures CellsOf(f.cells, id) == {}
  {
    assert forall k :: k in f.cells ==> Located(f.chunks, k, f.cells[k]);
  }

  lemma OwnIds(f: Sheet)
    requires Layout(f)
    ensures forall k :: k in f.cells ==> f.cells[k].cellId == k
  {
    assert forall k :: k in f.cells ==> Located(f.chunks, k, f.cells[k]);
  }

  /** The list of chunk `c` after one more cell went to chunk `x.chunkId`. */
  lemma GrownFits(f: Sheet, x: Cell, c: nat, chunk: Chunk)
    requires Layout(f) && x.cellId !in f.cells
    requires c == x.chunkId ==>
      var was := if c in f.chunks then f.chunks[c].cells else [];
      && chunk.id == c && chunk.cells == was + [x] && x.size == SizeOfNew(x.cellId)
      && x.offset == |was| * MAX_BYTES_PER_CELL
      && (c in f.chunks ==> Available(was, x.size))
    requires c != x.chunkId ==> c in f.chunks && chunk == f.chunks[c]
    ensures Fits(f.cells[x.cellId := x], c, chunk)
  {
    OwnIds(f);
    CellsGrow(f.cells, x, c);
    hide Slotted, Available, SizeOfNew;
    assert c in f.chunks ==> Fits(f.cells, c, f.chunks[c]);
    if c == x.chunkId {
      if c !in f.chunks {
        NoCells(f, c);
      }
      NextSlot(if c in f.chunks then f.chunks[c].cells else [], CellsOf(f.cells, c), x);
    }
  }

  /** Adding a cell to the sheet, to a chunk with room or to an empty new one. */
  lemma AddLayout(f: Sheet, g: Sheet, c: nat, k: int)
    requires Layout(f) && k !in f.cells
    requires g.cells == f.cells && c in g.chunks && g.chunks[c].id == c
    requires g.chunks == f.chunks[c := g.chunks[c]]
    requires if c in f.chunks
      then g.chunks[c] == f.chunks[c] && Available(f.chunks[c].cells, SizeOfNew(k)) else g.chunks[c].cells == []
    ensures Layout(AddCell(g, c, k, SizeOfNew(k)).sheet)
  {
    var w := AddCell(g, c, k, SizeOfNew(k));
    hide Fits, Available, SizeOfNew;
    forall j | j in w.sheet.cells ensures Located(w.sheet.chunks, j, w.sheet.cells[j]) {
      assert j != k ==> Located(f.chunks, j, f.cells[j]);
    }
    forall d | d in w.sheet.chunks ensures Fits(w.sheet.cells, d, w.sheet.chunks[d]) {
      GrownFits(f, w.cell, d, w.sheet.chunks[d]);
    }
  }

  lemma WriteLayout(f: Sheet, row: uint32, col: uint32, node: Option<string>, id: nat)
    requires Layout(f) && id !in f.chunks
    ensures var w := WriteCell(f, row, col, node, id); w.Some? ==> Layout(w.value.sheet)
  {
    var k := GetCellID(row, col);
    hide GetCellID, Available, CellsOf, Slotted, SizeOfNew;
    if k in f.cells {
      assert Located(f.chunks, k, f.cells[k]);
      var w := WriteCell(f, row, col, node, id).value;
      forall c | c in w.sheet.chunks ensures Fits(w.sheet.cells, c, w.sheet.chunks[c]) {
        assert Fits(f.cells, c, f.chunks[c]);
      }
      forall j | j in w.sheet.cells ensures Located(w.sheet.chunks, j, w.sheet.cells[j]) {
        assert Located(f.chunks, j, f.cells[j]);
      }
    } else if f.last.Some? && Available(f.chunks[f.last.value].cells, SizeOfNew(k)) {
      assert Fits(f.cells, f.last.value, f.chunks[f.last.value]);
      AddLayout(f, f, f.last.value, k);
    } else if node.Some? {
      AddLayout(f, f.(chunks := f.chunks[id := Chunk(id, node.value, 0, [])]), id, k);
    }
  }

  /** Chunk `c` has `size` bytes left. */
  ghost predicate HasRoom(f: Sheet, c: nat, size: nat) {
    c in f.chunks && Used(f.chunks[c].cells) + size <= BYTES_PER_CHUNK
  }

  /** A write fails exactly if it needs a data node, for a cell that is new and has no room in the current chunk,
      and there is none. It never moves a cell, changes one version by one, and touches nothing else. */
  lemma WriteMeans(f: Sheet, row: uint32, col: uint32, node: Option<string>, id: nat)
    requires Layout(f) && id !in f.chunks
    ensures var w := WriteCell(f, row, col, node, id); var k := GetCellID(row, col);
      && (w.None? <==> k !in f.cells && node.None? && !(f.last.Some? && HasRoom(f, f.last.value, SizeOfNew(k))))
      && (w.Some? ==>
            && var (f', cell, chunk) := (w.value.sheet, w.value.cell, w.value.chunk);
            && f'.cells == f.cells[k := cell] && (k in f.cells ==> cell == f.cells[k])
            && f'.chunks == f.chunks[cell.chunkId := chunk] && chunk.id == cell.chunkId
            && chunk.version == (if chunk.id in f.chunks then f.chunks[chunk.id].version else 0) + 1
            && (chunk.id in f.chunks ==> chunk.dataNode == f.chunks[chunk.id].dataNode)
            && (chunk.id !in f.chunks ==> chunk.id == id && node == Some(chunk.dataNode))
            && cell in chunk.cells && cell.cellId == k)
  {
    var k := GetCellID(row, col);
    hide GetCellID, Available, CellsOf, Slotted, SizeOfNew, Used, ListsOwn;
    if k in f.cells {
      LayoutMeans(f, k, k);
      assert Located(f.chunks, k, f.cells[k]);
      assert Fits(f.cells, f.cells[k].chunkId, f.chunks[f.cells[k].chunkId]);
      assert f.cells[k := f.cells[k]] == f.cells;
    } else if f.last.Some? {
      assert Fits(f.cells, f.last.value, f.chunks[f.last.value]);
      Room(f.chunks[f.last.value].cells, CellsOf(f.cells, f.last.value), SizeOfNew(k));
    }
  }
}
