/**
  Sheet files as the master keeps them in memory: objects that are changed in place.
  Each method does to the file's value what the functions of the other modules say.
 */
module SheetObjects {
  import opened Options
  import opened SheetCells
  import opened SheetFiles
  import opened SheetLoading
  import opened MasterJournal

  class ChunkObject {
    var id: nat
    var dataNode: string
    var version: nat
    var cells: seq<Cell>

    constructor (id: nat, dataNode: string, version: nat, cells: seq<Cell>)
      ensures Value() == Chunk(id, dataNode, version, cells)
    {
      this.id, this.dataNode, this.version, this.cells := id, dataNode, version, cells;
    }

    function Value(): (c: Chunk)
      reads this
    {
      Chunk(id, dataNode, version, cells)
    }

    ghost predicate Holds(c: nat, chunk: Chunk)
      reads this
    {
      id == c && Value() == chunk
    }

    method Overwrite(e: ChunkEntry)
      requires e.id == id
      modifies this
      ensures Value() == ToSheetChunk(e, old(cells))
    {
      id, version, dataNode := e.id, e.version, e.dataNode;
    }

    /** Puts the cell in the place of the one with its id, or at the end. */
    method EnsureConsistency(x: Cell)
      modifies this`cells
      ensures cells == Place(old(cells), x)
    {
      var i := 0;
      while i < |cells|
        invariant 0 <= i <= |cells| && cells == old(cells)
        invariant forall j :: 0 <= j < i ==> cells[j].cellId != x.cellId
      {
        if cells[i].cellId == x.cellId {
          PlaceAt(cells, x, i);
          cells := cells[i := x];
          return;
        }
        i := i + 1;
      }
      PlaceNew(cells, x);
      cells := cells + [x];
    }

    method Append(cell: Cell)
      modifies this
      ensures Value() == old(Value()).(cells := old(cells) + [cell], version := old(version) + 1)
    {
      cells := cells + [cell];
      version := version + 1;
    }
  }

  class SheetFile {
    var chunks: map<nat, ChunkObject>
    var cells: map<int, Cell>
    var last: ChunkObject?
    ghost var objects: set<ChunkObject>
    ghost var value: Sheet

    /** `value` is what the objects hold. Chunk objects are filed under their ids; the current
        chunk is one of them. */
    ghost predicate Valid()
      reads this, objects
    {
      && cells == value.cells
      && chunks.Keys == value.chunks.Keys
      && (forall c :: c in chunks ==> chunks[c] in objects && chunks[c].Holds(c, value.chunks[c]))
      && (if last == null then value.last == None
          else last in objects && last.id in chunks && chunks[last.id] == last && value.last == Some(last.id))
    }

    lemma Filing()
      requires Valid()
      ensures cells == value.cells && (forall c :: c in chunks <==> c in value.chunks)
      ensures forall c :: c in chunks ==> chunks[c] in objects
      ensures if last == null then value.last == None else last in objects && value.last.Some?
    {
      assert forall c :: c in chunks <==> c in value.chunks.Keys;
    }

    /** The ids are those of the file's value. */
    lemma Chunks()
      requires Valid()
      ensures chunks.Keys == value.chunks.Keys
    {
    }

    /** A new file with its meta cell. */
    constructor Create(node: string, id: nat)
      ensures Valid() && fresh(objects) && value == SheetFiles.Create(node, id).sheet
    {
      var meta := Cell(META_CELL_ID, 0, BYTES_PER_CHUNK, id);
      var chunk := new ChunkObject(id, node, 0, [meta]);
      chunks := map[id := chunk];
      cells := map[META_CELL_ID := meta];
      last := null;
      objects := {chunk};
      value := SheetFiles.Create(node, id).sheet;
    }

    /** The meta cell and its chunk, as they are in a new file. */
    method Meta(node: string, id: nat) returns (cell: Cell, chunk: Chunk)
      requires Valid() && value == SheetFiles.Create(node, id).sheet
      ensures cell == SheetFiles.Create(node, id).cell && chunk == SheetFiles.Create(node, id).chunk
    {
      Filing();
      cell := cells[META_CELL_ID];
      chunk := chunks[id].Value();
    }

    constructor Empty()
      ensures Valid() && objects == {} && value == NO_SHEET
    {
      chunks, cells, last := map[], map[], null;
      objects, value := {}, NO_SHEET;
    }

    method AddCellToLastAvailable(k: int, size: nat) returns (cell: Cell)
      requires Valid() && last != null
      modifies this`cells, this`value, last
      ensures Valid() && last.id == old(last.id) && last.id in old(value).chunks
      ensures var w := AddCell(old(value), last.id, k, size);
        cell == w.cell && value == w.sheet && last.Value() == w.chunk
    {
      cell := Cell(k, |last.cells| * MAX_BYTES_PER_CELL, size, last.id);
      cells := cells[k := cell];
      last.Append(cell);
      value := AddCell(value, last.id, k, size).sheet;
    }

    method RaiseVersion(c: nat) returns (chunk: Chunk)
      requires Valid() && c in chunks
      modifies this`value, chunks[c]
      ensures Valid() && c in old(value).chunks
      ensures chunk == old(value).chunks[c].(version := old(value).chunks[c].version + 1)
      ensures value == old(value).(chunks := old(value).chunks[c := chunk])
    {
      chunks[c].version := chunks[c].version + 1;
      chunk := chunks[c].Value();
      value := value.(chunks := value.chunks[c := chunk]);
    }

    /** A new chunk object, filed under its id. */
    method FileChunk(id: nat, node: string, version: nat, list: seq<Cell>) returns (chunk: ChunkObject)
      requires Valid() && id !in chunks
      modifies this`chunks, this`objects, this`value
      ensures Valid() && fresh(chunk) && objects == old(objects) + {chunk}
      ensures chunk.Value() == Chunk(id, node, version, list) && id in chunks && chunks[id] == chunk
      ensures value == old(value).(chunks := old(value).chunks[id := Chunk(id, node, version, list)])
    {
      chunk := new ChunkObject(id, node, version, list);
      chunks := chunks[id := chunk];
      objects := objects + {chunk};
      value := value.(chunks := value.chunks[id := chunk.Value()]);
    }

    method SetLast(chunk: ChunkObject)
      requires Valid() && chunk in objects && chunk.id in chunks && chunks[chunk.id] == chunk
      modifies this`last, this`value
      ensures Valid() && last == chunk && value == old(value).(last := Some(chunk.id))
    {
      last := chunk;
      value := value.(last := Some(chunk.id));
    }

    method SetCell(x: Cell)
      requires Valid()
      modifies this`cells, this`value
      ensures Valid() && value == old(value).(cells := old(value).cells[x.cellId := x])
    {
      cells := cells[x.cellId := x];
      value := value.(cells := cells);
    }

    /** A new chunk, which becomes the current one. */
    method NewChunk(node: string, id: nat)
      requires Valid() && id !in chunks
      modifies this
      ensures Valid() && fresh(objects - old(objects)) && old(objects) <= objects && cells == old(cells)
      ensures last != null && last.id == id && fresh(last)
      ensures value == old(value).(chunks := old(value).chunks[id := Chunk(id, node, 0, [])], last := Some(id))
    {
      hide Valid;
      var chunk := FileChunk(id, node, 0, []);
      SetLast(chunk);
    }

    /** One round of loading: the cell, and its chunk if it is not there yet. */
    method TakeRow(rows: seq<Cell>, infos: map<nat, Info>, x: Cell)
      requires Valid() && x.chunkId in infos
      modifies this
      ensures Valid() && fresh(objects - old(objects)) && value == LoadRow(old(value), rows, infos, x)
    {
      hide Valid, RowsOf, Available, Used;
      Filing();
      SetCell(x);
      if x.chunkId !in chunks {
        var list := RowsOf(rows, x.chunkId);
        var chunk := FileChunk(x.chunkId, infos[x.chunkId].dataNode, infos[x.chunkId].version, list);
        if last == null {
          var room := IsAvailable(list, MAX_BYTES_PER_CELL);
          if room {
            SetLast(chunk);
          }
        }
      }
    }

    /** Takes a chunk out of the map. */
    method DropChunk(id: nat)
      requires Valid() && value.last != Some(id)
      modifies this`chunks, this`value
      ensures Valid() && value == old(value).(chunks := old(value).chunks - {id})
    {
      Filing();
      chunks := chunks - {id};
      value := value.(chunks := value.chunks - {id});
    }

    /** Replaying a chunk entry: a new chunk with an empty list, other values for the one there, or its removal,
        unless it is the current one. */
    method HandleChunkEntry(e: ChunkEntry)
      requires Valid() && (e.target == Absent ==> value.last != Some(e.id))
      modifies this, objects
      ensures Valid() && fresh(objects - old(objects)) && old(objects) <= objects
      ensures e.target == Present ==> e.id in chunks
      ensures value == MasterJournal.HandleChunkEntry(old(value), e)
    {
      Filing();
      if e.target == Absent {
        DropChunk(e.id);
      } else if e.id !in chunks {
        var chunk := FileChunk(e.id, e.dataNode, e.version, []);
      } else {
        OverwriteChunk(e);
      }
    }

    method OverwriteChunk(e: ChunkEntry)
      requires Valid() && e.target == Present && e.id in chunks
      modifies this`value, chunks[e.id]
      ensures Valid() && value == MasterJournal.HandleChunkEntry(old(value), e)
    {
      chunks[e.id].Overwrite(e);
      value := MasterJournal.HandleChunkEntry(value, e);
    }

    /** Replaying a cell entry: the cell goes into the map and into the list of its chunk, or out of the map. */
    method HandleCellEntry(e: CellEntry)
      requires Valid() && (e.target == Present ==> e.chunkId in chunks)
      modifies this, objects
      ensures Valid() && objects == old(objects)
      ensures e.target == Present ==> e.chunkId in old(value).chunks
      ensures value == MasterJournal.HandleCellEntry(old(value), e)
    {
      Filing();
      if e.target == Absent {
        cells := cells - {e.cellId};
        value := value.(cells := cells);
      } else {
        PlaceCell(e);
      }
    }

    /** Replays the two entries of a write. */
    method Replay(chunk: ChunkEntry, cell: CellEntry)
      requires Valid() && cell.chunkId == chunk.id && cell.target == chunk.target
      requires chunk.target == Absent ==> value.last != Some(chunk.id)
      modifies this, objects
      ensures Valid() && fresh(objects - old(objects)) && old(objects) <= objects
      ensures value == MasterJournal.HandleCellEntry(MasterJournal.HandleChunkEntry(old(value), chunk), cell)
    {
      hide Valid, MasterJournal.HandleCellEntry;
      HandleChunkEntry(chunk);
      HandleCellEntry(cell);
    }

    method PlaceCell(e: CellEntry)
      requires Valid() && e.target == Present && e.chunkId in chunks
      modifies this`cells, this`value, chunks[e.chunkId]
      ensures Valid() && e.chunkId in old(value).chunks
      ensures value == MasterJournal.HandleCellEntry(old(value), e)
    {
      Filing();
      var x := ToSheetCell(e);
      SetCell(x);
      chunks[x.chunkId].EnsureConsistency(x);
      value := MasterJournal.HandleCellEntry(value, e);
    }

    method HasRoom(size: nat) returns (room: bool)
      requires Valid()
      ensures value.last.Some? ==> value.last.value in value.chunks
      ensures room == (value.last.Some? && Available(value.chunks[value.last.value].cells, size))
      ensures room ==> last != null && value.last == Some(last.id)
    {
      room := false;
      if last != null {
        room := IsAvailable(last.cells, size);
      }
    }

    method WriteCellChunk(row: uint32, col: uint32, node: Option<string>, id: nat) returns (r: Option<(Cell, Chunk)>)
      requires Valid() && Layout(value) && id !in chunks
      modifies this, objects
      ensures Valid() && fresh(objects - old(objects)) && old(objects) <= objects
      ensures var w := WriteCell(old(value), row, col, node, id);
        if w.None? then r == None && value == old(value)
        else r == Some((w.value.cell, w.value.chunk)) && value == w.value.sheet
    {
      var k := GetCellID(row, col);
      hide *;
      WriteCellCases(value, row, col, node, id);
      Filing();
      if k in cells {
        var chunk := RaiseVersion(cells[k].chunkId);
        r := Some((cells[k], chunk));
      } else {
        var size := SizeOfNew(k);
        var room := HasRoom(size);
        if room {
          var cell := AddCellToLastAvailable(k, size);
          r := Some((cell, last.Value()));
        } else if node.None? {
          r := None;
        } else {
          ghost var f := value.(chunks := value.chunks[id := Chunk(id, node.value, 0, [])]);
          AddIgnoresLast(f, id, k, size);
          NewChunk(node.value, id);
          assert value == f.(last := Some(id));
          var cell := AddCellToLastAvailable(k, size);
          r := Some((cell, last.Value()));
        }
      }
    }
  }

  /** The branches of a write, one by one. */
  lemma WriteCellCases(f: Sheet, row: uint32, col: uint32, node: Option<string>, id: nat)
    requires Layout(f)
    ensures f.last.Some? ==> f.last.value in f.chunks
    ensures var k := GetCellID(row, col); k in f.cells ==> f.cells[k].chunkId in f.chunks
    ensures var k := GetCellID(row, col); k in f.cells ==>
      var c := f.cells[k].chunkId;
      var chunk := f.chunks[c].(version := f.chunks[c].version + 1);
      WriteCell(f, row, col, node, id) == Some(Written(f.(chunks := f.chunks[c := chunk]), f.cells[k], chunk))
    ensures var k := GetCellID(row, col); k !in f.cells ==>
      WriteCell(f, row, col, node, id) ==
        if f.last.Some? && Available(f.chunks[f.last.value].cells, SizeOfNew(k))
        then Some(AddCell(f, f.last.value, k, SizeOfNew(k)))
        else if node.None? then None
        else Some(AddCell(f.(chunks := f.chunks[id := Chunk(id, node.value, 0, [])]), id, k, SizeOfNew(k)))
  {
    hide GetCellID, Fits;
    var k := GetCellID(row, col);
    assert k in f.cells ==> Located(f.chunks, k, f.cells[k]);
  }

  lemma AddIgnoresLast(f: Sheet, c: nat, k: int, size: nat)
    requires c in f.chunks
    ensures AddCell(f.(last := Some(c)), c, k, size) == AddCell(f, c, k, size)
  {
  }

  lemma {:induction false} PlaceAt(cells: seq<Cell>, x: Cell, i: nat)
    requires i < |cells| && cells[i].cellId == x.cellId && forall j :: 0 <= j < i ==> cells[j].cellId != x.cellId
    ensures Place(cells, x) == cells[i := x]
  {
    if i > 0 {
      PlaceAt(cells[1..], x, i - 1);
      assert cells[i := x] == [cells[0]] + cells[1..][i - 1 := x];
    } else {
      assert cells[0 := x] == [x] + cells[1..];
    }
  }

  /** The loading loop. Every row's chunk is in the chunk table, as the foreign key demands. */
  method LoadFile(rows: seq<Cell>, infos: map<nat, Info>) returns (f: SheetFile)
    requires forall x :: x in rows ==> x.chunkId in infos
    ensures fresh(f) && fresh(f.objects) && f.Valid() && f.value == Load(rows, infos)
  {
    f := new SheetFile.Empty();
    for i := 0 to |rows|
      invariant fresh(f) && fresh(f.objects) && f.Valid() && f.value == LoadRows(rows, infos, i)
    {
      hide LoadRows, LoadRow, RowsOf;
      f.TakeRow(rows, infos, rows[i]);
      LoadRowsNext(rows, infos, i);
    }
  }

  lemma LoadRowsNext(rows: seq<Cell>, infos: map<nat, Info>, i: nat)
    requires i < |rows|
    ensures LoadRows(rows, infos, i + 1) == LoadRow(LoadRows(rows, infos, i), rows, infos, rows[i])
  {
    hide LoadRow;
  }
}
