/**
  Cells and chunks of SheetFS: where a cell lives, and when a chunk has room for
  another one.

  A chunk is a block of 8192 bytes. An ordinary cell takes one of its four slots
  of 2048 bytes; the meta cell of a sheet takes a whole chunk.
 */
module SheetCells {
  import opened Numbers

  const BYTES_PER_CHUNK: nat := 8192
  const MAX_BYTES_PER_CELL: nat := 2048
  const MAX_CELLS_PER_CHUNK: nat := 4
  const META_CELL_ID: int := -1

  type uint32 = x: nat | x < TWO32

  datatype Cell = Cell(cellId: int, offset: nat, size: nat, chunkId: nat) {
    predicate IsMeta() { cellId == META_CELL_ID }
  }

  datatype Chunk = Chunk(id: nat, dataNode: string, version: nat, cells: seq<Cell>)

  /** Row in the upper half, column in the lower half, read as a signed 64-bit number. */
  function GetCellID(row: uint32, col: uint32): (id: int) {
    var bits := row * TWO32 + col;
    if bits < TWO63 then bits else bits - TWO64
  }

  /** Different places have different ids. */
  lemma CellIdInjective(row: uint32, col: uint32, row': uint32, col': uint32)
    ensures GetCellID(row, col) == GetCellID(row', col') <==> row == row' && col == col'
  {
    if GetCellID(row, col) == GetCellID(row', col') {
      assert row * TWO32 + col == row' * TWO32 + col';
    }
  }

  /** Row and column can be read off the id: the upper and the lower half of its 64 bits. */
  lemma CellIdDecodes(row: uint32, col: uint32)
    ensures var id := GetCellID(row, col);
      && 0 <= id + TWO63 < TWO64 && id % TWO64 / TWO32 == row && id % TWO64 % TWO32 == col
  {
    var id := GetCellID(row, col);
    assert id % TWO64 == row * TWO32 + col;
  }

  /** Only the last row and column together name the meta cell. */
  lemma MetaCellPlace(row: uint32, col: uint32)
    ensures GetCellID(row, col) == META_CELL_ID <==> row == TWO32 - 1 && col == TWO32 - 1
  {
    CellIdInjective(row, col, TWO32 - 1, TWO32 - 1);
  }

  /** The bytes taken by the cells of a chunk. */
  function Used(cells: seq<Cell>): (n: nat) {
    if cells == [] then 0 else Used(cells[..|cells| - 1]) + cells[|cells| - 1].size
  }

  /** Room for `size` more bytes, by the source's unsigned 64-bit subtraction. */
  predicate Available(cells: seq<Cell>, size: nat) {
    size <= (BYTES_PER_CHUNK - Used(cells)) % TWO64
  }

  method IsAvailable(cells: seq<Cell>, size: nat) returns (ok: bool)
    ensures ok == Available(cells, size)
  {
    var used := 0;
    for i := 0 to |cells|
      invariant used == Used(cells[..i]) % TWO64
    {
      assert cells[..i + 1][..i] == cells[..i];
      used := (used + cells[i].size) % TWO64;
    }
    assert cells[..|cells|] == cells;
    ok := size <= (BYTES_PER_CHUNK - used) % TWO64;
  }

  // ---- the cells of one chunk

  /** The cells of a sheet that lie in chunk `c`. */
  ghost function CellsOf(cells: map<int, Cell>, c: nat): (s: set<Cell>) {
    set k | k in cells && cells[k].chunkId == c :: cells[k]
  }

  /** A meta cell is alone in its chunk; other cells have slots of their own, the first ones. */
  ghost predicate Slotted(s: set<Cell>) {
    && 1 <= |s| <= MAX_CELLS_PER_CHUNK
    && (forall x :: x in s && x.IsMeta() ==> |s| == 1 && x.offset == 0 && x.size == BYTES_PER_CHUNK)
    && (forall x :: x in s && !x.IsMeta() ==> x.size == MAX_BYTES_PER_CELL && InSlot(x.offset, |s|))
    && (forall x, y :: x in s && y in s && x.offset == y.offset ==> x == y)
  }

  /** One of the first `n` slots begins at `offset`. */
  ghost predicate InSlot(offset: nat, n: nat) {
    exists i: nat :: i < n && offset == i * MAX_BYTES_PER_CELL
  }

  /** The bytes of `x` and of `y` do not meet. */
  ghost predicate Apart(x: Cell, y: Cell) {
    x.offset + x.size <= y.offset || y.offset + y.size <= x.offset
  }

  /** Slotted cells lie inside the chunk and do not overlap. */
  lemma SlotsApart(s: set<Cell>, x: Cell, y: Cell)
    requires Slotted(s) && x in s && y in s
    ensures x.offset + x.size <= BYTES_PER_CHUNK
    ensures x != y ==> Apart(x, y) && !x.IsMeta()
  {
    if x != y {
      TwoMembers(s, x, y);
    }
    if !x.IsMeta() {
      var i: nat :| i < |s| && x.offset == i * MAX_BYTES_PER_CELL;
      if !y.IsMeta() {
        var j: nat :| j < |s| && y.offset == j * MAX_BYTES_PER_CELL;
      }
    }
  }

  lemma TwoMembers<T>(s: set<T>, x: T, y: T)
    requires x in s && y in s && x != y
    ensures |s| >= 2
  {
    assert {x, y} <= s;
    assert |s - {x, y}| == |s| - 2;
  }

  /** The cells of a list, and of a set without repetition, take the same bytes. */
  lemma {:induction false} UsedPlain(cells: seq<Cell>)
    requires forall i :: 0 <= i < |cells| ==> cells[i].size == MAX_BYTES_PER_CELL
    ensures Used(cells) == |cells| * MAX_BYTES_PER_CELL
  {
    if cells != [] {
      UsedPlain(cells[..|cells| - 1]);
    }
  }

  /** While no more than the chunk is taken, the subtraction is the plain one. */
  lemma PlainRoom(cells: seq<Cell>, size: nat)
    requires Used(cells) <= BYTES_PER_CHUNK
    ensures Available(cells, size) <==> Used(cells) + size <= BYTES_PER_CHUNK
  {
    hide Used;
    assert (BYTES_PER_CHUNK - Used(cells)) % TWO64 == BYTES_PER_CHUNK - Used(cells);
  }

  /** A chunk that is over-full looks almost empty. */
  lemma WrappedRoom(cells: seq<Cell>, size: nat)
    requires BYTES_PER_CHUNK < Used(cells) <= TWO64
    ensures Available(cells, size) <==> size <= TWO64 + BYTES_PER_CHUNK - Used(cells)
  {
    hide Used;
    assert (BYTES_PER_CHUNK - Used(cells)) % TWO64 == BYTES_PER_CHUNK - Used(cells) + TWO64;
  }

  /** A list of slotted cells never takes more than the chunk, so the subtraction in
      Available does not wrap around; room is left exactly while a slot is free. */
  lemma Room(cells: seq<Cell>, s: set<Cell>, size: nat)
    requires Slotted(s) && multiset(cells) == multiset(s)
    ensures Used(cells) <= BYTES_PER_CHUNK
    ensures Available(cells, size) <==> Used(cells) + size <= BYTES_PER_CHUNK
    ensures Available(cells, MAX_BYTES_PER_CELL) <==> |s| < MAX_CELLS_PER_CHUNK && forall x :: x in s ==> !x.IsMeta()
    ensures !Available(cells, BYTES_PER_CHUNK)
  {
    hide Available, InSlot;
    SameCells(cells, s);
    if x :| x in s && x.IsMeta() {
      assert cells == [x] by { Alone(cells, s, x); }
      assert cells[..0] == [];
    } else {
      UsedPlain(cells);
    }
    PlainRoom(cells, size);
    PlainRoom(cells, MAX_BYTES_PER_CELL);
    PlainRoom(cells, BYTES_PER_CHUNK);
  }

  lemma SameCells(cells: seq<Cell>, s: set<Cell>)
    requires multiset(cells) == multiset(s)
    ensures |cells| == |s| && forall x :: x in cells <==> x in s
    ensures forall i, j :: 0 <= i < j < |cells| ==> cells[i] != cells[j]
  {
    assert |multiset(cells)| == |multiset(s)|;
    forall x ensures x in cells <==> x in s {
      assert x in cells <==> x in multiset(cells);
      assert x in s <==> x in multiset(s);
    }
    forall i, j | 0 <= i < j < |cells| ensures cells[i] != cells[j] {
      assert cells == cells[..i] + [cells[i]] + cells[i + 1..j] + [cells[j]] + cells[j + 1..];
      assert multiset(s)[cells[i]] <= 1;
    }
  }

  lemma Alone(cells: seq<Cell>, s: set<Cell>, x: Cell)
    requires multiset(cells) == multiset(s) && |s| == 1 && x in s
    ensures cells == [x]
  {
    SameCells(cells, s);
    assert cells[0] in s;
    if cells[0] != x {
      TwoMembers(s, x, cells[0]);
    }
  }
}
