/**
  A node of the master cluster over any run: it serves as the primary, follows
  another primary's journal, takes checkpoints, crashes and recovers, in any order.

  The journal is one sequence of messages. `hist[n]` is the metadata of the primary
  at the time the journal had `n` messages. A node has applied the first `pos`
  messages; its database holds a snapshot and the offset `start` from which the
  journal is replayed after a crash.
 */
module MasterRecovery {
  import opened Options
  import opened SheetCells
  import opened SheetFiles
  import opened MasterJournal
  import opened MasterPrimary

  /** A checkpoint message carries the offset that recovery is to start from. */
  datatype Message = Entry(e: MasterEntry) | Checkpoint(next: nat)

  // ---- the journal and its history

  ghost predicate Same(m: Manager, m': Manager) { forall k :: Look(m, k) == Look(m', k) }

  /** Message number `n` takes the metadata from `m` to `m'`. */
  ghost predicate Follows(m: Manager, x: Message, m': Manager, n: nat) {
    match x
    case Entry(e) => Describes(e, m, m')
    case Checkpoint(next) => next <= n + 1 && Same(m, m')
  }

  ghost predicate Recorded(journal: seq<Message>, hist: seq<Manager>) {
    && |hist| == |journal| + 1
    && (forall n :: 0 <= n < |journal| ==> Follows(hist[n], journal[n], hist[n + 1], n))
    && (forall n :: 0 <= n < |hist| ==> Sound(hist[n]))
  }

  /** What is there stays there, and a cell stays as it is. */
  ghost predicate Lasts(v: Option<Value>, v': Option<Value>, k: Key) {
    (v.Some? ==> v'.Some?) && (v.Some? && k.CellKey? ==> v' == v)
  }

  lemma FollowsLasts(m: Manager, x: Message, m': Manager, n: nat, k: Key)
    requires Follows(m, x, m', n)
    ensures Lasts(Look(m, k), Look(m', k), k)
  {
    hide Look, Proper, Placeable;
    var v := Look(m', k);
  }

  lemma {:induction false} HistLasts(journal: seq<Message>, hist: seq<Manager>, i: nat, j: nat, k: Key)
    requires Recorded(journal, hist) && i <= j < |hist|
    ensures Lasts(Look(hist[i], k), Look(hist[j], k), k)
    decreases j - i
  {
    hide Look, Sound, Follows;
    if i < j {
      HistLasts(journal, hist, i, j - 1, k);
      assert Follows(hist[j - 1], journal[j - 1], hist[j], j - 1);
      FollowsLasts(hist[j - 1], journal[j - 1], hist[j], j - 1, k);
    }
  }

  lemma RecordedAppend(journal: seq<Message>, hist: seq<Manager>, x: Message, m: Manager)
    requires Recorded(journal, hist) && Follows(hist[|journal|], x, m, |journal|) && Sound(m)
    ensures Recorded(journal + [x], hist + [m])
  {
    hide Follows, Sound;
    forall n | 0 <= n < |journal| + 1 ensures Follows((hist + [m])[n], (journal + [x])[n], (hist + [m])[n + 1], n) {
      assert n < |journal| ==> Follows(hist[n], journal[n], hist[n + 1], n);
    }
  }

  // ---- how old the values of a node are

  /** The value of `k` in `m` is the one it had at or after message `pos`. */
  ghost predicate Since(m: Manager, hist: seq<Manager>, pos: nat, k: Key) {
    exists i :: pos <= i < |hist| && Look(m, k) == Look(hist[i], k)
  }

  ghost predicate AtLeast(m: Manager, hist: seq<Manager>, pos: nat) {
    forall k :: Since(m, hist, pos, k)
  }

  /** The same keys as at `seen`, and the same cells. */
  ghost predicate Shaped(v: Option<Value>, w: Option<Value>, k: Key) {
    v.Some? == w.Some? && (k.CellKey? ==> v == w)
  }

  ghost predicate Shape(m: Manager, h: Manager) {
    forall k :: Shaped(Look(m, k), Look(h, k), k)
  }

  lemma SinceEarlier(m: Manager, hist: seq<Manager>, pos: nat, pos': nat)
    requires AtLeast(m, hist, pos) && pos' <= pos
    ensures AtLeast(m, hist, pos')
  {
    hide Look;
    forall k ensures Since(m, hist, pos', k) {
      assert Since(m, hist, pos, k);
    }
  }

  lemma SinceAppend(m: Manager, hist: seq<Manager>, h: Manager, pos: nat)
    requires AtLeast(m, hist, pos)
    ensures AtLeast(m, hist + [h], pos)
  {
    hide Look;
    forall k ensures Since(m, hist + [h], pos, k) {
      assert Since(m, hist, pos, k);
      var i :| pos <= i < |hist| && Look(m, k) == Look(hist[i], k);
      assert (hist + [h])[i] == hist[i];
    }
  }

  lemma SinceNow(m: Manager, hist: seq<Manager>)
    requires |hist| > 0
    ensures AtLeast(m, hist, |hist| - 1) <==> Same(m, hist[|hist| - 1])
  {
    hide Look;
    var last := |hist| - 1;
    if AtLeast(m, hist, last) {
      forall k ensures Look(m, k) == Look(hist[last], k) {
        assert Since(m, hist, last, k);
      }
    }
    if Same(m, hist[last]) {
      forall k ensures Since(m, hist, last, k) {
        assert Look(m, k) == Look(hist[last], k);
      }
    }
  }

  lemma SinceSame(m: Manager, m': Manager, hist: seq<Manager>, pos: nat)
    requires AtLeast(m, hist, pos) && Same(m, m')
    ensures AtLeast(m', hist, pos)
  {
    hide Look;
    forall k ensures Since(m', hist, pos, k) {
      assert Since(m, hist, pos, k) && Look(m, k) == Look(m', k);
    }
  }

  lemma ShapeSame(m: Manager, m': Manager, h: Manager)
    requires Shape(m, h) && Same(m, m')
    ensures Shape(m', h)
  {
    hide Look;
    forall k ensures Shaped(Look(m', k), Look(h, k), k) {
      assert Shaped(Look(m, k), Look(h, k), k) && Look(m, k) == Look(m', k);
    }
  }

  lemma SameShape(m: Manager, m': Manager)
    requires Same(m, m')
    ensures Shape(m, m')
  {
    hide Look;
  }

  // ---- replaying message `pos`

  /** One key, one message: the new value is that of message `pos + 1` or a later one. */
  lemma ReplayedSince(m: Manager, m': Manager, journal: seq<Message>, hist: seq<Manager>, pos: nat, k: Key)
    requires Recorded(journal, hist) && pos < |journal| && journal[pos].Entry? && Since(m, hist, pos, k)
    requires Look(m', k) == Over(WrittenTo(journal[pos].e, k), Look(m, k))
    ensures Since(m', hist, pos + 1, k)
  {
    hide Look, Sound, WrittenTo, Proper, Placeable, KeepsCells;
    assert Follows(hist[pos], journal[pos], hist[pos + 1], pos);
    assert Look(hist[pos + 1], k) == Over(WrittenTo(journal[pos].e, k), Look(hist[pos], k));
    var i :| pos <= i < |hist| && Look(m, k) == Look(hist[i], k);
    if WrittenTo(journal[pos].e, k).Some? || i == pos {
      assert Look(m', k) == Look(hist[pos + 1], k);
    } else {
      assert Look(m', k) == Look(hist[i], k);
    }
  }

  /** One key, one message: keys and cells are those of the later of `seen` and `pos + 1`. */
  lemma ReplayedShaped(m: Manager, m': Manager, journal: seq<Message>, hist: seq<Manager>, pos: nat, seen: nat, k: Key)
    requires Recorded(journal, hist) && pos < |journal| && journal[pos].Entry? && pos <= seen < |hist|
    requires Shaped(Look(m, k), Look(hist[seen], k), k)
    requires Look(m', k) == Over(WrittenTo(journal[pos].e, k), Look(m, k))
    ensures var seen' := if seen == pos then pos + 1 else seen; Shaped(Look(m', k), Look(hist[seen'], k), k)
  {
    hide Look, Sound, WrittenTo, Proper, Placeable, KeepsCells;
    assert Follows(hist[pos], journal[pos], hist[pos + 1], pos);
    assert Look(hist[pos + 1], k) == Over(WrittenTo(journal[pos].e, k), Look(hist[pos], k));
    if seen != pos {
      hide Recorded;
      HistLasts(journal, hist, pos + 1, seen, k);
    }
  }

  /** Message `pos` fits the node: its file is known, and it does not change a cell that is there. */
  lemma Replayable(m: Manager, journal: seq<Message>, hist: seq<Manager>, pos: nat, seen: nat)
    requires Recorded(journal, hist) && pos < |journal| && journal[pos].Entry? && pos <= seen < |hist|
    requires Shape(m, hist[seen])
    ensures var e := journal[pos].e; Proper(e) && Placeable(m.entries, e) && KeepsCells(e, m)
  {
    var e := journal[pos].e;
    assert Follows(hist[pos], journal[pos], hist[pos + 1], pos);
    if e.cell.Some? {
      var file := FileKey(e.cell.value.sheetName);
      var cell := CellKey(e.cell.value.sheetName, e.cell.value.cellId);
      HistLasts(journal, hist, pos, seen, file);
      HistLasts(journal, hist, pos, seen, cell);
      assert Shaped(Look(m, file), Look(hist[seen], file), file) && Shaped(Look(m, cell), Look(hist[seen], cell), cell);
      hide FileAt, SheetLook;
      if seen > pos {
        HistLasts(journal, hist, pos + 1, seen, cell);
        assert Look(hist[pos + 1], cell) == Over(WrittenTo(e, cell), Look(hist[pos], cell));
      }
    }
  }

  /** Message `pos` brings every key of the node one message forward. */
  lemma ReplayMessage(m: Manager, journal: seq<Message>, hist: seq<Manager>, pos: nat, seen: nat)
    requires Recorded(journal, hist) && pos < |journal| && journal[pos].Entry? && pos <= seen < |hist|
    requires Shape(m, hist[seen]) && AtLeast(m, hist, pos)
    ensures var (m', ok) := HandleMasterEntry(m, journal[pos].e); var seen' := if seen == pos then pos + 1 else seen;
      ok && AtLeast(m', hist, pos + 1) && Shape(m', hist[seen'])
  {
    Replayable(m, journal, hist, pos, seen);
    var (m', ok) := HandleMasterEntry(m, journal[pos].e);
    var seen' := if seen == pos then pos + 1 else seen;
    hide HandleMasterEntry, Recorded, Look, Placeable, Proper, WrittenTo, KeepsCells;
    forall k ensures ok && Since(m', hist, pos + 1, k) && Shaped(Look(m', k), Look(hist[seen'], k), k) {
      HandleWrites(m, journal[pos].e, k);
      assert Since(m, hist, pos, k);
      ReplayedSince(m, m', journal, hist, pos, k);
      ReplayedShaped(m, m', journal, hist, pos, seen, k);
    }
    HandleWrites(m, journal[pos].e, FileKey(""));
  }

  // ---- soundness follows from the shape

  /** The chunk lists of all files agree with their cells. */
  ghost predicate AllAgree(m: Manager) {
    forall name :: Agrees(FileAt(m, name))
  }

  lemma ShapedFiles(m: Manager, h: Manager, name: string)
    requires Shape(m, h)
    ensures var (f, g) := (FileAt(m, name), FileAt(h, name)); f.cells == g.cells && f.chunks.Keys == g.chunks.Keys
    ensures name in m.entries <==> name in h.entries
  {
    hide FileAt;
    var (f, g) := (FileAt(m, name), FileAt(h, name));
    forall i ensures (i in f.cells <==> i in g.cells) && (i in f.cells ==> f.cells[i] == g.cells[i]) {
      assert Shaped(Look(m, CellKey(name, i)), Look(h, CellKey(name, i)), CellKey(name, i));
    }
    forall c ensures c in f.chunks <==> c in g.chunks {
      assert Shaped(Look(m, ChunkKey(name, c)), Look(h, ChunkKey(name, c)), ChunkKey(name, c));
    }
    assert Shaped(Look(m, FileKey(name)), Look(h, FileKey(name)), FileKey(name));
  }

  lemma ShapedLayout(m: Manager, h: Manager, name: string)
    requires Shape(m, h) && Agrees(FileAt(m, name)) && Layout(FileAt(h, name))
    ensures Layout(FileAt(m, name))
  {
    ShapedFiles(m, h, name);
    LayoutParts(FileAt(m, name));
    LayoutParts(FileAt(h, name));
    hide FileAt, Layout, Agrees, CellsOf, Slotted;
    forall c | c in FileAt(m, name).chunks ensures Slotted(CellsOf(FileAt(m, name).cells, c)) {
      assert c in FileAt(h, name).chunks.Keys;
    }
  }

  lemma ShapedSound(m: Manager, h: Manager)
    requires Shape(m, h) && AllAgree(m) && Sound(h) && Named(m)
    ensures Sound(m)
  {
    hide FileAt, Layout, Agrees, Look, Shape;
    forall name ensures Layout(FileAt(m, name)) {
      assert Agrees(FileAt(m, name)) && Layout(FileAt(h, name));
      ShapedLayout(m, h, name);
    }
    forall n, n', c | c in FileAt(m, n).chunks && c in FileAt(m, n').chunks ensures n == n' {
      ShapedFiles(m, h, n);
      ShapedFiles(m, h, n');
      assert c in FileAt(m, n).chunks.Keys && c in FileAt(m, n').chunks.Keys;
      assert c in FileAt(h, n).chunks && c in FileAt(h, n').chunks;
    }
    forall name | name !in m.entries ensures FileAt(m, name).cells == map[] && FileAt(m, name).chunks == map[] {
      ShapedFiles(m, h, name);
      NoKeys(FileAt(m, name).chunks, FileAt(h, name).chunks);
    }
  }

  lemma NoKeys(a: map<nat, Chunk>, b: map<nat, Chunk>)
    requires a.Keys == b.Keys && b == map[]
    ensures a == map[]
  {
  }

  lemma HandledParts(m: Manager, e: MasterEntry)
    requires Proper(e) && Placeable(m.entries, e)
    ensures var m' := HandleMasterEntry(m, e).0;
      && m'.entries == (if e.mapEntry.Some? then HandleMapEntry(m.entries, e.mapEntry.value) else m.entries)
      && (e.cell.Some? ==>
        Changes(m, m', e.cell.value.sheetName,
          Replayed(FileAt(m, e.cell.value.sheetName), e.chunk.value, e.cell.value)))
      && (e.cell.None? ==> forall n :: FileAt(m', n) == FileAt(m, n))
      && m'.fds == m.fds && forall n :: n in m.openFiles ==> n in m'.openFiles
  {
    hide LoadSheetFile, HandleCellEntry, HandleChunkEntry;
  }

  /** Replaying an entry that fits keeps lists and cells in step. */
  lemma HandledAgrees(m: Manager, e: MasterEntry)
    requires AllAgree(m) && Named(m) && Proper(e) && Placeable(m.entries, e) && KeepsCells(e, m)
    ensures var m' := HandleMasterEntry(m, e).0; AllAgree(m') && Named(m')
  {
    var m' := HandleMasterEntry(m, e).0;
    HandledParts(m, e);
    hide HandleMasterEntry, Agrees, FileAt, Replayed;
    forall n ensures Agrees(FileAt(m', n)) {
      assert Agrees(FileAt(m, n));
      if e.cell.Some? && n == e.cell.value.sheetName {
        ReplayedAgrees(FileAt(m, n), e.chunk.value, e.cell.value);
      }
    }
  }

  lemma SoundAgrees(m: Manager)
    requires Sound(m)
    ensures AllAgree(m)
  {
    hide FileAt, Agrees, Layout;
    forall name ensures Agrees(FileAt(m, name)) {
      assert Layout(FileAt(m, name));
      LayoutParts(FileAt(m, name));
    }
  }
}
