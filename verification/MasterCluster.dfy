/**
  Runs of a master node: serving, following, checkpointing in three steps, crashing
  and recovering.
 */
module MasterCluster {
  import opened Options
  import opened SheetCells
  import opened SheetFiles
  import opened SheetLoading
  import opened MasterJournal
  import opened MasterPrimary
  import opened MasterRecovery
  import opened MasterPersist

  /** How far a checkpoint has got: journaled, then persisted, then recorded. */
  datatype Progress = Idle | Journaled(next: nat) | Saved(next: nat)

  /** `start` is the recorded offset. The database inside `m` and `start` survive a crash. */
  datatype Node = Node(m: Manager, pos: nat, start: nat, ckpt: Progress)

  /** `seen` and `kept` say which messages have left their cells in memory and in the database. */
  datatype Cluster = Cluster(journal: seq<Message>, hist: seq<Manager>, node: Node, seen: nat, kept: nat)

  datatype Event =
    | Other(x: Message, m: Manager)     // another node, being the primary, journals a message
    | Serve(op: Operation)              // the node, being the primary, performs an operation
    | Follow                            // the node takes the next message from the journal
    | JournalCheckpoint(last: nat)      // DoCheckpoint, first step; `last` is the writer's lastWriteOffset
    | Persist(db: Database)             // second step: the transaction
    | Record                            // third step: the new offset is stored
    | Crash                             // all but the database is lost; the node starts again

  const NEW_NODE := Node(LoadFileManager(EMPTY_DATABASE), 0, 0, Idle)
  const NEW_CLUSTER := Cluster([], [LoadFileManager(EMPTY_DATABASE)], NEW_NODE, 0, 0)

  ghost predicate CaughtUp(s: Cluster) { s.node.pos == |s.journal| }

  /** The event can happen. New chunk ids are new in the whole cluster. */
  ghost predicate Possible(s: Cluster, e: Event)
    requires |s.hist| > 0
  {
    match e
    case Other(x, m) => Follows(s.hist[|s.hist| - 1], x, m, |s.journal|) && Sound(m)
    case Serve(op) => CaughtUp(s) && NewIdOf(s.node.m, op)
    case Follow => s.node.pos < |s.journal|
    case JournalCheckpoint(last) => CaughtUp(s)
    case Persist(db) => Persisted(s.node.m, db)
    case Record => s.node.ckpt.Saved?
    case Crash => true
  }

  /** The writer's offset is that of a message. */
  ghost predicate Careful(s: Cluster, e: Event) {
    e.JournalCheckpoint? ==> e.last < |s.journal|
  }

  ghost function Append(s: Cluster, x: Message, m: Manager): (s': Cluster) {
    s.(journal := s.journal + [x], hist := s.hist + [m])
  }

  ghost function Apply(s: Cluster, e: Event): (s': Cluster)
    requires |s.hist| > 0 && Serving(s.node.m) && Possible(s, e)
  {
    var n := s.node;
    match e
    case Other(x, m) => Append(s, x, m)
    case Serve(op) =>
      var step := Perform(n.m, op);
      if step.entry.None? then s.(node := n.(m := step.m))
      else Append(s, Entry(step.entry.value), step.m).(node := n.(m := step.m, pos := n.pos + 1), seen := n.pos + 1)
    case Follow =>
      var s1 := s.(seen := if s.seen == n.pos then n.pos + 1 else s.seen);
      (match s.journal[n.pos]
       case Entry(x) => s1.(node := n.(m := HandleMasterEntry(n.m, x).0, pos := n.pos + 1))
       case Checkpoint(next) => s1.(node := n.(pos := n.pos + 1, ckpt := Journaled(next))))
    case JournalCheckpoint(last) =>
      Append(s, Checkpoint(last + 2), n.m)
      .(node := n.(pos := n.pos + 1, ckpt := Journaled(last + 2)), seen := n.pos + 1)
    case Persist(db) =>
      s.(node := n.(m := n.m.(db := db), ckpt := if n.ckpt.Journaled? then Saved(n.ckpt.next) else n.ckpt),
        kept := s.seen)
    case Record => s.(node := n.(start := n.ckpt.next, ckpt := Idle))
    case Crash => s.(node := Node(LoadFileManager(n.m.db), n.start, n.start, Idle), seen := s.kept)
  }

  // ---- the invariant

  /** What a restart would load. */
  ghost function Stored(s: Cluster): (m: Manager) { LoadFileManager(s.node.m.db) }

  ghost predicate Positions(s: Cluster) {
    && s.node.start <= s.node.pos <= s.seen <= |s.journal|
    && s.node.start <= s.kept <= s.seen
    && (s.node.ckpt.Journaled? ==> s.node.ckpt.next <= s.node.pos)
    && (s.node.ckpt.Saved? ==> s.node.ckpt.next <= s.node.pos && s.node.ckpt.next <= s.kept)
  }

  ghost predicate MemoryInv(s: Cluster)
    requires s.seen < |s.hist|
  {
    AtLeast(s.node.m, s.hist, s.node.pos) && Shape(s.node.m, s.hist[s.seen]) && Serving(s.node.m)
  }

  ghost predicate StoredInv(s: Cluster)
    requires s.kept < |s.hist|
  {
    && AtLeast(Stored(s), s.hist, s.node.start) && Shape(Stored(s), s.hist[s.kept]) && Sound(Stored(s))
    && (s.node.ckpt.Saved? ==> AtLeast(Stored(s), s.hist, s.node.ckpt.next))
    && forall n :: DistinctIds(TableOf(s.node.m.db, n))
  }

  ghost predicate Inv(s: Cluster) {
    Recorded(s.journal, s.hist) && Positions(s) && MemoryInv(s) && StoredInv(s)
  }

  lemma Parts(s: Cluster)
    requires Inv(s)
    ensures Recorded(s.journal, s.hist) && Positions(s) && MemoryInv(s) && StoredInv(s)
    ensures |s.hist| == |s.journal| + 1
    ensures s.node.start <= s.node.pos <= s.seen <= |s.journal| && s.node.start <= s.kept <= s.seen
    ensures AtLeast(s.node.m, s.hist, s.node.pos) && Shape(s.node.m, s.hist[s.seen]) && Serving(s.node.m)
    ensures AtLeast(Stored(s), s.hist, s.node.start) && Shape(Stored(s), s.hist[s.kept]) && Sound(Stored(s))
    ensures Sound(s.node.m) && forall n :: DistinctIds(TableOf(s.node.m.db, n))
  {
    hide AtLeast, Shape, Sound, DistinctIds, Stored;
  }

  lemma StartInv()
    ensures Inv(NEW_CLUSTER)
  {
    var m := LoadFileManager(EMPTY_DATABASE);
    forall n ensures FileAt(m, n) == NO_SHEET {
    }
    assert Layout(NO_SHEET);
    assert Sound(m) by {
      hide FileAt, Layout;
      forall n ensures Layout(FileAt(m, n)) {
        assert FileAt(m, n) == NO_SHEET;
      }
    }
    hide Look, Sound;
    assert Same(m, m) by { hide Same; SameItself(m); }
    SinceNow(m, [m]);
    SameShape(m, m);
  }

  lemma SameItself(m: Manager)
    ensures Same(m, m)
  {
    hide Look;
  }

  // ---- steps that add to the journal

  /** One more message does not disturb what a node has. */
  lemma AppendStored(s: Cluster, x: Message, m: Manager)
    requires s.kept < |s.hist| && StoredInv(s)
    ensures s.kept < |Append(s, x, m).hist| && StoredInv(Append(s, x, m))
  {
    hide Look, Sound, AtLeast, Shape, DistinctIds, Recorded, Stored;
    SinceAppend(Stored(s), s.hist, m, s.node.start);
    if s.node.ckpt.Saved? {
      SinceAppend(Stored(s), s.hist, m, s.node.ckpt.next);
    }
    assert Stored(Append(s, x, m)) == Stored(s) by { StoredOf(s, Append(s, x, m)); }
  }

  lemma StoredOf(s: Cluster, s': Cluster)
    requires s'.node.m.db == s.node.m.db
    ensures Stored(s') == Stored(s)
  {
  }

  lemma OtherInv(s: Cluster, x: Message, m: Manager)
    requires Inv(s) && Follows(s.hist[|s.hist| - 1], x, m, |s.journal|) && Sound(m)
    ensures Inv(Append(s, x, m))
  {
    hide Look, Sound, AtLeast, Shape, DistinctIds, Recorded, Stored, StoredInv, Serving, Follows;
    Parts(s);
    RecordedAppend(s.journal, s.hist, x, m);
    AppendStored(s, x, m);
    SinceAppend(s.node.m, s.hist, m, s.node.pos);
  }

  /** A node that has all messages has what the primary has. */
  lemma CaughtUpSame(s: Cluster)
    requires Inv(s) && CaughtUp(s)
    ensures |s.hist| == |s.journal| + 1 && Same(s.node.m, s.hist[|s.journal|])
  {
    hide Look, Sound, AtLeast, Shape, DistinctIds, Recorded, StoredInv;
    Parts(s);
    SinceNow(s.node.m, s.hist);
  }

  lemma FollowsFrom(m: Manager, h: Manager, x: Message, m': Manager, n: nat)
    requires Same(m, h) && Follows(m, x, m', n)
    ensures Follows(h, x, m', n)
  {
    hide SheetLook, WrittenTo, Proper;
    match x {
      case Entry(e) =>
        if e.cell.Some? {
          var file := FileKey(e.cell.value.sheetName);
          var cell := CellKey(e.cell.value.sheetName, e.cell.value.cellId);
          assert Look(m, file) == Look(h, file) && Look(m, cell) == Look(h, cell);
        }
        hide Look;
        forall k ensures Look(m', k) == Over(WrittenTo(e, k), Look(h, k)) {
          assert Look(m, k) == Look(h, k);
        }
      case Checkpoint(next) =>
        hide Look;
        forall k ensures Look(h, k) == Look(m', k) {
          assert Look(m, k) == Look(h, k) && Look(m, k) == Look(m', k);
        }
    }
  }

  /** The primary journals a message that tells what it did to its own manager. */
  lemma OwnInv(s: Cluster, x: Message, m': Manager, ckpt: Progress)
    requires Inv(s) && CaughtUp(s) && Follows(s.node.m, x, m', |s.journal|) && Serving(m')
    requires StoredInv(s.(node := s.node.(m := m', ckpt := ckpt)))
    requires ckpt == s.node.ckpt || (ckpt.Journaled? && ckpt.next <= |s.journal| + 1)
    ensures Inv(Append(s, x, m').(node := s.node.(m := m', pos := s.node.pos + 1, ckpt := ckpt),
                                  seen := s.node.pos + 1))
  {
    var s1 := s.(node := s.node.(m := m', ckpt := ckpt));
    var s' := Append(s, x, m').(node := s.node.(m := m', pos := s.node.pos + 1, ckpt := ckpt), seen := s.node.pos + 1);
    hide Look, Sound, AtLeast, Shape, DistinctIds, Recorded, Stored, StoredInv, Follows, Same;
    Parts(s);
    CaughtUpSame(s);
    FollowsFrom(s.node.m, s.hist[|s.journal|], x, m', |s.journal|);
    RecordedAppend(s.journal, s.hist, x, m');
    AppendStored(s1, x, m');
    StoredInvOf(Append(s1, x, m'), s');
    SameItself(m');
    SinceNow(m', s'.hist);
    SameShape(m', m');
  }

  lemma StoredInvOf(s: Cluster, s': Cluster)
    requires s.kept < |s.hist| && StoredInv(s) && s'.hist == s.hist && s'.kept == s.kept
    requires s'.node.m.db == s.node.m.db && s'.node.start == s.node.start && s'.node.ckpt == s.node.ckpt
    ensures StoredInv(s')
  {
    hide Look, Sound, AtLeast, Shape, DistinctIds, Recorded;
  }

  /** A database that loads the same files. */
  lemma StoredSame(s: Cluster, s': Cluster)
    requires s.kept < |s.hist| && StoredInv(s) && s'.hist == s.hist && s'.kept == s.kept
    requires s'.node.start == s.node.start && (s'.node.ckpt == s.node.ckpt || !s'.node.ckpt.Saved?)
    requires s'.node.m.db.entries == s.node.m.db.entries && s'.node.m.db.tables == s.node.m.db.tables
    requires forall n :: LoadSheetFile(s'.node.m.db, n) == LoadSheetFile(s.node.m.db, n)
    ensures StoredInv(s')
  {
    var (m, m') := (Stored(s), Stored(s'));
    forall n ensures FileAt(m', n) == FileAt(m, n) {
      hide LoadSheetFile;
    }
    hide Layout, FileAt, AtLeast, Shape, DistinctIds, LoadSheetFile;
    assert Same(m, m');
    SameFiles(m, m');
    hide Look, Same, Sound;
    SinceSame(m, m', s.hist, s.node.start);
    if s'.node.ckpt.Saved? {
      SinceSame(m, m', s.hist, s.node.ckpt.next);
    }
    ShapeSame(m, m', s.hist[s.kept]);
    assert forall n :: TableOf(s'.node.m.db, n) == TableOf(s.node.m.db, n);
  }

  /** What is stored is in memory: the key at least, of a cell the value too. */
  lemma StoredLasts(s: Cluster, k: Key)
    requires Inv(s)
    ensures Lasts(Look(Stored(s), k), Look(s.node.m, k), k)
  {
    hide Look, Sound, AtLeast, DistinctIds, Recorded, Stored;
    Parts(s);
    assert Shaped(Look(Stored(s), k), Look(s.hist[s.kept], k), k);
    assert Shaped(Look(s.node.m, k), Look(s.hist[s.seen], k), k);
    HistLasts(s.journal, s.hist, s.kept, s.seen, k);
  }

  lemma StoredNewId(s: Cluster, id: nat)
    requires Inv(s) && NewId(s.node.m, id)
    ensures NewId(Stored(s), id)
  {
    forall name ensures id !in FileAt(Stored(s), name).chunks {
      StoredLasts(s, ChunkKey(name, id));
      assert id !in FileAt(s.node.m, name).chunks;
      hide FileAt, Stored, Inv;
    }
  }

  lemma ServeInv(s: Cluster, op: Operation)
    requires Inv(s) && |s.hist| > 0 && Serving(s.node.m) && Possible(s, Serve(op))
    ensures Inv(Apply(s, Serve(op)))
  {
    var m' := Perform(s.node.m, op).m;
    var s1 := s.(node := s.node.(m := m'));
    hide Look, Sound, AtLeast, Shape, DistinctIds, Recorded, StoredInv, Perform, NewId, LoadSheetFile, Describes;
    Parts(s);
    assert NewIdOf(Stored(s), op) by {
      match op
      case CreateSheet(_, _, id) => StoredNewId(s, id);
      case WriteFileCell(_, r) => StoredNewId(s, r.id);
      case _ =>
    }
    PerformDescribes(s.node.m, op);
    forall n
      ensures LoadSheetFile(m'.db, n) == LoadSheetFile(s.node.m.db, n) && m'.db.entries == s.node.m.db.entries &&
        m'.db.tables == s.node.m.db.tables {
      PerformKeepsStored(s.node.m, op, n);
    }
    PerformKeepsStored(s.node.m, op, "");
    StoredSame(s, s1);
    if Perform(s.node.m, op).entry.Some? {
      OwnInv(s, Entry(Perform(s.node.m, op).entry.value), m', s.node.ckpt);
    } else {
      SinceSame(s.node.m, m', s.hist, s.node.pos);
      ShapeSame(s.node.m, m', s.hist[s.seen]);
    }
  }

  lemma JournalCheckpointInv(s: Cluster, last: nat)
    requires Inv(s) && |s.hist| > 0 && Serving(s.node.m) && CaughtUp(s) && last < |s.journal|
    ensures Inv(Apply(s, JournalCheckpoint(last)))
  {
    hide Look, Sound, AtLeast, Shape, DistinctIds, Recorded, StoredInv, Same;
    Parts(s);
    SameItself(s.node.m);
    var ckpt := Journaled(last + 2);
    assert StoredInv(s.(node := s.node.(m := s.node.m, ckpt := ckpt))) by {
      StoredNoLess(s, s.(node := s.node.(m := s.node.m, ckpt := ckpt)));
    }
    OwnInv(s, Checkpoint(last + 2), s.node.m, ckpt);
  }

  lemma StoredNoLess(s: Cluster, s': Cluster)
    requires s.kept < |s.hist| && StoredInv(s) && s'.hist == s.hist && s'.kept == s.kept
    requires s'.node.m.db == s.node.m.db && s'.node.start == s.node.start && !s'.node.ckpt.Saved?
    ensures StoredInv(s')
  {
    hide Look, Sound, AtLeast, Shape, DistinctIds, Recorded;
  }

  // ---- following the journal

  lemma FollowEntryInv(s: Cluster, e: MasterEntry)
    requires Inv(s) && |s.hist| > 0 && Serving(s.node.m) && s.node.pos < |s.journal| &&
      s.journal[s.node.pos] == Entry(e)
    ensures HandleMasterEntry(s.node.m, e).1 && Inv(Apply(s, Follow))
  {
    var m := s.node.m;
    var (m', ok) := HandleMasterEntry(m, e);
    hide Look, AtLeast, Shape, DistinctIds, Recorded, StoredInv, HandleMasterEntry, AllLayout, Owned, Filed, Named,
      AllAgree;
    Parts(s);
    Replayable(m, s.journal, s.hist, s.node.pos, s.seen);
    ReplayMessage(m, s.journal, s.hist, s.node.pos, s.seen);
    HandleWrites(m, e, FileKey(""));
    SoundAgrees(m);
    HandledAgrees(m, e);
    HandledParts(m, e);
    var s' := Apply(s, Follow);
    assert Sound(s.hist[s'.seen]) by { SoundHist(s, s'.seen); }
    ShapedSound(m', s.hist[s'.seen]);
    StoredInvOf(s, s');
    hide Proper, Placeable, KeepsCells, Changes, FileAt;
  }

  lemma SoundHist(s: Cluster, n: nat)
    requires Inv(s) && n < |s.hist|
    ensures Sound(s.hist[n])
  {
    hide Sound, Follows, MemoryInv, StoredInv;
  }

  lemma CheckpointAt(journal: seq<Message>, hist: seq<Manager>, n: nat)
    requires Recorded(journal, hist) && n < |journal| && journal[n].Checkpoint?
    ensures journal[n].next <= n + 1 && Same(hist[n], hist[n + 1])
  {
    hide Same, Sound, Describes;
    assert Follows(hist[n], journal[n], hist[n + 1], n);
  }

  lemma FollowCheckpointFields(s: Cluster, next: nat)
    requires |s.hist| > 0 && Serving(s.node.m) && s.node.pos < |s.journal| && s.journal[s.node.pos] == Checkpoint(next)
    ensures Apply(s, Follow) == s.(node := s.node.(pos := s.node.pos + 1, ckpt := Journaled(next)),
                                   seen := if s.seen == s.node.pos then s.node.pos + 1 else s.seen)
  {
    hide Serving;
  }

  lemma FollowCheckpointInv(s: Cluster, next: nat)
    requires Inv(s) && |s.hist| > 0 && Serving(s.node.m) && s.node.pos < |s.journal| &&
      s.journal[s.node.pos] == Checkpoint(next)
    ensures Inv(Apply(s, Follow))
  {
    FollowCheckpointFields(s, next);
    hide *;
    NextInv(s, next);
  }

  lemma NextInv(s: Cluster, next: nat)
    requires Inv(s) && s.node.pos < |s.journal| && s.journal[s.node.pos] == Checkpoint(next)
    ensures Inv(s.(node := s.node.(pos := s.node.pos + 1, ckpt := Journaled(next)),
                   seen := if s.seen == s.node.pos then s.node.pos + 1 else s.seen))
  {
    var s' := s.(node := s.node.(pos := s.node.pos + 1, ckpt := Journaled(next)),
                 seen := if s.seen == s.node.pos then s.node.pos + 1 else s.seen);
    hide *;
    Parts(s);
    CheckpointAt(s.journal, s.hist, s.node.pos);
    NextPositions(s, s', next);
    StoredNoLess(s, s');
    SinceNext(s.node.m, s.hist, s.node.pos);
    if s.seen == s.node.pos {
      ShapeNext(s.node.m, s.hist[s.seen], s.hist[s.seen + 1]);
    }
    Assemble(s');
  }

  lemma NextPositions(s: Cluster, s': Cluster, next: nat)
    requires Positions(s) && s.node.pos < |s.journal| && next <= s.node.pos + 1
    requires s' == s.(node := s.node.(pos := s.node.pos + 1, ckpt := Journaled(next)),
                      seen := if s.seen == s.node.pos then s.node.pos + 1 else s.seen)
    ensures Positions(s')
  {
  }

  lemma Assemble(s: Cluster)
    requires Recorded(s.journal, s.hist) && Positions(s) && StoredInv(s)
    requires AtLeast(s.node.m, s.hist, s.node.pos) && Shape(s.node.m, s.hist[s.seen]) && Serving(s.node.m)
    ensures Inv(s)
  {
    hide Look, Sound, AtLeast, Shape, DistinctIds, StoredInv, Same, Recorded, Serving, Stored;
  }

  lemma SinceNext(m: Manager, hist: seq<Manager>, pos: nat)
    requires pos + 1 < |hist| && Same(hist[pos], hist[pos + 1]) && AtLeast(m, hist, pos)
    ensures AtLeast(m, hist, pos + 1)
  {
    hide Look;
    var next := pos + 1;
    forall k ensures Since(m, hist, next, k) {
      assert Since(m, hist, pos, k) && Look(hist[pos], k) == Look(hist[pos + 1], k);
      var i :| pos <= i < |hist| && Look(m, k) == Look(hist[i], k);
      assert i == pos ==> Look(m, k) == Look(hist[pos + 1], k);
    }
  }

  lemma ShapeNext(m: Manager, h: Manager, h': Manager)
    requires Shape(m, h) && Same(h, h')
    ensures Shape(m, h')
  {
    hide Look;
    forall k ensures Shaped(Look(m, k), Look(h', k), k) {
      assert Shaped(Look(m, k), Look(h, k), k) && Look(h, k) == Look(h', k);
    }
  }

  // ---- checkpoints and crashes

  /** The rows of a stored file are cells of the file as a restart would load it. */
  lemma StoredRow(db: Database, n: string, x: Cell)
    requires DistinctIds(TableOf(db, n)) && x in TableOf(db, n)
    ensures Look(LoadFileManager(db), CellKey(n, x.cellId)) == Some(CellValue(x))
  {
    var rows := TableOf(db, n);
    hide LoadRows, DistinctIds;
    LoadTakes(rows, db.infos, |rows|);
    assert rows[..|rows|] == rows;
    assert FileAt(LoadFileManager(db), n) == Load(rows, db.infos);
  }

  lemma MemoryCovers(s: Cluster)
    requires Inv(s)
    ensures Covered(s.node.m) && s.node.m.db.entries.Keys <= s.node.m.entries.Keys
  {
    var m := s.node.m;
    Parts(s);
    forall n, x | n in m.openFiles && x in TableOf(m.db, n)
      ensures x.cellId in m.openFiles[n].cells && m.openFiles[n].cells[x.cellId] == x {
      StoredRow(m.db, n, x);
      StoredLasts(s, CellKey(n, x.cellId));
      hide LoadSheetFile, Inv, TableOf;
    }
    forall n | n in m.db.entries ensures n in m.entries {
      StoredLasts(s, FileKey(n));
      hide LoadSheetFile, Inv, TableOf, FileAt;
    }
  }

  lemma PersistInv(s: Cluster, db: Database)
    requires Inv(s) && |s.hist| > 0 && Serving(s.node.m) && Persisted(s.node.m, db)
    ensures Inv(Apply(s, Persist(db)))
  {
    var s' := Apply(s, Persist(db));
    hide Look, Sound, AtLeast, Shape, DistinctIds, Recorded, Same, Covered;
    Parts(s);
    MemoryCovers(s);
    PersistKeeps(s.node.m, db);
    assert forall n :: DistinctIds(TableOf(db, n)) by { PersistDistinct(s.node.m, db); }
    hide Persisted;
    var m := s.node.m;
    assert s'.node.m == m.(db := db) && Stored(s') == LoadFileManager(db);
    SinceSame(m, m.(db := db), s.hist, s.node.pos);
    ShapeSame(m, m.(db := db), s.hist[s.seen]);
    SinceSame(m, LoadFileManager(db), s.hist, s.node.pos);
    ShapeSame(m, LoadFileManager(db), s.hist[s.seen]);
    SinceEarlier(LoadFileManager(db), s.hist, s.node.pos, s.node.start);
    if s'.node.ckpt.Saved? {
      SinceEarlier(LoadFileManager(db), s.hist, s.node.pos, s'.node.ckpt.next);
    }
  }

  lemma PersistDistinct(m: Manager, db: Database)
    requires Persisted(m, db) && forall n :: DistinctIds(TableOf(m.db, n))
    ensures forall n :: DistinctIds(TableOf(db, n))
  {
    hide DistinctIds, TableOf;
    forall n ensures DistinctIds(TableOf(db, n)) {
      assert n in m.openFiles ==> Upserted(TableOf(m.db, n), m.openFiles[n].cells, TableOf(db, n));
      assert n !in m.openFiles ==> TableOf(db, n) == TableOf(m.db, n);
    }
  }

  lemma RecordInv(s: Cluster)
    requires Inv(s) && |s.hist| > 0 && Serving(s.node.m) && s.node.ckpt.Saved?
    ensures Inv(Apply(s, Record))
  {
    hide Look, Sound, AtLeast, Shape, DistinctIds, Recorded;
  }

  lemma CrashInv(s: Cluster)
    requires Inv(s) && |s.hist| > 0 && Serving(s.node.m)
    ensures Inv(Apply(s, Crash))
  {
    hide Look, Sound, AtLeast, Shape, DistinctIds, Recorded;
  }

  lemma StepInv(s: Cluster, e: Event)
    requires Inv(s) && |s.hist| > 0 && Serving(s.node.m) && Possible(s, e) && Careful(s, e)
    ensures Inv(Apply(s, e))
  {
    hide Inv, Look, Sound, Persisted, Follows, NewIdOf, Serving, Perform, HandleMasterEntry;
    match e
    case Other(x, m) => OtherInv(s, x, m);
    case Serve(op) => ServeInv(s, op);
    case Follow =>
      match s.journal[s.node.pos] {
        case Entry(x) => FollowEntryInv(s, x);
        case Checkpoint(next) => FollowCheckpointInv(s, next);
      }
    case JournalCheckpoint(last) => JournalCheckpointInv(s, last);
    case Persist(db) => PersistInv(s, db);
    case Record => RecordInv(s);
    case Crash => CrashInv(s);
  }

  // ---- whole runs

  /** The events `es`, each possible in its turn, lead from `s` to `s'`; if `careful`, every
      checkpoint along the way is taken with the offset of a message. */
  ghost predicate Leads(s: Cluster, es: seq<Event>, s': Cluster, careful: bool)
    decreases |es|
  {
    if es == [] then s == s' else
    && |s.hist| > 0 && Serving(s.node.m) && Possible(s, es[0]) && (careful ==> Careful(s, es[0]))
    && Leads(Apply(s, es[0]), es[1..], s', careful)
  }

  lemma {:induction false} RunInv(s: Cluster, es: seq<Event>, s': Cluster)
    requires Inv(s) && Leads(s, es, s', true)
    ensures Inv(s')
    decreases |es|
  {
    if es != [] {
      hide Inv, Possible, Apply, Serving, Careful;
      StepInv(s, es[0]);
      RunInv(Apply(s, es[0]), es[1..], s');
    }
  }

  /** The same directory and, for every name, the same cells, chunk versions, data nodes and
      chunk lists up to order. */
  ghost predicate Mirrors(m: Manager, h: Manager) {
    m.entries == h.entries && forall name :: SameContent(FileAt(m, name), FileAt(h, name))
  }

  lemma SameMirrors(m: Manager, h: Manager)
    requires Same(m, h) && Sound(m) && Sound(h)
    ensures Mirrors(m, h)
  {
    forall n ensures (n in m.entries <==> n in h.entries) && (n in m.entries ==> m.entries[n] == h.entries[n]) {
      assert Look(m, FileKey(n)) == Look(h, FileKey(n));
      hide FileAt, Sound;
    }
    hide FileAt;
    forall name ensures SameContent(FileAt(m, name), FileAt(h, name)) {
      SameFile(m, h, name);
    }
  }

  lemma SameFile(m: Manager, h: Manager, name: string)
    requires Same(m, h) && Sound(m) && Sound(h)
    ensures SameContent(FileAt(m, name), FileAt(h, name))
  {
    hide FileAt, Slotted, CellsOf, Sound;
    var (f, g) := (FileAt(m, name), FileAt(h, name));
    SameShape(m, h);
    ShapedFiles(m, h, name);
    assert Layout(f) && Layout(g) by { SoundLayout(m, name); SoundLayout(h, name); }
    assert forall c :: c in f.chunks <==> c in g.chunks.Keys;
    forall c | c in f.chunks ensures SameChunk(f.chunks[c], g.chunks[c]) {
      assert Look(m, ChunkKey(name, c)) == Look(h, ChunkKey(name, c));
      assert Fits(f.cells, c, f.chunks[c]) && Fits(g.cells, c, g.chunks[c]);
    }
  }

  lemma SoundLayout(m: Manager, name: string)
    requires Sound(m)
    ensures Layout(FileAt(m, name))
  {
    hide FileAt, Layout;
  }

  /** Agreement and recovery: after every run, in whatever way the node served, followed,
      checkpointed and crashed, once it has taken the whole journal it has the primary's
      directory and files, and all of them are laid out properly. */
  lemma Agreement(es: seq<Event>, s: Cluster)
    requires Leads(NEW_CLUSTER, es, s, true) && CaughtUp(s)
    ensures |s.hist| > 0 && Mirrors(s.node.m, s.hist[|s.hist| - 1]) && Serving(s.node.m)
  {
    hide *;
    StartInv();
    RunInv(NEW_CLUSTER, es, s);
    Parts(s);
    CaughtUpSame(s);
    SoundHist(s, |s.journal|);
    SameMirrors(s.node.m, s.hist[|s.journal|]);
  }

  /** At every moment of every run, not only when it has caught up, the node's files are laid out properly,
      and so are those a restart would load. */
  lemma AlwaysLaidOut(es: seq<Event>, s: Cluster, name: string)
    requires Leads(NEW_CLUSTER, es, s, true)
    ensures Layout(FileAt(s.node.m, name)) && Layout(FileAt(Stored(s), name))
  {
    hide *;
    StartInv();
    RunInv(NEW_CLUSTER, es, s);
    Parts(s);
    SoundLayout(s.node.m, name);
    SoundLayout(Stored(s), name);
  }

  /** What another primary journals when it performs an operation is a message that this node may meet. */
  lemma OtherPossible(s: Cluster, m: Manager, op: Operation)
    requires Inv(s) && |s.hist| > 0 && Same(m, s.hist[|s.hist| - 1]) && Serving(m) && NewIdOf(m, op)
    ensures var step := Perform(m, op); step.entry.Some? ==> Possible(s, Other(Entry(step.entry.value), step.m))
  {
    PerformDescribes(m, op);
    var step := Perform(m, op);
    hide Perform, Inv, Look, NewIdOf, Describes, Same;
    if step.entry.Some? {
      FollowsFrom(m, s.hist[|s.hist| - 1], Entry(step.entry.value), step.m, |s.journal|);
    }
  }

  // ---- a checkpoint of an empty journal

  /** The condition on the offset is needed. A writer that has written nothing says 0; with the
      journal still empty, the offset it makes a checkpoint record is 2, and message 1 is never
      replayed: whatever file is created next is lost in a crash. */
  lemma EmptyJournalCheckpointLoses(s: Cluster, name: string, node: string, id: nat)
    returns (es: seq<Event>, s': Cluster)
    requires Inv(s) && s.journal == [] && s.node.m.openFiles == map[] && name !in s.node.m.entries
    requires s.node.m.entries == map[] && s.node.m.db.entries == map[] && NewId(s.node.m, id)
    ensures Leads(s, es, s', false) && CaughtUp(s')
    ensures |s'.hist| > 0 && name in s'.hist[|s'.hist| - 1].entries && name !in s'.node.m.entries
  {
    Parts(s);
    var m := s.node.m;
    hide Possible, Serving, Apply, NewId, Sound, AtLeast, Shape;
    var es1, s1 := EmptyCheckpoint(s);
    var op := CreateSheet(name, Some(node), id);
    s' := CreateAndCrash(s1, name, node, id);
    LeadsOn(s, es1, s1, [Serve(op), Crash], s');
    es := es1 + [Serve(op), Crash];
  }

  lemma EmptyCheckpoint(s: Cluster) returns (es: seq<Event>, s': Cluster)
    requires |s.hist| > 0 && Serving(s.node.m) && s.journal == [] && s.node.pos == 0
    requires s.node.m.openFiles == map[] && s.node.m.entries == map[] && s.node.m.db.entries == map[]
    ensures Leads(s, es, s', false)
    ensures s'.journal == [Checkpoint(2)] && s'.node == Node(s.node.m, 1, 2, Idle) && |s'.hist| > 0
  {
    var m := s.node.m;
    assert Persisted(m, m.db);
    hide Persisted, Serving;
    var s1 := Apply(s, JournalCheckpoint(0));
    var s2 := Apply(s1, Persist(m.db));
    s' := Apply(s2, Record);
    LeadsStep(s2, Record, [], s');
    LeadsStep(s1, Persist(m.db), [Record], s');
    LeadsStep(s, JournalCheckpoint(0), [Persist(m.db), Record], s');
    es := [JournalCheckpoint(0)] + [Persist(m.db), Record];
  }

  lemma CreateAndCrash(s: Cluster, name: string, node: string, id: nat) returns (s': Cluster)
    requires |s.hist| > 0 && Serving(s.node.m) && s.journal == [Checkpoint(2)] && s.node.pos == 1 && s.node.start == 2
    requires name !in s.node.m.entries && s.node.m.db.entries == map[] && NewId(s.node.m, id)
    ensures Leads(s, [Serve(CreateSheet(name, Some(node), id)), Crash], s', false) && CaughtUp(s')
    ensures |s'.hist| > 0 && name in s'.hist[|s'.hist| - 1].entries && name !in s'.node.m.entries
  {
    var op := CreateSheet(name, Some(node), id);
    hide Serving, NewId;
    CreatingServes(s.node.m, name, node, id);
    var s1 := Apply(s, Serve(op));
    s' := Apply(s1, Crash);
    LeadsStep(s1, Crash, [], s');
    LeadsStep(s, Serve(op), [Crash], s');
    assert [Serve(op)] + [Crash] == [Serve(op), Crash];
  }

  lemma {:induction false} LeadsOn(s: Cluster, es: seq<Event>, s1: Cluster, fs: seq<Event>, s': Cluster)
    requires Leads(s, es, s1, false) && Leads(s1, fs, s', false)
    ensures Leads(s, es + fs, s', false)
    decreases |es|
  {
    hide Serving, Possible, Apply;
    if es == [] {
      assert es + fs == fs;
    } else {
      LeadsOn(Apply(s, es[0]), es[1..], s1, fs, s');
      assert (es + fs)[0] == es[0] && (es + fs)[1..] == es[1..] + fs;
    }
  }

  lemma LeadsStep(s: Cluster, e: Event, es: seq<Event>, s': Cluster)
    requires |s.hist| > 0 && Serving(s.node.m) && Possible(s, e) && Leads(Apply(s, e), es, s', false)
    ensures Leads(s, [e] + es, s', false)
  {
    hide Serving, Possible, Apply;
    assert ([e] + es)[0] == e && ([e] + es)[1..] == es;
  }
}
