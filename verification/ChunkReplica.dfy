/**
  When a secondary's chunk files agree with the primary's, and what replaying a
  journal once more does.
 */
module ChunkReplica {
  import opened Numbers
  import opened Options
  import opened ChunkBytes
  import opened ChunkStore

  // ---- one write request

  /** The write covers the whole data part of the file. */
  ghost predicate CoversFile(r: WriteRequest) { TargetSizeWrapper(r.targetSize) == FILE_SIZE }

  /** What the primary's entry for `r` says. */
  ghost function MessageOf(r: WriteRequest, crc: seq<byte> -> nat): (m: Message)
    requires r.Fits()
    ensures Applicable(m)
  {
    WriteMsg(r.version, r.id, r.offset, |r.Padded()|, crc(r.Padded()), r.Padded())
  }

  /** The byte at `p`: that of the slot, or `around` it. */
  ghost function SlotByte(r: WriteRequest, p: nat, around: byte): (b: byte) {
    if r.offset <= p < r.offset + |r.Padded()| then r.Padded()[p - r.offset] else around
  }

  /** The bytes around and inside the slot of a new file, on both nodes. */
  lemma NewFileByte(r: WriteRequest, p: nat)
    requires r.Fits() && p < FILE_SIZE
    ensures PaddedFile(r.data, r.size, r.targetSize, r.padding, r.offset)[p] == SlotByte(r, p, r.padding)
    ensures PaddedFile(r.Padded(), |r.Padded()|, |r.Padded()|, SPACE, r.offset)[p] == SlotByte(r, p, SPACE)
  {
    var n := Written(r.data, r.size, r.targetSize);
    var d := r.Padded();
    WrittenAt(seq(FILE_SIZE, _ => r.padding), r.data[..n], r.offset, p);
    assert Written(d, |d|, |d|) == |d| && d[..|d|] == d;
    WrittenAt(seq(FILE_SIZE, _ => SPACE), d, r.offset, p);
  }

  /** A new file comes out alike on both nodes exactly if the padding is a space or nothing is padded around. */
  lemma NewFileSame(r: WriteRequest)
    requires r.Fits()
    ensures PaddedFile(r.data, r.size, r.targetSize, r.padding, r.offset) ==
      PaddedFile(r.Padded(), |r.Padded()|, |r.Padded()|, SPACE, r.offset)
      <==> r.padding == SPACE || CoversFile(r)
  {
    var d := r.Padded();
    var a := PaddedFile(r.data, r.size, r.targetSize, r.padding, r.offset);
    var b := PaddedFile(d, |d|, |d|, SPACE, r.offset);
    hide PaddedFile, PaddedData;
    forall p: nat | p < FILE_SIZE ensures (a[p] == b[p]) <==> r.padding == SPACE || r.offset <= p < r.offset + |d| {
      NewFileByte(r, p);
    }
    if !CoversFile(r) {
      var p := if r.offset > 0 then 0 else |d|;
      assert !(r.offset <= p < r.offset + |d|);
      assert a[p] == b[p] <==> r.padding == SPACE;
    }
  }

  lemma SameVersion(f: File, g: File, version: nat)
    requires |f| == |g| == FILE_SIZE
    ensures UpdateVersion(f, version) == UpdateVersion(g, version) <==> f == g
  {
    assert UpdateVersion(f, version)[..FILE_SIZE] == f && UpdateVersion(g, version)[..FILE_SIZE] == g;
  }

  /** Agreement on an accepted write. */
  lemma AcceptedAgrees(st: Store, r: WriteRequest, crc: seq<byte> -> nat)
    requires AllWhole(st) && r.Fits() && Accepts(FileOf(st, r.id), r.version)
    ensures Handle(st, MessageOf(r, crc), crc) == Write(st, r).0 <==> r.id in st || r.padding == SPACE || CoversFile(r)
  {
    var f := FileOf(st, r.id);
    var g := HandleWrite(f, r.version, r.offset, |r.Padded()|, crc(r.Padded()), r.Padded(), crc);
    SamePut(st, r.id, g, Updated(f, r));
    if f.None? {
      NewFileSame(r);
      hide PaddedFile;
      SameVersion(PaddedFile(r.data, r.size, r.targetSize, r.padding, r.offset),
                  PaddedFile(r.Padded(), |r.Padded()|, |r.Padded()|, SPACE, r.offset), r.version);
    }
  }

  lemma SamePut(st: Store, id: nat, f: File, g: File)
    ensures st[id := f] == st[id := g] <==> f == g
  {
    assert st[id := f][id] == f && st[id := g][id] == g;
  }

  /** Overwriting leaves the file as it is only if data and version are there already. */
  lemma Overwritten(f: File, d: seq<byte>, offset: nat, version: nat)
    requires Whole(f) && version < TWO64 && offset + |d| <= FILE_SIZE
    ensures var g := UpdateVersion(WriteAt(f, d, offset), version);
      && Whole(g) && GetVersion(g) == version && g[offset..offset + |d|] == d
      && (forall p: nat :: p < FILE_SIZE && !(offset <= p < offset + |d|) ==> g[p] == f[p])
  {
    var g := UpdateVersion(WriteAt(f, d, offset), version);
    VersionStored(WriteAt(f, d, offset), version);
    hide GetVersion, UpdateVersion;
    forall p: nat | p < FILE_SIZE ensures g[p] == if offset <= p < offset + |d| then d[p - offset] else f[p] {
      WrittenAt(f, d, offset, p);
      assert g[p] == g[..FILE_SIZE][p];
    }
  }

  /** A refused write is journaled all the same. The secondary stays in step exactly if its file already has
      the request's version and, by checksum, its bytes: that is, if the request repeats the last write. */
  lemma RefusedAgrees(st: Store, r: WriteRequest, crc: seq<byte> -> nat)
    requires AllWhole(st) && r.Fits() && !Accepts(FileOf(st, r.id), r.version)
    ensures Write(st, r).0 == st
    ensures Handle(st, MessageOf(r, crc), crc) == st <==>
      && r.id in st && GetVersion(st[r.id]) == r.version
      && crc(st[r.id][r.offset..r.offset + |r.Padded()|]) == crc(r.Padded())
  {
    var d := r.Padded();
    if r.id in st {
      var f := st[r.id];
      var g := HandleWrite(Some(f), r.version, r.offset, |d|, crc(d), d, crc);
      assert st[r.id := f] == st;
      SamePut(st, r.id, g, f);
      hide GetVersion, PaddedData, UpdateVersion, WriteAt;
      Overwritten(f, d, r.offset, r.version);
    } else {
      assert r.id in Handle(st, MessageOf(r, crc), crc);
    }
  }

  /** The condition under which primary and secondary stay in step, accepted or not. */
  ghost predicate InStep(st: Store, r: WriteRequest, crc: seq<byte> -> nat)
    requires AllWhole(st) && r.Fits()
  {
    if Accepts(FileOf(st, r.id), r.version) then r.id in st || r.padding == SPACE || CoversFile(r)
    else
      && r.id in st && GetVersion(st[r.id]) == r.version
      && crc(st[r.id][r.offset..r.offset + |r.Padded()|]) == crc(r.Padded())
  }

  /** Primary and secondary, with equal files before a request, have equal files after it exactly if InStep. */
  lemma WriteAgrees(st: Store, r: WriteRequest, crc: seq<byte> -> nat)
    requires AllWhole(st) && r.Fits()
    ensures Handle(st, MessageOf(r, crc), crc) == Write(st, r).0 <==> InStep(st, r, crc)
  {
    hide Handle;
    if Accepts(FileOf(st, r.id), r.version) {
      AcceptedAgrees(st, r, crc);
    } else {
      RefusedAgrees(st, r, crc);
    }
  }

  // ---- whole journals

  /** Applying a journal in order. */
  ghost function Replay(st: Store, journal: seq<Message>, crc: seq<byte> -> nat): (st': Store)
    requires AllWhole(st) && forall m :: m in journal ==> Applicable(m)
    ensures AllWhole(st')
  {
    if journal == [] then st else
    Handle(Replay(st, journal[..|journal| - 1], crc), journal[|journal| - 1], crc)
  }

  // ---- replaying a journal again

  /** What one message makes of chunk `c`. */
  ghost function Touch(f: Option<File>, m: Message, c: nat, crc: seq<byte> -> nat): (g: Option<File>)
    requires (f.Some? ==> Whole(f.value)) && Applicable(m)
    ensures g.Some? ==> Whole(g.value)
  {
    match m
    case WriteMsg(version, id, offset, size, checksum, data) =>
      if id == c then Some(HandleWrite(f, version, offset, size, checksum, data, crc)) else f
    case DeleteMsg(id) => if id == c then None else f
    case OtherMsg => f
  }

  ghost predicate AllApplicable(journal: seq<Message>) { forall m :: m in journal ==> Applicable(m) }

  ghost function After(f: Option<File>, journal: seq<Message>, c: nat, crc: seq<byte> -> nat): (g: Option<File>)
    requires (f.Some? ==> Whole(f.value)) && AllApplicable(journal)
    ensures g.Some? ==> Whole(g.value)
  {
    if journal == [] then f else
    Touch(After(f, journal[..|journal| - 1], c, crc), journal[|journal| - 1], c, crc)
  }

  /** Chunks are independent of each other. */
  lemma {:induction false} ReplayAt(st: Store, journal: seq<Message>, c: nat, crc: seq<byte> -> nat)
    requires AllWhole(st) && AllApplicable(journal)
    ensures FileOf(Replay(st, journal, crc), c) == After(FileOf(st, c), journal, c, crc)
  {
    if journal != [] {
      hide HandleWrite;
      ReplayAt(st, journal[..|journal| - 1], c, crc);
    }
  }

  /** Every write of chunk `c` is the next version when its turn comes, and none wraps around. */
  ghost predicate InOrder(journal: seq<Message>, c: nat, crc: seq<byte> -> nat)
    requires AllApplicable(journal)
  {
    journal == [] ||
    var was := journal[..|journal| - 1];
    && InOrder(was, c, crc)
    && (journal[|journal| - 1].WriteMsg? && journal[|journal| - 1].id == c ==>
          journal[|journal| - 1].version == VersionAt(After(None, was, c, crc)) + 1 < TWO64)
  }

  ghost function VersionAt(f: Option<File>): (v: nat)
    requires f.Some? ==> Whole(f.value)
  {
    if f.None? then 0 else GetVersion(f.value)
  }

  lemma NextVersion(f: Option<File>, version: nat)
    requires (f.Some? ==> Whole(f.value)) && version < TWO64 && VersionAt(f) + 1 < TWO64
    ensures Accepts(f, version) <==> version == VersionAt(f) + 1
  {
    hide GetVersion;
  }

  ghost predicate Deletes(journal: seq<Message>, c: nat) { DeleteMsg(c) in journal }

  /** After a deletion it does not matter what was there before. */
  lemma {:induction false} DeletedAlike(f: Option<File>, journal: seq<Message>, c: nat, crc: seq<byte> -> nat)
    requires (f.Some? ==> Whole(f.value)) && AllApplicable(journal) && Deletes(journal, c)
    ensures After(f, journal, c, crc) == After(None, journal, c, crc)
  {
    var was := journal[..|journal| - 1];
    assert journal == was + [journal[|journal| - 1]];
    if journal[|journal| - 1] != DeleteMsg(c) {
      hide HandleWrite;
      DeletedAlike(f, was, c, crc);
    }
  }

  /** Data and version of every write to `c` laid over `f`, one after the other. */
  ghost function Lay(f: File, journal: seq<Message>, c: nat): (g: File)
    requires Whole(f) && AllApplicable(journal)
    ensures Whole(g)
  {
    if journal == [] then f else
    var g := Lay(f, journal[..|journal| - 1], c);
    var m := journal[|journal| - 1];
    assert m in journal && Applicable(m);
    if m.WriteMsg? && m.id == c then UpdateVersion(WriteAt(g, m.data, m.offset), m.version) else g
  }

  /** What was last written to byte `p` of chunk `c`. */
  ghost function LastByte(journal: seq<Message>, c: nat, p: nat): (b: Option<byte>) {
    if journal == [] then None else
    var m := journal[|journal| - 1];
    if m.WriteMsg? && m.id == c && m.offset <= p < m.offset + |m.data| then Some(m.data[p - m.offset])
    else LastByte(journal[..|journal| - 1], c, p)
  }

  ghost function LastVersion(journal: seq<Message>, c: nat): (v: Option<nat>) {
    if journal == [] then None else
    var m := journal[|journal| - 1];
    if m.WriteMsg? && m.id == c then Some(m.version) else LastVersion(journal[..|journal| - 1], c)
  }

  ghost predicate Narrow(journal: seq<Message>) { forall m :: m in journal && m.WriteMsg? ==> m.version < TWO64 }

  lemma {:induction false} LaidByte(f: File, journal: seq<Message>, c: nat, p: nat)
    requires Whole(f) && AllApplicable(journal) && Narrow(journal) && p < FILE_SIZE
    ensures Lay(f, journal, c)[p] == if LastByte(journal, c, p).Some? then LastByte(journal, c, p).value else f[p]
  {
    if journal != [] {
      var m := journal[|journal| - 1];
      assert m in journal && Applicable(m);
      LaidByte(f, journal[..|journal| - 1], c, p);
      if m.WriteMsg? && m.id == c {
        var g := Lay(f, journal[..|journal| - 1], c);
        Overwritten(g, m.data, m.offset, m.version);
        var h := UpdateVersion(WriteAt(g, m.data, m.offset), m.version);
        hide UpdateVersion, WriteAt, GetVersion;
        assert m.offset <= p < m.offset + |m.data| ==> h[p] == h[m.offset..m.offset + |m.data|][p - m.offset];
      }
    }
  }

  /** The version field after laying. */
  lemma {:induction false} LaidVersion(f: File, journal: seq<Message>, c: nat)
    requires Whole(f) && AllApplicable(journal)
    ensures Lay(f, journal, c)[FILE_SIZE..] ==
      if LastVersion(journal, c).Some? then Uint64ToBytes(LastVersion(journal, c).value) else f[FILE_SIZE..]
  {
    if journal != [] {
      hide Uint64ToBytes;
      LaidVersion(f, journal[..|journal| - 1], c);
    }
  }

  /** Laying the same writes over the result changes nothing. */
  lemma LaidTwice(f: File, journal: seq<Message>, c: nat)
    requires Whole(f) && AllApplicable(journal) && Narrow(journal)
    ensures Lay(Lay(f, journal, c), journal, c) == Lay(f, journal, c)
  {
    var g := Lay(f, journal, c);
    var h := Lay(g, journal, c);
    forall p: nat | p < FILE_SIZE ensures h[p] == g[p] {
      LaidByte(f, journal, c, p);
      LaidByte(g, journal, c, p);
    }
    LaidVersion(f, journal, c);
    LaidVersion(g, journal, c);
    hide Lay;
    forall p: nat | FILE_SIZE <= p < FILE_SIZE + 8 ensures h[p] == g[p] {
      assert h[p] == h[FILE_SIZE..][p - FILE_SIZE] && g[p] == g[FILE_SIZE..][p - FILE_SIZE];
    }
  }

  // ---- a journal without a deletion is laid over the file

  ghost const BLANK: File := seq(FILE_SIZE + 8, p => if p < FILE_SIZE then SPACE else 0)

  /** Creating a file and overwriting a blank one come to the same. */
  lemma CreateIsLay(m: Message, crc: seq<byte> -> nat)
    requires m.WriteMsg? && Applicable(m)
    ensures HandleWrite(None, m.version, m.offset, m.size, m.checksum, m.data, crc) ==
      UpdateVersion(WriteAt(BLANK, m.data, m.offset), m.version)
  {
    var a := PaddedFile(m.data, m.size, m.size, SPACE, m.offset);
    assert a == WriteAt(BLANK, m.data, m.offset)[..FILE_SIZE] by {
      assert m.data[..|m.data|] == m.data;
    }
    assert UpdateVersion(a, m.version) == UpdateVersion(WriteAt(BLANK, m.data, m.offset), m.version);
  }

  /** The first time: a file appears with the first write, and its version counts the writes. */
  lemma {:induction false} FirstReplay(journal: seq<Message>, c: nat, crc: seq<byte> -> nat)
    requires AllApplicable(journal) && InOrder(journal, c, crc) && !Deletes(journal, c)
    ensures After(None, journal, c, crc) == if LastVersion(journal, c).None? then None else Some(Lay(BLANK, journal, c))
    ensures VersionAt(After(None, journal, c, crc)) ==
      if LastVersion(journal, c).None? then 0 else LastVersion(journal, c).value
    ensures LastVersion(journal, c).None? ==> Lay(BLANK, journal, c) == BLANK
    ensures LastVersion(journal, c).Some? ==> 0 < LastVersion(journal, c).value < TWO64
  {
    if journal != [] {
      var was := journal[..|journal| - 1];
      var m := journal[|journal| - 1];
      assert journal == was + [m] && m in journal && Applicable(m);
      FirstReplay(was, c, crc);
      if m.WriteMsg? && m.id == c {
        CreateIsLay(m, crc);
        Overwritten(Lay(BLANK, was, c), m.data, m.offset, m.version);
      }
    }
  }

  lemma {:induction false} InOrderPrefix(journal: seq<Message>, n: nat, c: nat, crc: seq<byte> -> nat)
    requires AllApplicable(journal) && InOrder(journal, c, crc) && n <= |journal|
    ensures AllApplicable(journal[..n]) && InOrder(journal[..n], c, crc)
    decreases |journal|
  {
    if n < |journal| {
      InOrderPrefix(journal[..|journal| - 1], n, c, crc);
      assert journal[..|journal| - 1][..n] == journal[..n];
    } else {
      assert journal[..n] == journal;
    }
  }

  /** Versions only grow; as long as they do not, nothing is written. */
  lemma {:induction false} VersionsGrow(journal: seq<Message>, n: nat, c: nat, crc: seq<byte> -> nat)
    requires AllApplicable(journal) && InOrder(journal, c, crc) && !Deletes(journal, c) && n <= |journal|
    requires LastVersion(journal[..n], c).Some?
    ensures LastVersion(journal, c).Some? && LastVersion(journal, c).value >= LastVersion(journal[..n], c).value
    ensures AllApplicable(journal[..n])
    ensures LastVersion(journal, c) == LastVersion(journal[..n], c) ==>
      Lay(BLANK, journal, c) == Lay(BLANK, journal[..n], c)
    decreases |journal|
  {
    InOrderPrefix(journal, n, c, crc);
    if n < |journal| {
      var was := journal[..|journal| - 1];
      assert was[..n] == journal[..n];
      VersionsGrow(was, n, c, crc);
      FirstReplay(was, c, crc);
      hide After, Lay;
      LayNext(BLANK, journal, c);
    } else {
      assert journal[..n] == journal;
    }
  }

  lemma LayNext(f: File, journal: seq<Message>, c: nat)
    requires Whole(f) && AllApplicable(journal) && journal != []
    ensures var m := journal[|journal| - 1];
      !(m.WriteMsg? && m.id == c) ==> Lay(f, journal, c) == Lay(f, journal[..|journal| - 1], c)
  {
  }

  lemma {:induction false} InOrderNarrow(journal: seq<Message>, n: nat, c: nat, crc: seq<byte> -> nat)
    requires AllApplicable(journal) && InOrder(journal, c, crc) && n < |journal| && journal[n].WriteMsg? &&
      journal[n].id == c
    ensures AllApplicable(journal[..n]) &&
      journal[n].version == VersionAt(After(None, journal[..n], c, crc)) + 1 < TWO64
  {
    InOrderPrefix(journal, n + 1, c, crc);
    assert journal[..n + 1][..n] == journal[..n] && journal[..n + 1][n] == journal[n];
  }

  /** The second time, message `n`: it is laid over the file, or skipped where laying it would change nothing. */
  lemma SecondWrite(journal: seq<Message>, n: nat, c: nat, crc: seq<byte> -> nat, f: File)
    requires AllApplicable(journal) && Narrow(journal) && InOrder(journal, c, crc) && !Deletes(journal, c)
    requires n < |journal| && journal[n].WriteMsg? && journal[n].id == c
    requires AllApplicable(journal[..n]) && AllApplicable(journal[..n + 1])
    requires f == Lay(Lay(BLANK, journal, c), journal[..n], c)
    requires GetVersion(f) ==
      if LastVersion(journal[..n], c).Some? then LastVersion(journal[..n], c).value
      else GetVersion(Lay(BLANK, journal, c))
    ensures Applicable(journal[n])
    ensures var m := journal[n];
      HandleWrite(Some(f), m.version, m.offset, m.size, m.checksum, m.data, crc) ==
        Lay(Lay(BLANK, journal, c), journal[..n + 1], c)
  {
    var m := journal[n];
    var s := Lay(BLANK, journal, c);
    var next := journal[..n + 1];
    assert m in journal && Applicable(m);
    assert next[..n] == journal[..n] && next[n] == m && |next| == n + 1;
    assert Lay(s, next, c) == UpdateVersion(WriteAt(f, m.data, m.offset), m.version);
    if m.version == GetVersion(f) {
      InOrderNarrow(journal, n, c, crc);
      InOrderPrefix(journal, n, c, crc);
      FirstReplay(journal[..n], c, crc);
      FirstReplay(journal, c, crc);
      assert LastVersion(next, c) == Some(m.version);
      VersionsGrow(journal, n + 1, c, crc);
      NoneYet(s, journal[..n], c);
      LaidTwice(BLANK, next, c);
      assert s == Lay(BLANK, next, c);
    }
  }

  lemma {:induction false} NoneYet(f: File, journal: seq<Message>, c: nat)
    requires Whole(f) && AllApplicable(journal)
    ensures LastVersion(journal, c).None? ==> Lay(f, journal, c) == f
  {
    if journal != [] {
      NoneYet(f, journal[..|journal| - 1], c);
    }
  }

  lemma {:induction false} SecondReplay(journal: seq<Message>, n: nat, c: nat, crc: seq<byte> -> nat)
    requires AllApplicable(journal) && Narrow(journal) && InOrder(journal, c, crc) && !Deletes(journal, c) &&
      n <= |journal|
    ensures AllApplicable(journal[..n])
    ensures var s := Lay(BLANK, journal, c); After(Some(s), journal[..n], c, crc) == Some(Lay(s, journal[..n], c))
    decreases n
  {
    if n > 0 {
      var s := Lay(BLANK, journal, c);
      var was, m := journal[..n - 1], journal[n - 1];
      SecondReplay(journal, n - 1, c, crc);
      assert journal[..n][..n - 1] == was && journal[..n][n - 1] == m;
      assert m in journal && Applicable(m) && AllApplicable(journal[..n]);
      hide HandleWrite;
      if m.WriteMsg? && m.id == c {
        VersionOfLaid(s, was, c);
        hide After, Lay;
        SecondWrite(journal, n - 1, c, crc, Lay(s, was, c));
        AfterNext(Some(s), journal[..n], c, crc);
      } else {
        assert m != DeleteMsg(c);
      }
    }
  }

  lemma AfterNext(f: Option<File>, journal: seq<Message>, c: nat, crc: seq<byte> -> nat)
    requires (f.Some? ==> Whole(f.value)) && AllApplicable(journal) && journal != []
    ensures AllApplicable(journal[..|journal| - 1]) && Applicable(journal[|journal| - 1])
    ensures After(f, journal, c, crc) ==
      Touch(After(f, journal[..|journal| - 1], c, crc), journal[|journal| - 1], c, crc)
  {
    assert journal[|journal| - 1] in journal;
  }

  lemma VersionOfLaid(f: File, journal: seq<Message>, c: nat)
    requires Whole(f) && AllApplicable(journal) && Narrow(journal)
    ensures GetVersion(Lay(f, journal, c)) ==
      if LastVersion(journal, c).Some? then LastVersion(journal, c).value else GetVersion(f)
  {
    var g := Lay(f, journal, c);
    LaidVersion(f, journal, c);
    hide Lay, Number, Digits;
    assert g[FILE_SIZE..] == g[VERSION_START..VERSION_START + 8] &&
      f[FILE_SIZE..] == f[VERSION_START..VERSION_START + 8];
    if LastVersion(journal, c).Some? {
      LastNarrow(journal, c);
      Uint64RoundTrip(LastVersion(journal, c).value);
    }
  }

  lemma {:induction false} LastNarrow(journal: seq<Message>, c: nat)
    requires Narrow(journal)
    ensures LastVersion(journal, c).Some? ==> LastVersion(journal, c).value < TWO64
  {
    if journal != [] {
      assert journal[|journal| - 1] in journal;
      LastNarrow(journal[..|journal| - 1], c);
    }
  }

  /** Replaying twice is replaying once, if it is so for every chunk. */
  lemma TwiceByChunk(journal: seq<Message>, crc: seq<byte> -> nat)
    requires AllApplicable(journal)
    requires forall c :: After(After(None, journal, c, crc), journal, c, crc) == After(None, journal, c, crc)
    ensures Replay(Replay(map[], journal, crc), journal, crc) == Replay(map[], journal, crc)
  {
    var st := Replay(map[], journal, crc);
    var st' := Replay(st, journal, crc);
    hide Replay, After;
    forall c ensures FileOf(st', c) == FileOf(st, c) {
      ReplayAt(map[], journal, c, crc);
      ReplayAt(st, journal, c, crc);
      assert After(After(None, journal, c, crc), journal, c, crc) == After(None, journal, c, crc);
    }
    forall c ensures c in st' <==> c in st { assert FileOf(st', c) == FileOf(st, c); }
    forall c | c in st ensures st'[c] == st[c] { assert FileOf(st', c) == FileOf(st, c); }
  }

  /** Replaying an ordered journal once more changes nothing, whatever the checksum function. */
  lemma OrderedTwice(journal: seq<Message>, crc: seq<byte> -> nat)
    requires AllApplicable(journal) && Narrow(journal) && forall c :: InOrder(journal, c, crc)
    ensures Replay(Replay(map[], journal, crc), journal, crc) == Replay(map[], journal, crc)
  {
    hide Replay, After, InOrder;
    forall c ensures After(After(None, journal, c, crc), journal, c, crc) == After(None, journal, c, crc) {
      assert InOrder(journal, c, crc);
      SecondAfter(journal, c, crc);
    }
    TwiceByChunk(journal, crc);
  }

  lemma SecondAfter(journal: seq<Message>, c: nat, crc: seq<byte> -> nat)
    requires AllApplicable(journal) && Narrow(journal) && InOrder(journal, c, crc)
    ensures var f := After(None, journal, c, crc); After(f, journal, c, crc) == f
  {
    var f := After(None, journal, c, crc);
    if Deletes(journal, c) {
      DeletedAlike(f, journal, c, crc);
    } else {
      FirstReplay(journal, c, crc);
      if LastVersion(journal, c).Some? {
        SecondReplay(journal, |journal|, c, crc);
        assert journal[..|journal|] == journal;
        LaidTwice(BLANK, journal, c);
      } else {
        hide After;
      }
    }
  }
}
