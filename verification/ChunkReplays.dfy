/**
  Replaying a whole journal once more, refused requests and all. Writes to a chunk have
  the same slot or no byte in common, so each slot can be followed on its own through the
  first and the second replay.
 */
module ChunkReplays {
  import opened Numbers
  import opened Options
  import opened ChunkBytes
  import opened ChunkStore
  import opened ChunkReplica
  import opened ChunkRequests
  import V = ChunkVersions

  ghost predicate Writes(m: Message, c: nat) { m.WriteMsg? && m.id == c }

  /** What a primary journals: the checksum is that of the data. */
  ghost predicate Sealed(m: Message, crc: seq<byte> -> nat) {
    Applicable(m) && (m.WriteMsg? ==> m.checksum == crc(m.data) && m.version < TWO64)
  }

  ghost predicate AllSealed(ms: seq<Message>, crc: seq<byte> -> nat) { forall m :: m in ms ==> Sealed(m, crc) }

  ghost predicate InData(o: nat, n: nat) { 0 < n && o + n <= FILE_SIZE }

  ghost predicate Hits(m: Message, c: nat, o: nat, n: nat) { Writes(m, c) && m.offset == o && m.size == n }

  ghost predicate Misses(m: Message, c: nat, o: nat, n: nat) {
    m != DeleteMsg(c) && (Writes(m, c) ==> m.offset + m.size <= o || o + n <= m.offset)
  }

  /** Every message has the slot or stays clear of it. */
  ghost predicate IsSlot(ms: seq<Message>, c: nat, o: nat, n: nat) {
    forall m :: m in ms ==> Hits(m, c, o, n) || Misses(m, c, o, n)
  }

  ghost predicate Hit(ms: seq<Message>, c: nat, o: nat, n: nat) { exists m :: m in ms && Hits(m, c, o, n) }

  ghost function Slot(f: File, o: nat, n: nat): (b: seq<byte>)
    requires Whole(f) && InData(o, n)
    ensures |b| == n
  {
    f[o..o + n]
  }

  // ---- one message

  ghost function Kept(f: File, m: Message, o: nat, n: nat, crc: seq<byte> -> nat): (b: seq<byte>)
    requires Whole(f) && InData(o, n) && m.WriteMsg?
  {
    if GetVersion(f) == m.version && crc(Slot(f, o, n)) == m.checksum then Slot(f, o, n) else m.data
  }

  /** The slot after a message that has it: the data, unless version and checksum say they are there already. */
  lemma HandledSlot(f: File, m: Message, c: nat, o: nat, n: nat, crc: seq<byte> -> nat)
    requires Whole(f) && InData(o, n) && Sealed(m, crc) && Writes(m, c)
    ensures var g := HandleWrite(Some(f), m.version, m.offset, m.size, m.checksum, m.data, crc);
      && (Misses(m, c, o, n) ==> Slot(g, o, n) == Slot(f, o, n))
      && (Hits(m, c, o, n) ==> Slot(g, o, n) == Kept(f, m, o, n, crc))
  {
    var g := HandleWrite(Some(f), m.version, m.offset, m.size, m.checksum, m.data, crc);
    Overwritten(f, m.data, m.offset, m.version);
    hide GetVersion, UpdateVersion, WriteAt;
    if Misses(m, c, o, n) {
      forall i | 0 <= i < n ensures Slot(g, o, n)[i] == Slot(f, o, n)[i] {
        assert g[o + i] == f[o + i];
      }
    }
  }

  lemma CreatedSlot(m: Message, c: nat, o: nat, n: nat, crc: seq<byte> -> nat)
    requires InData(o, n) && Sealed(m, crc) && Hits(m, c, o, n)
    ensures Slot(HandleWrite(None, m.version, m.offset, m.size, m.checksum, m.data, crc), o, n) == m.data
  {
    CreateIsLay(m, crc);
    Overwritten(BLANK, m.data, m.offset, m.version);
    hide GetVersion, UpdateVersion, WriteAt, HandleWrite;
  }

  // ---- a slot, and the version, in both replays

  /** The first replay is at `s`, the second, which began with `end`, at `t`. */
  ghost predicate SlotRelated(s: Option<File>, t: File, end: File, hit: bool, o: nat, n: nat, crc: seq<byte> -> nat)
    requires (s.Some? ==> Whole(s.value)) && Whole(t) && Whole(end) && InData(o, n)
  {
    || (!hit && Slot(t, o, n) == Slot(end, o, n))
    || (s.Some? && BytesRelated(Slot(s.value, o, n), Slot(t, o, n), Slot(end, o, n), crc))
  }

  /** Both replays decide alike about what comes next; where they differ, the first will change the slot again or
      the second has never changed it. */
  ghost predicate BytesRelated(s: seq<byte>, t: seq<byte>, end: seq<byte>, crc: seq<byte> -> nat) {
    crc(s) == crc(t) && (s == t || t == end || s != end)
  }

  ghost predicate SameVersion(s: Option<File>, t: File)
    requires (s.Some? ==> Whole(s.value)) && Whole(t)
  {
    s.Some? ==> GetVersion(s.value) == GetVersion(t)
  }

  lemma SlotStep(s: Option<File>, t: File, end: File, hit: bool, o: nat, n: nat, m: Message, c: nat,
                 crc: seq<byte> -> nat)
    requires (s.Some? ==> Whole(s.value)) && Whole(t) && Whole(end) && InData(o, n) && Sealed(m, crc) && Writes(m, c)
    requires SameVersion(s, t) && SlotRelated(s, t, end, hit, o, n, crc) && Hits(m, c, o, n)
    ensures var s' := HandleWrite(s, m.version, m.offset, m.size, m.checksum, m.data, crc);
      var t' := HandleWrite(Some(t), m.version, m.offset, m.size, m.checksum, m.data, crc);
      SlotRelated(Some(s'), t', end, true, o, n, crc)
  {
    HandledSlot(t, m, c, o, n, crc);
    if s.Some? {
      HandledSlot(s.value, m, c, o, n, crc);
    } else {
      CreatedSlot(m, c, o, n, crc);
    }
    hide HandleWrite, Slot, GetVersion;
  }

  lemma SlotMissed(s: Option<File>, t: File, end: File, hit: bool, o: nat, n: nat, m: Message, c: nat,
                   crc: seq<byte> -> nat)
    requires (s.Some? ==> Whole(s.value)) && Whole(t) && Whole(end) && InData(o, n) && Sealed(m, crc) && Writes(m, c)
    requires SlotRelated(s, t, end, hit, o, n, crc) && Misses(m, c, o, n) && (s.None? ==> !hit)
    ensures var s' := HandleWrite(s, m.version, m.offset, m.size, m.checksum, m.data, crc);
      var t' := HandleWrite(Some(t), m.version, m.offset, m.size, m.checksum, m.data, crc);
      SlotRelated(Some(s'), t', end, hit, o, n, crc)
  {
    HandledSlot(t, m, c, o, n, crc);
    if s.Some? {
      HandledSlot(s.value, m, c, o, n, crc);
    }
    hide HandleWrite, Slot;
  }

  // ---- both replays

  ghost predicate Following(ms: seq<Message>, end: File, c: nat, o: nat, n: nat, crc: seq<byte> -> nat)
    requires Whole(end) && InData(o, n) && AllApplicable(ms)
  {
    var s, t := After(None, ms, c, crc), After(Some(end), ms, c, crc);
    && t.Some? && SameVersion(s, t.value) && (s.None? ==> !Hit(ms, c, o, n))
    && SlotRelated(s, t.value, end, Hit(ms, c, o, n), o, n, crc)
  }

  lemma FollowingAtFirst(end: File, c: nat, o: nat, n: nat, crc: seq<byte> -> nat)
    requires Whole(end) && InData(o, n)
    ensures Following([], end, c, o, n, crc)
  {
  }

  lemma HitNext(ms: seq<Message>, c: nat, o: nat, n: nat)
    requires ms != []
    ensures Hit(ms, c, o, n) <==> Hit(ms[..|ms| - 1], c, o, n) || Hits(ms[|ms| - 1], c, o, n)
  {
    assert ms == ms[..|ms| - 1] + [ms[|ms| - 1]];
  }

  lemma TouchOther(f: Option<File>, m: Message, c: nat, crc: seq<byte> -> nat)
    requires (f.Some? ==> Whole(f.value)) && Applicable(m)
    ensures !Writes(m, c) && m != DeleteMsg(c) ==> Touch(f, m, c, crc) == f
    ensures Writes(m, c) ==>
      Touch(f, m, c, crc) == Some(HandleWrite(f, m.version, m.offset, m.size, m.checksum, m.data, crc))
  {
    hide HandleWrite;
  }

  lemma FollowingStep(ms: seq<Message>, end: File, c: nat, o: nat, n: nat, crc: seq<byte> -> nat)
    requires Whole(end) && InData(o, n) && AllApplicable(ms) && ms != [] && Sealed(ms[|ms| - 1], crc)
    requires Hits(ms[|ms| - 1], c, o, n) || Misses(ms[|ms| - 1], c, o, n)
    requires AllApplicable(ms[..|ms| - 1]) && Following(ms[..|ms| - 1], end, c, o, n, crc)
    ensures Following(ms, end, c, o, n, crc)
  {
    var was, m := ms[..|ms| - 1], ms[|ms| - 1];
    var s, t := After(None, was, c, crc), After(Some(end), was, c, crc).value;
    AfterNext(None, ms, c, crc);
    AfterNext(Some(end), ms, c, crc);
    HitNext(ms, c, o, n);
    TouchOther(s, m, c, crc);
    TouchOther(Some(t), m, c, crc);
    hide After, Touch, Hit, SlotRelated, GetVersion, HandleWrite;
    if Writes(m, c) {
      HandledVersion(s, m, crc);
      HandledVersion(Some(t), m, crc);
      if Hits(m, c, o, n) {
        SlotStep(s, t, end, Hit(was, c, o, n), o, n, m, c, crc);
      } else {
        SlotMissed(s, t, end, Hit(was, c, o, n), o, n, m, c, crc);
      }
    }
  }

  lemma {:induction false} Follow(ms: seq<Message>, end: File, c: nat, o: nat, n: nat, crc: seq<byte> -> nat)
    requires Whole(end) && InData(o, n) && AllApplicable(ms) && AllSealed(ms, crc) && IsSlot(ms, c, o, n)
    ensures Following(ms, end, c, o, n, crc)
  {
    hide Following, Sealed;
    if ms == [] {
      FollowingAtFirst(end, c, o, n, crc);
    } else {
      assert ms[|ms| - 1] in ms;
      Follow(ms[..|ms| - 1], end, c, o, n, crc);
      FollowingStep(ms, end, c, o, n, crc);
    }
  }

  /** At the end of the second replay the slot is as it was at its beginning, and so is the version. */
  lemma SlotTwice(ms: seq<Message>, end: File, c: nat, o: nat, n: nat, crc: seq<byte> -> nat)
    requires Whole(end) && InData(o, n) && AllApplicable(ms) && AllSealed(ms, crc) && IsSlot(ms, c, o, n)
    requires After(None, ms, c, crc) == Some(end)
    ensures var t := After(Some(end), ms, c, crc);
      t.Some? && Slot(t.value, o, n) == Slot(end, o, n) && GetVersion(t.value) == GetVersion(end)
  {
    Follow(ms, end, c, o, n, crc);
    hide After, GetVersion, Slot;
  }

  // ---- whole files

  /** Two writes to `c` have the same slot or no byte in common. */
  ghost predicate InSlots(ms: seq<Message>, c: nat) {
    forall m, m' :: m in ms && m' in ms && Writes(m, c) && Writes(m', c) ==>
      Hits(m', c, m.offset, m.size) || Misses(m', c, m.offset, m.size)
  }

  ghost predicate Covers(m: Message, c: nat, p: nat) { Writes(m, c) && m.offset <= p < m.offset + m.size }

  /** Every byte lies in a slot: that of the writes that cover it, or one of its own. */
  lemma SlotAround(ms: seq<Message>, c: nat, p: nat, crc: seq<byte> -> nat) returns (o: nat, n: nat)
    requires AllSealed(ms, crc) && InSlots(ms, c) && !Deletes(ms, c) && p < FILE_SIZE
    ensures InData(o, n) && o <= p < o + n && IsSlot(ms, c, o, n)
  {
    if m :| m in ms && Covers(m, c, p) {
      assert Sealed(m, crc);
      o, n := m.offset, m.size;
      forall m' | m' in ms ensures Hits(m', c, o, n) || Misses(m', c, o, n) {
        assert m' != DeleteMsg(c);
      }
    } else {
      o, n := p, 1;
      forall m | m in ms ensures Misses(m, c, o, n) {
        assert m != DeleteMsg(c) && !Covers(m, c, p);
      }
    }
  }

  lemma VersionBytes(f: File, g: File)
    requires Whole(f) && Whole(g) && GetVersion(f) == GetVersion(g)
    ensures f[FILE_SIZE..] == g[FILE_SIZE..]
  {
    var a, b := f[VERSION_START..VERSION_START + 8], g[VERSION_START..VERSION_START + 8];
    DigitsNumber(a);
    DigitsNumber(b);
    hide Number, Digits;
    assert f[FILE_SIZE..] == a && g[FILE_SIZE..] == b;
  }

  lemma SameFile(f: File, g: File)
    requires Whole(f) && Whole(g) && GetVersion(f) == GetVersion(g)
    requires forall p: nat :: p < FILE_SIZE ==> f[p] == g[p]
    ensures f == g
  {
    VersionBytes(f, g);
    hide GetVersion;
    forall p | FILE_SIZE <= p < FILE_SIZE + 8 ensures f[p] == g[p] {
      assert f[p] == f[FILE_SIZE..][p - FILE_SIZE] && g[p] == g[FILE_SIZE..][p - FILE_SIZE];
    }
  }

  lemma ByteTwice(ms: seq<Message>, end: File, c: nat, p: nat, crc: seq<byte> -> nat)
    requires Whole(end) && AllApplicable(ms) && AllSealed(ms, crc) && InSlots(ms, c) && !Deletes(ms, c)
    requires After(None, ms, c, crc) == Some(end) && p < FILE_SIZE
    ensures var t := After(Some(end), ms, c, crc);
      t.Some? && t.value[p] == end[p] && GetVersion(t.value) == GetVersion(end)
  {
    var o, n := SlotAround(ms, c, p, crc);
    SlotTwice(ms, end, c, o, n, crc);
    var t := After(Some(end), ms, c, crc).value;
    hide After, GetVersion;
    assert t[p] == Slot(t, o, n)[p - o] && end[p] == Slot(end, o, n)[p - o];
  }

  lemma ChunkTwice(ms: seq<Message>, c: nat, crc: seq<byte> -> nat)
    requires AllApplicable(ms) && AllSealed(ms, crc) && InSlots(ms, c)
    ensures var f := After(None, ms, c, crc); After(f, ms, c, crc) == f
  {
    var f := After(None, ms, c, crc);
    hide After, GetVersion, InSlots, AllSealed;
    if Deletes(ms, c) {
      DeletedAlike(f, ms, c, crc);
    } else if f.Some? {
      ByteTwice(ms, f.value, c, 0, crc);
      forall p: nat | p < FILE_SIZE ensures After(f, ms, c, crc).value[p] == f.value[p] {
        ByteTwice(ms, f.value, c, p, crc);
      }
      SameFile(After(f, ms, c, crc).value, f.value);
    }
  }

  // ---- the journal of any requests

  /** Two writes to a chunk have the same slot or no byte in common. */
  ghost predicate SlotsKept(rs: seq<Request>) {
    forall q, r :: q in rs && r in rs && q.Put? && r.Put? && q.r.id == r.r.id ==> V.SameOrApart(q.r, r.r)
  }

  lemma {:induction false} Journals(rs: seq<Request>, crc: seq<byte> -> nat, m: Message) returns (q: Request)
    requires AllFit(rs) && m in JournalOf(rs, crc)
    ensures q in rs && m == Journaled(q, crc)
  {
    hide Journaled, Request.Fits;
    var last := |rs| - 1;
    if m == Journaled(rs[last], crc) {
      q := rs[last];
    } else {
      q := Journals(rs[..last], crc, m);
    }
  }

  lemma JournalSealed(rs: seq<Request>, crc: seq<byte> -> nat)
    requires AllFit(rs)
    ensures AllSealed(JournalOf(rs, crc), crc)
  {
    forall m | m in JournalOf(rs, crc) ensures Sealed(m, crc) {
      var q := Journals(rs, crc, m);
    }
  }

  lemma JournalInSlots(rs: seq<Request>, c: nat, crc: seq<byte> -> nat)
    requires AllFit(rs) && SlotsKept(rs)
    ensures InSlots(JournalOf(rs, crc), c)
  {
    var ms := JournalOf(rs, crc);
    forall m, m' | m in ms && m' in ms && Writes(m, c) && Writes(m', c)
      ensures Hits(m', c, m.offset, m.size) || Misses(m', c, m.offset, m.size)
    {
      var q := Journals(rs, crc, m);
      var q' := Journals(rs, crc, m');
      hide JournalOf, PaddedData;
      assert V.SameOrApart(q.r, q'.r);
    }
  }

  /** Applying the journal of any writes and deletions once more changes nothing, in whatever order the writes
      came and whether they were accepted or refused, and whatever the checksum function, if slots are kept. */
  lemma AnyTwice(rs: seq<Request>, crc: seq<byte> -> nat)
    requires AllFit(rs) && Narrow32(crc) && SlotsKept(rs)
    ensures var es := Entries(rs, crc); Applied(Applied(map[], es, crc), es, crc) == Applied(map[], es, crc)
  {
    var ms := JournalOf(rs, crc);
    hide *;
    NoneWhole();
    AppliedIsReplayed(map[], rs, crc);
    AppliedIsReplayed(Applied(map[], Entries(rs, crc), crc), rs, crc);
    JournalSealed(rs, crc);
    forall c ensures InSlots(ms, c) {
      JournalInSlots(rs, c, crc);
    }
    ReplayedTwice(ms, crc);
  }

  lemma ReplayedTwice(ms: seq<Message>, crc: seq<byte> -> nat)
    requires AllApplicable(ms) && AllSealed(ms, crc) && forall c :: InSlots(ms, c)
    ensures Replay(Replay(map[], ms, crc), ms, crc) == Replay(map[], ms, crc)
  {
    hide InSlots, AllSealed, Replay, After;
    forall c ensures After(After(None, ms, c, crc), ms, c, crc) == After(None, ms, c, crc) {
      assert InSlots(ms, c);
      ChunkTwice(ms, c, crc);
    }
    TwiceByChunk(ms, crc);
  }
}
