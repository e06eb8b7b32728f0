/**
  From the requests a primary serves to the bytes of its journal, and from those bytes
  to the files of a secondary.
 */
module ChunkRequests {
  import opened Numbers
  import opened Options
  import opened ChunkBytes
  import opened ChunkStore
  import opened ChunkReplica

  /** A request of the primary's clients. */
  datatype Request = Put(r: WriteRequest) | Delete(id: nat) {
    ghost predicate Fits() { if Put? then r.Fits() else id < TWO64 }
  }

  ghost predicate AllFit(rs: seq<Request>) { forall q :: q in rs ==> q.Fits() }

  /** The primary's files after one more request. */
  ghost function Serve(st: Store, q: Request): (st': Store)
    requires AllWhole(st) && q.Fits()
    ensures AllWhole(st')
  {
    if q.Put? then Write(st, q.r).0 else st - {q.id}
  }

  /** The primary's files after the requests, from nothing. */
  ghost function Files(rs: seq<Request>): (st: Store)
    requires AllFit(rs)
    ensures AllWhole(st)
  {
    if rs == [] then map[] else Serve(Files(rs[..|rs| - 1]), rs[|rs| - 1])
  }

  // ---- the journal

  /** Checksums have 32 bits. */
  ghost predicate Narrow32(crc: seq<byte> -> nat) { forall data :: crc(data) < TWO32 }

  ghost function Journaled(q: Request, crc: seq<byte> -> nat): (m: Message)
    requires q.Fits()
    ensures Applicable(m)
  {
    if q.Put? then MessageOf(q.r, crc) else DeleteMsg(q.id)
  }

  /** The bytes the primary appends to its journal. */
  ghost function Entry(q: Request, crc: seq<byte> -> nat): (e: seq<byte>)
    requires q.Fits() && Narrow32(crc)
    ensures Complete(e) && Decode(e) == Journaled(q, crc)
  {
    if q.Put? then DecodeWrite(q.r, crc); WriteEntry(q.r, crc)
    else DecodeDelete(q.id); DeleteEntry(q.id)
  }

  /** Entries a secondary can read and apply. */
  ghost predicate Readable(es: seq<seq<byte>>) { forall e :: e in es ==> Complete(e) && Applicable(Decode(e)) }

  ghost function Entries(rs: seq<Request>, crc: seq<byte> -> nat): (es: seq<seq<byte>>)
    requires AllFit(rs) && Narrow32(crc)
    ensures |es| == |rs| && Readable(es)
  {
    hide Decode, Complete, Narrow32, Journaled, Entry;
    if rs == [] then [] else Entries(rs[..|rs| - 1], crc) + [Entry(rs[|rs| - 1], crc)]
  }

  /** A secondary's files after the entries, from `st`. */
  ghost function Applied(st: Store, es: seq<seq<byte>>, crc: seq<byte> -> nat): (st': Store)
    requires AllWhole(st) && Readable(es)
    ensures AllWhole(st')
  {
    if es == [] then st else Handle(Applied(st, es[..|es| - 1], crc), Decode(es[|es| - 1]), crc)
  }

  ghost function JournalOf(rs: seq<Request>, crc: seq<byte> -> nat): (ms: seq<Message>)
    requires AllFit(rs)
    ensures |ms| == |rs| && AllApplicable(ms)
  {
    if rs == [] then [] else JournalOf(rs[..|rs| - 1], crc) + [Journaled(rs[|rs| - 1], crc)]
  }

  /** Applying the bytes is replaying the messages. */
  lemma {:induction false} AppliedIsReplayed(st: Store, rs: seq<Request>, crc: seq<byte> -> nat)
    requires AllWhole(st) && AllFit(rs) && Narrow32(crc)
    ensures Applied(st, Entries(rs, crc), crc) == Replay(st, JournalOf(rs, crc), crc)
  {
    if rs != [] {
      hide Handle, Decode, Complete, Entry, Narrow32;
      AppliedIsReplayed(st, rs[..|rs| - 1], crc);
      assert Entries(rs, crc)[..|rs| - 1] == Entries(rs[..|rs| - 1], crc);
      assert JournalOf(rs, crc)[..|rs| - 1] == JournalOf(rs[..|rs| - 1], crc);
    }
  }

  // ---- replica agreement

  /** After the first `n` requests the secondary has the primary's files, byte for byte. */
  ghost predicate Agree(rs: seq<Request>, n: nat, crc: seq<byte> -> nat)
    requires AllFit(rs) && Narrow32(crc) && n <= |rs|
  {
    Applied(map[], Entries(rs[..n], crc), crc) == Files(rs[..n])
  }

  /** Request `k`, if it is a write, finds the primary's files such that both nodes do the same. */
  ghost predicate KeepsStep(rs: seq<Request>, k: nat, crc: seq<byte> -> nat)
    requires AllFit(rs) && k < |rs|
  {
    assert rs[k] in rs;
    rs[k].Put? ==> InStep(Files(rs[..k]), rs[k].r, crc)
  }

  lemma ServeAgrees(st: Store, q: Request, crc: seq<byte> -> nat)
    requires AllWhole(st) && q.Fits()
    ensures Handle(st, Journaled(q, crc), crc) == Serve(st, q) <==> (q.Put? ==> InStep(st, q.r, crc))
  {
    if q.Put? {
      WriteAgrees(st, q.r, crc);
    }
  }

  lemma AgreeNext(rs: seq<Request>, k: nat, crc: seq<byte> -> nat)
    requires AllFit(rs) && Narrow32(crc) && k < |rs| && Agree(rs, k, crc)
    ensures Agree(rs, k + 1, crc) <==> KeepsStep(rs, k, crc)
  {
    assert rs[..k + 1][..k] == rs[..k] && rs[..k + 1][k] == rs[k];
    var es := Entries(rs[..k + 1], crc);
    assert es[..k] == Entries(rs[..k], crc) && es[k] == Entry(rs[k], crc);
    hide Handle, Serve, InStep, Decode, Narrow32, Entry;
    ServeAgrees(Files(rs[..k]), rs[k], crc);
  }

  lemma AgreeAtFirst(rs: seq<Request>, crc: seq<byte> -> nat)
    requires AllFit(rs) && Narrow32(crc)
    ensures Agree(rs, 0, crc)
  {
  }

  /** Replica agreement: the secondary has the primary's files after each of the requests if and only if
      every write keeps the nodes in step. */
  lemma {:induction false} ReplicaAgreement(rs: seq<Request>, n: nat, crc: seq<byte> -> nat)
    requires AllFit(rs) && Narrow32(crc) && n <= |rs|
    ensures (forall m: nat :: m <= n ==> Agree(rs, m, crc)) <==> forall k: nat :: k < n ==> KeepsStep(rs, k, crc)
    decreases n
  {
    hide *;
    AgreeAtFirst(rs, crc);
    if n > 0 {
      ReplicaAgreement(rs, n - 1, crc);
      if forall k: nat :: k < n - 1 ==> KeepsStep(rs, k, crc) {
        assert Agree(rs, n - 1, crc);
        AgreeNext(rs, n - 1, crc);
      }
    }
  }

  // ---- accepted requests make an ordered journal

  ghost predicate Accepted(st: Store, q: Request)
    requires AllWhole(st)
  {
    q.Put? ==> Accepts(FileOf(st, q.r.id), q.r.version)
  }

  /** Every write is accepted by the primary. */
  ghost predicate AllAccepted(rs: seq<Request>)
    requires AllFit(rs)
  {
    rs == [] || (AllAccepted(rs[..|rs| - 1]) && Accepted(Files(rs[..|rs| - 1]), rs[|rs| - 1]))
  }

  /** A secondary's file has the version of the message it handled last. */
  lemma HandledVersion(f: Option<File>, m: Message, crc: seq<byte> -> nat)
    requires (f.Some? ==> Whole(f.value)) && m.WriteMsg? && Applicable(m) && m.version < TWO64
    ensures GetVersion(HandleWrite(f, m.version, m.offset, m.size, m.checksum, m.data, crc)) == m.version
  {
    if f.None? {
      VersionStored(PaddedFile(m.data, m.size, m.size, SPACE, m.offset), m.version);
    } else {
      VersionStored(WriteAt(f.value, m.data, m.offset), m.version);
    }
    hide GetVersion, UpdateVersion, WriteAt, PaddedFile;
  }

  /** Chunk `c` is there on both nodes or on neither, and has the same version. */
  ghost predicate SameVersions(f: Option<File>, g: Option<File>, bound: nat)
    requires (f.Some? ==> Whole(f.value)) && (g.Some? ==> Whole(g.value))
  {
    (f.Some? <==> g.Some?) && VersionAt(f) == VersionAt(g) <= bound
  }

  lemma SameVersionsPut(st: Store, f: Option<File>, r: WriteRequest, bound: nat, crc: seq<byte> -> nat)
    requires AllWhole(st) && (f.Some? ==> Whole(f.value)) && SameVersions(f, FileOf(st, r.id), bound)
    requires r.Fits() && bound + 1 < TWO64 && Accepts(FileOf(st, r.id), r.version)
    ensures SameVersions(Touch(f, MessageOf(r, crc), r.id, crc), FileOf(Write(st, r).0, r.id), bound + 1)
    ensures r.version == VersionAt(f) + 1
  {
    hide GetVersion, HandleWrite, Updated, PaddedData;
    HandledVersion(f, MessageOf(r, crc), crc);
    UpdatedVersion(FileOf(st, r.id), r);
    NextVersion(FileOf(st, r.id), r.version);
    hide Accepts;
  }

  /** Requests for other chunks, and deletions. */
  lemma SameVersionsElse(st: Store, f: Option<File>, q: Request, c: nat, bound: nat, crc: seq<byte> -> nat)
    requires AllWhole(st) && (f.Some? ==> Whole(f.value)) && SameVersions(f, FileOf(st, c), bound)
    requires q.Fits() && (q.Put? ==> q.r.id != c)
    ensures SameVersions(Touch(f, Journaled(q, crc), c, crc), FileOf(Serve(st, q), c), bound)
  {
    hide GetVersion, HandleWrite, Updated, Accepts;
  }

  lemma SameVersionsNext(st: Store, f: Option<File>, q: Request, c: nat, bound: nat, crc: seq<byte> -> nat)
    requires AllWhole(st) && (f.Some? ==> Whole(f.value)) && SameVersions(f, FileOf(st, c), bound)
    requires q.Fits() && bound + 1 < TWO64 && Accepted(st, q)
    ensures SameVersions(Touch(f, Journaled(q, crc), c, crc), FileOf(Serve(st, q), c), bound + 1)
    ensures q.Put? && q.r.id == c ==> q.r.version == VersionAt(f) + 1
  {
    hide Touch, Write, VersionAt, Accepts, FileOf, MessageOf;
    if q.Put? && q.r.id == c {
      SameVersionsPut(st, f, q.r, bound, crc);
    } else {
      SameVersionsElse(st, f, q, c, bound, crc);
    }
  }

  lemma InOrderNext(ms: seq<Message>, c: nat, crc: seq<byte> -> nat)
    requires ms != [] && AllApplicable(ms) && InOrder(ms[..|ms| - 1], c, crc)
    requires var m := ms[|ms| - 1]; m.WriteMsg? && m.id == c ==>
      m.version == VersionAt(After(None, ms[..|ms| - 1], c, crc)) + 1 < TWO64
    ensures InOrder(ms, c, crc)
  {
    hide After, VersionAt;
  }

  lemma JournalNext(rs: seq<Request>, crc: seq<byte> -> nat)
    requires AllFit(rs) && rs != []
    ensures JournalOf(rs, crc)[..|rs| - 1] == JournalOf(rs[..|rs| - 1], crc)
    ensures rs[|rs| - 1].Fits() && JournalOf(rs, crc)[|rs| - 1] == Journaled(rs[|rs| - 1], crc)
  {
    hide Journaled, Request.Fits;
    assert rs[|rs| - 1] in rs;
  }

  lemma FilesNext(rs: seq<Request>)
    requires AllFit(rs) && AllAccepted(rs) && rs != []
    ensures AllFit(rs[..|rs| - 1]) && AllAccepted(rs[..|rs| - 1]) && rs[|rs| - 1].Fits()
    ensures Files(rs) == Serve(Files(rs[..|rs| - 1]), rs[|rs| - 1])
    ensures Accepted(Files(rs[..|rs| - 1]), rs[|rs| - 1])
  {
    hide Serve, Accepted, Request.Fits;
    assert rs[|rs| - 1] in rs;
  }

  lemma OrderedAtFirst(c: nat, crc: seq<byte> -> nat)
    ensures InOrder([], c, crc) && SameVersions(After(None, [], c, crc), FileOf(map[], c), 0)
  {
  }

  lemma JournaledFields(q: Request, crc: seq<byte> -> nat)
    requires q.Fits()
    ensures var m := Journaled(q, crc); m.WriteMsg? ==> q.Put? && m.id == q.r.id && m.version == q.r.version < TWO64
  {
  }

  /** The journal of accepted requests is ordered, and a secondary that applies it knows every chunk the
      primary knows, at the same version. */
  lemma {:induction false} Ordered(rs: seq<Request>, c: nat, crc: seq<byte> -> nat)
    requires AllFit(rs) && AllAccepted(rs) && |rs| < TWO64
    ensures InOrder(JournalOf(rs, crc), c, crc)
    ensures SameVersions(After(None, JournalOf(rs, crc), c, crc), FileOf(Files(rs), c), |rs|)
    decreases |rs|, 1
  {
    if rs == [] {
      OrderedAtFirst(c, crc);
    } else {
      OrderedStep(rs, c, crc);
    }
  }

  lemma {:induction false} OrderedStep(rs: seq<Request>, c: nat, crc: seq<byte> -> nat)
    requires AllFit(rs) && AllAccepted(rs) && 0 < |rs| < TWO64
    ensures InOrder(JournalOf(rs, crc), c, crc)
    ensures SameVersions(After(None, JournalOf(rs, crc), c, crc), FileOf(Files(rs), c), |rs|)
    decreases |rs|, 0
  {
    hide *;
    var ms, was, q := JournalOf(rs, crc), rs[..|rs| - 1], rs[|rs| - 1];
    JournalNext(rs, crc);
    FilesNext(rs);
    Ordered(was, c, crc);
    AfterNext(None, ms, c, crc);
    SameVersionsNext(Files(was), After(None, ms[..|rs| - 1], c, crc), q, c, |was|, crc);
    JournaledFields(q, crc);
    InOrderNext(ms, c, crc);
  }

  lemma {:induction false} AllNarrow(rs: seq<Request>, crc: seq<byte> -> nat)
    requires AllFit(rs)
    ensures Narrow(JournalOf(rs, crc))
  {
    if rs != [] {
      hide Journaled, Request.Fits;
      assert rs[|rs| - 1] in rs;
      JournaledFields(rs[|rs| - 1], crc);
      AllNarrow(rs[..|rs| - 1], crc);
    }
  }

  /** Applying the journal of accepted requests once more changes nothing, whatever the checksum function. */
  lemma ReplayTwice(rs: seq<Request>, crc: seq<byte> -> nat)
    requires AllFit(rs) && Narrow32(crc) && AllAccepted(rs) && |rs| < TWO64
    ensures var es := Entries(rs, crc); Applied(Applied(map[], es, crc), es, crc) == Applied(map[], es, crc)
  {
    var ms := JournalOf(rs, crc);
    hide *;
    forall c ensures InOrder(ms, c, crc) {
      Ordered(rs, c, crc);
    }
    AllNarrow(rs, crc);
    OrderedTwice(ms, crc);
    NoneWhole();
    AppliedIsReplayed(map[], rs, crc);
    AppliedIsReplayed(Applied(map[], Entries(rs, crc), crc), rs, crc);
  }

  lemma NoneWhole()
    ensures AllWhole(map[])
  {
  }
}
