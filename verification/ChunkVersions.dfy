/**
  The version protocol of one chunk. The master numbers the writes to a chunk; their
  requests reach the data node in any order, any number of times, or never.
 */
module ChunkVersions {
  import opened Numbers
  import opened Options
  import opened ChunkBytes
  import opened ChunkStore
  import opened ChunkReplica

  /** `issued` are the writes in the master's order, `done` the versions whose clients were told OK. */
  datatype State = State(issued: seq<WriteRequest>, file: Option<File>, done: set<nat>)

  datatype Event =
    | Issue(r: WriteRequest)          // the master hands out the next version
    | Arrive(i: nat, told: bool)      // request `i` arrives, perhaps again; its answer may be lost

  const START := State([], None, {})

  ghost predicate Possible(s: State, e: Event) {
    match e
    case Issue(r) => r.Fits() && r.version == |s.issued| + 1
    case Arrive(i, _) => i < |s.issued|
  }

  ghost predicate Numbered(issued: seq<WriteRequest>) {
    |issued| < TWO64 && forall i :: 0 <= i < |issued| ==> issued[i].Fits() && issued[i].version == i + 1
  }

  ghost function Apply(s: State, e: Event): (s': State)
    requires Possible(s, e) && Numbered(s.issued) && (s.file.Some? ==> Whole(s.file.value))
  {
    match e
    case Issue(r) => s.(issued := s.issued + [r])
    case Arrive(i, told) =>
      var r := s.issued[i];
      if Accepts(s.file, r.version)
      then State(s.issued, Some(Updated(s.file, r)), if told then s.done + {r.version} else s.done)
      else s
  }

  ghost predicate AllFit(issued: seq<WriteRequest>) { forall i :: 0 <= i < |issued| ==> issued[i].Fits() }

  /** The first `v` writes, applied in turn. */
  ghost function InTurn(issued: seq<WriteRequest>, v: nat): (f: Option<File>)
    requires v <= |issued| && AllFit(issued)
    ensures f.Some? ==> Whole(f.value)
  {
    if v == 0 then None else Some(Updated(InTurn(issued, v - 1), issued[v - 1]))
  }

  /** The file holds exactly the writes up to its version. */
  ghost predicate Inv(s: State) {
    && Numbered(s.issued) && (s.file.Some? ==> Whole(s.file.value))
    && VersionAt(s.file) <= |s.issued| && s.file == InTurn(s.issued, VersionAt(s.file))
    && forall k :: k in s.done ==> 0 < k <= VersionAt(s.file)
  }

  lemma {:induction false} InTurnAppend(issued: seq<WriteRequest>, r: WriteRequest, v: nat)
    requires v <= |issued| && r.Fits() && AllFit(issued)
    ensures InTurn(issued + [r], v) == InTurn(issued, v)
  {
    if v > 0 {
      assert AllFit(issued + [r]);
      hide Updated, AllFit, WriteRequest.Fits;
      InTurnAppend(issued, r, v - 1);
    }
  }

  lemma StepInv(s: State, e: Event)
    requires Inv(s) && Possible(s, e) && |s.issued| + 1 < TWO64
    ensures Inv(Apply(s, e))
  {
    hide Updated, GetVersion;
    match e
    case Issue(r) => InTurnAppend(s.issued, r, VersionAt(s.file));
    case Arrive(i, told) =>
      var r := s.issued[i];
      if Accepts(s.file, r.version) {
        UpdatedVersion(s.file, r);
      }
  }

  // ---- runs

  ghost predicate Leads(s: State, es: seq<Event>, s': State)
    decreases |es|
  {
    if es == [] then s == s' else
    && Possible(s, es[0]) && Numbered(s.issued) && (s.file.Some? ==> Whole(s.file.value)) && |s.issued| + 1 < TWO64
    && Leads(Apply(s, es[0]), es[1..], s')
  }

  lemma {:induction false} RunInv(s: State, es: seq<Event>, s': State)
    requires Inv(s) && Leads(s, es, s')
    ensures Inv(s') && s.issued <= s'.issued
    decreases |es|
  {
    if es != [] {
      StepInv(s, es[0]);
      var s1 := Apply(s, es[0]);
      assert s.issued <= s1.issued;
      hide Inv, Apply, Possible;
      RunInv(s1, es[1..], s');
    }
  }

  /** In every run a chunk at version v holds the writes 1 to v of the master's order, applied in turn. */
  lemma Serialized(es: seq<Event>, s: State)
    requires Leads(START, es, s)
    ensures Inv(s) && (s.file.Some? ==> Whole(s.file.value))
    ensures VersionAt(s.file) <= |s.issued| && s.file == InTurn(s.issued, VersionAt(s.file))
  {
    RunInv(START, es, s);
  }

  // ---- what a reader sees

  /** Two writes have the same slot or none in common. */
  ghost predicate Slots(issued: seq<WriteRequest>) {
    forall i, j :: 0 <= i < |issued| && 0 <= j < |issued| ==> SameOrApart(issued[i], issued[j])
  }

  ghost predicate SameOrApart(q: WriteRequest, r: WriteRequest) {
    || (q.offset == r.offset && |q.Padded()| == |r.Padded()|)
    || q.offset + |q.Padded()| <= r.offset || r.offset + |r.Padded()| <= q.offset
  }

  /** The bytes of the slot of `r`. */
  ghost function SlotOf(f: File, r: WriteRequest): (b: seq<byte>)
    requires Whole(f) && r.Fits()
  {
    f[r.offset..r.offset + |r.Padded()|]
  }

  /** A write fills its slot. */
  lemma UpdatedByte(f: Option<File>, q: WriteRequest, p: nat)
    requires q.Fits() && (f.Some? ==> Whole(f.value)) && p < FILE_SIZE
    ensures q.offset <= p < q.offset + |q.Padded()| ==> Updated(f, q)[p] == q.Padded()[p - q.offset]
    ensures f.Some? && !(q.offset <= p < q.offset + |q.Padded()|) ==> Updated(f, q)[p] == f.value[p]
  {
    var made := if f.None? then PaddedFile(q.data, q.size, q.targetSize, q.padding, q.offset)
      else WriteAt(f.value, q.Padded(), q.offset);
    VersionStored(made, q.version);
    assert Updated(f, q)[p] == Updated(f, q)[..FILE_SIZE][p] == made[p];
    hide PaddedData, GetVersion, UpdateVersion;
    if f.Some? {
      WrittenAt(f.value, q.Padded(), q.offset, p);
    } else {
      NewFileByte(q, p);
    }
  }

  lemma UpdatedSlot(f: Option<File>, q: WriteRequest, r: WriteRequest)
    requires q.Fits() && r.Fits() && (f.Some? ==> Whole(f.value)) && SameOrApart(q, r)
    ensures SameSlot(q, r) ==> SlotOf(Updated(f, q), r) == q.Padded()
    ensures f.Some? && !SameSlot(q, r) ==> SlotOf(Updated(f, q), r) == SlotOf(f.value, r)
  {
    hide PaddedData, Updated;
    forall p: nat | p < |r.Padded()|
      ensures SameSlot(q, r) ==> SlotOf(Updated(f, q), r)[p] == q.Padded()[p]
      ensures f.Some? && !SameSlot(q, r) ==> SlotOf(Updated(f, q), r)[p] == SlotOf(f.value, r)[p] {
      UpdatedByte(f, q, r.offset + p);
    }
  }

  ghost predicate SameSlot(q: WriteRequest, r: WriteRequest) {
    q.offset == r.offset && |q.Padded()| == |r.Padded()|
  }

  /** At version `v` the slot of `r` holds what write `j` put there. */
  ghost predicate Shows(issued: seq<WriteRequest>, v: nat, r: WriteRequest, j: nat)
    requires Numbered(issued) && 0 < v <= |issued| && j < |issued| && r.Fits()
  {
    InTurn(issued, v).Some? && SameSlot(issued[j], r) && SlotOf(InTurn(issued, v).value, r) == issued[j].Padded()
  }

  lemma ShowsNext(issued: seq<WriteRequest>, v: nat, r: WriteRequest, j: nat)
    requires Numbered(issued) && 0 < v < |issued| && j < |issued| && r.Fits() && Shows(issued, v, r, j)
    requires SameOrApart(issued[v], r) && !SameSlot(issued[v], r)
    ensures Shows(issued, v + 1, r, j)
  {
    InTurnNext(issued, v + 1);
    UpdatedSlot(InTurn(issued, v), issued[v], r);
    hide Updated, InTurn, PaddedData;
  }

  lemma ShowsLast(issued: seq<WriteRequest>, v: nat, r: WriteRequest)
    requires Numbered(issued) && 0 < v <= |issued| && r.Fits() && SameSlot(issued[v - 1], r)
    ensures Shows(issued, v, r, v - 1)
  {
    InTurnNext(issued, v);
    UpdatedSlot(InTurn(issued, v - 1), issued[v - 1], r);
    hide Updated, InTurn, PaddedData;
  }

  lemma SlotFacts(issued: seq<WriteRequest>, k: nat, v: nat)
    requires Numbered(issued) && Slots(issued) && 0 < k <= v <= |issued|
    ensures issued[k - 1].Fits() && SameOrApart(issued[v - 1], issued[k - 1]) &&
      (v == k ==> SameSlot(issued[v - 1], issued[k - 1]))
  {
    hide SameOrApart, PaddedData;
  }

  /** From version `k` on, the slot of write `k` holds that write or a later one. */
  lemma {:induction false} SlotHolds(issued: seq<WriteRequest>, k: nat, v: nat) returns (j: nat)
    requires Numbered(issued) && Slots(issued) && 0 < k <= v <= |issued|
    ensures k <= j + 1 <= v && Shows(issued, v, issued[k - 1], j)
  {
    hide *;
    var r := issued[k - 1];
    SlotFacts(issued, k, v);
    if SameSlot(issued[v - 1], r) {
      ShowsLast(issued, v, r);
      j := v - 1;
    } else {
      j := SlotHolds(issued, k, v - 1);
      ShowsNext(issued, v - 1, r, j);
    }
  }

  lemma InTurnNext(issued: seq<WriteRequest>, v: nat)
    requires 0 < v <= |issued| && AllFit(issued)
    ensures InTurn(issued, v) == Some(Updated(InTurn(issued, v - 1), issued[v - 1]))
  {
    hide Updated;
  }

  /** The node answers a read of the slot of `r`, asked for at version `version`, with `data`. */
  ghost predicate Answered(f: Option<File>, r: WriteRequest, version: nat, data: seq<byte>) {
    f.Some? && Whole(f.value) && Read(map[r.id := f.value], r.id, r.offset, |r.Padded()|, version) == (OK, data)
  }

  /** A read that begins after write `k` was answered, and asks for the version the master then knows, is
      answered, whatever happens meanwhile, from a version that includes all those writes; and in the slot
      of write `k` it finds that write or a later one. */
  lemma ReadAfterWrite(es: seq<Event>, s: State, fs: seq<Event>, s': State, k: nat, data: seq<byte>)
    returns (v: nat, j: nat)
    requires Leads(START, es, s) && Leads(s, fs, s') && Slots(s'.issued)
    requires k in s.done && 0 < k <= |s.issued| && Answered(s'.file, s.issued[k - 1], |s.issued|, data)
    ensures |s.issued| <= v <= |s'.issued| && Numbered(s'.issued) && s'.file == InTurn(s'.issued, v)
    ensures k <= j + 1 <= v && s'.issued[j].offset == s.issued[k - 1].offset && data == s'.issued[j].Padded()
    ensures |data| == SlotSize(s'.issued[j]) && forall i: nat :: i < |data| ==> data[i] == Meant(s'.issued[j], i)
  {
    Serialized(es, s);
    RunInv(s, fs, s');
    v := VersionAt(s'.file);
    assert s'.issued[k - 1] == s.issued[k - 1];
    j := SlotHolds(s'.issued, k, v);
    PaddedMeans(s'.issued[j]);
    hide PaddedData, GetVersion, InTurn, Meant, SlotSize;
  }

  lemma {:induction false} DoneGrows(s: State, es: seq<Event>, s': State)
    requires Leads(s, es, s')
    ensures s.done <= s'.done
    decreases |es|
  {
    if es != [] {
      hide Updated, Accepts;
      DoneGrows(Apply(s, es[0]), es[1..], s');
    }
  }

  /** The same from the moment the node answers OK to write `k`: any run, that answer, any run, the beginning of the
      read, any run, its answer. */
  lemma AcknowledgedIsRead(es: seq<Event>, s0: State, k: nat, fs: seq<Event>, s: State, gs: seq<Event>, s': State,
                           data: seq<byte>) returns (v: nat, j: nat)
    requires Leads(START, es, s0) && 0 < k <= |s0.issued| && |s0.issued| + 1 < TWO64
    requires Numbered(s0.issued) && (s0.file.Some? ==> Whole(s0.file.value)) && Accepts(s0.file, k)
    requires Leads(Apply(s0, Arrive(k - 1, true)), fs, s) && Leads(s, gs, s') && Slots(s'.issued)
    requires |s.issued| >= k && Answered(s'.file, s.issued[k - 1], |s.issued|, data)
    ensures |s.issued| <= v <= |s'.issued| && k <= j + 1 <= v
    ensures s'.issued[j].offset == s.issued[k - 1].offset
    ensures |data| == SlotSize(s'.issued[j]) && forall i: nat :: i < |data| ==> data[i] == Meant(s'.issued[j], i)
  {
    var s1 := Apply(s0, Arrive(k - 1, true));
    assert k in s1.done;
    DoneGrows(s1, fs, s);
    hide Answered, Slots, Meant, Accepts, Apply, Numbered;
    RunJoined(START, es, s0, Arrive(k - 1, true), fs, s);
    v, j := ReadAfterWrite(es + [Arrive(k - 1, true)] + fs, s, gs, s', k, data);
  }

  lemma {:induction false} RunJoined(s: State, es: seq<Event>, s0: State, e: Event, fs: seq<Event>, s': State)
    requires Leads(s, es, s0) && Possible(s0, e) && Numbered(s0.issued) && |s0.issued| + 1 < TWO64
    requires (s0.file.Some? ==> Whole(s0.file.value)) && Leads(Apply(s0, e), fs, s')
    ensures Leads(s, es + [e] + fs, s')
    decreases |es|
  {
    hide Apply, Possible, Numbered;
    if es == [] {
      assert es + [e] + fs == [e] + fs && ([e] + fs)[1..] == fs;
    } else {
      RunJoined(Apply(s, es[0]), es[1..], s0, e, fs, s');
      assert (es + [e] + fs)[1..] == es[1..] + [e] + fs;
    }
  }

  /** A read is answered exactly if all the writes it asks for have been applied. */
  lemma AnsweredWhen(f: Option<File>, r: WriteRequest, version: nat)
    requires r.Fits() && (f.Some? ==> Whole(f.value)) && 0 < version
    ensures (exists data :: Answered(f, r, version, data)) <==> version <= VersionAt(f)
  {
    if f.Some? {
      var st := map[r.id := f.value];
      ReadMeans(st, r.id, r.offset, |r.Padded()|, version);
      hide Read, PaddedData, GetVersion;
      if version <= VersionAt(f) {
        assert Answered(f, r, version, Read(st, r.id, r.offset, |r.Padded()|, version).1);
      }
    }
  }

  // ---- the secondary, while the requests arrive

  /** The slot of the last write holds its bytes. */
  lemma LastSlot(issued: seq<WriteRequest>, v: nat)
    requires Numbered(issued) && 0 < v <= |issued|
    ensures InTurn(issued, v).Some? && SlotOf(InTurn(issued, v).value, issued[v - 1]) == issued[v - 1].Padded()
  {
    ShowsLast(issued, v, issued[v - 1]);
  }

  lemma InTurnSome(issued: seq<WriteRequest>, v: nat)
    requires Numbered(issued) && v <= |issued|
    ensures InTurn(issued, v).Some? <==> v > 0
  {
    hide Updated;
  }

  lemma AcceptedNext(issued: seq<WriteRequest>, v: nat, i: nat)
    requires Numbered(issued) && v <= |issued| && i < |issued| && VersionAt(InTurn(issued, v)) == v
    ensures Accepts(InTurn(issued, v), issued[i].version) <==> i == v
  {
    hide InTurn, GetVersion;
  }

  /** With the file at version `v`, what keeps the nodes in step is known from the number of the request. */
  lemma InStepAt(issued: seq<WriteRequest>, v: nat, i: nat, st: Store, crc: seq<byte> -> nat)
    requires Numbered(issued) && v <= |issued| && i < |issued| && AllWhole(st)
    requires FileOf(st, issued[i].id) == InTurn(issued, v) && VersionAt(InTurn(issued, v)) == v
    ensures InStep(st, issued[i], crc) <==>
      i + 1 == v || (i == v && (v > 0 || issued[i].padding == SPACE || CoversFile(issued[i])))
  {
    InTurnSome(issued, v);
    AcceptedNext(issued, v, i);
    if 0 < v && i + 1 == v {
      LastSlot(issued, v);
    }
    hide InTurn, GetVersion, PaddedData, Accepts, CoversFile, Whole;
  }

  /** In every run, request `i` leaves primary and secondary with equal files if and only if it repeats the last
      write applied or is the next one, and in the latter case the file exists, the padding is a space or the
      write covers the file. */
  lemma ArrivalAgrees(es: seq<Event>, s: State, i: nat, st: Store, crc: seq<byte> -> nat)
    requires Leads(START, es, s) && i < |s.issued| && AllWhole(st) && FileOf(st, s.issued[i].id) == s.file
    ensures s.issued[i].Fits() && (s.file.Some? ==> Whole(s.file.value))
    ensures var r, v := s.issued[i], VersionAt(s.file);
      Handle(st, MessageOf(r, crc), crc) == Write(st, r).0 <==>
      i + 1 == v || (i == v && (v > 0 || r.padding == SPACE || CoversFile(r)))
  {
    hide Leads;
    Serialized(es, s);
    hide InTurn, InStep, Handle, Write, VersionAt, FileOf, MessageOf, CoversFile;
    InStepAt(s.issued, VersionAt(s.file), i, st, crc);
    WriteAgrees(st, s.issued[i], crc);
  }

  /** One step, from a state to the next. */
  ghost predicate Goes(s: State, e: Event, s': State) {
    && Possible(s, e) && Numbered(s.issued) && (s.file.Some? ==> Whole(s.file.value)) && |s.issued| + 1 < TWO64
    && s' == Apply(s, e)
  }

  lemma LeadsBack(s: State, es: seq<Event>, s1: State, s': State)
    requires es != [] && Goes(s, es[0], s1) && Leads(s1, es[1..], s')
    ensures Leads(s, es, s')
  {
  }

  lemma Issued(q: WriteRequest, r: WriteRequest)
    requires q.Fits() && r.Fits() && q.version == 1 && r.version == 2
    ensures Goes(START, Issue(q), State([q], None, {})) && Goes(State([q], None, {}), Issue(r), State([q, r], None, {}))
  {
  }

  lemma ArrivesNext(s: State, i: nat)
    requires Numbered(s.issued) && |s.issued| + 1 < TWO64 && i < |s.issued|
    requires (s.file.Some? ==> Whole(s.file.value)) && VersionAt(s.file) == i
    ensures s.issued[i].Fits()
    ensures Goes(s, Arrive(i, true), State(s.issued, Some(Updated(s.file, s.issued[i])), s.done + {i + 1}))
  {
    hide Updated, GetVersion;
  }

  lemma ArrivedInTurn(q: WriteRequest, r: WriteRequest)
    requires q.Fits() && r.Fits() && q.version == 1 && r.version == 2
    ensures var f := Updated(None, q); var g := Updated(Some(f), r);
      && Goes(State([q, r], None, {}), Arrive(0, true), State([q, r], Some(f), {1}))
      && Goes(State([q, r], Some(f), {1}), Arrive(1, true), State([q, r], Some(g), {1, 2}))
  {
    UpdatedVersion(None, q);
    hide Updated, GetVersion, PaddedData, Goes, WriteRequest.Fits;
    assert {} + {1} == {1} && {1} + {2} == {1, 2};
    ArrivesNext(State([q, r], None, {}), 0);
    ArrivesNext(State([q, r], Some(Updated(None, q)), {1}), 1);
  }

  /** Two writes are issued, and then arrive in turn. */
  lemma TwoWrites(q: WriteRequest, r: WriteRequest)
    requires q.Fits() && r.Fits() && q.version == 1 && r.version == 2
    ensures Leads(START, [Issue(q), Issue(r), Arrive(0, true), Arrive(1, true)],
                  State([q, r], Some(Updated(Some(Updated(None, q)), r)), {1, 2}))
  {
    hide *;
    var f := Updated(None, q);
    var s := State([q, r], Some(Updated(Some(f), r)), {1, 2});
    var es := [Issue(q), Issue(r), Arrive(0, true), Arrive(1, true)];
    Issued(q, r);
    ArrivedInTurn(q, r);
    assert es[1..][1..] == es[2..] && es[2..][1..] == es[3..] && es[3..][1..] == [];
    LeadsNowhere(s);
    LeadsBack(State([q, r], Some(f), {1}), es[3..], s, s);
    LeadsBack(State([q, r], None, {}), es[2..], State([q, r], Some(f), {1}), s);
    LeadsBack(State([q], None, {}), es[1..], State([q, r], None, {}), s);
    LeadsBack(START, es, State([q], None, {}), s);
  }

  lemma LeadsNowhere(s: State)
    ensures Leads(s, [], s)
  {
  }

  /** A request that overtakes the first one makes the nodes differ: the primary refuses it, the secondary
      creates the file. */
  lemma Overtaken(q: WriteRequest, r: WriteRequest, told: bool, crc: seq<byte> -> nat)
    requires q.Fits() && r.Fits() && q.version == 1 && r.version == 2
    ensures var s := State([q, r], None, {}); Leads(START, [Issue(q), Issue(r)], s) && Possible(s, Arrive(1, told))
    ensures Handle(map[], MessageOf(r, crc), crc) != Write(map[], r).0
  {
    var s0, s := State([q], None, {}), State([q, r], None, {});
    var es := [Issue(q), Issue(r)];
    Issued(q, r);
    hide Handle, Write, PaddedData, Leads, Apply;
    assert es[1..][1..] == [];
    LeadsNowhere(s);
    LeadsBack(s0, es[1..], s, s);
    LeadsBack(START, es, s0, s);
    ArrivalAgrees(es, s, 1, map[], crc);
  }

  /** So does a request that arrives again after a later one: the secondary takes it once more. */
  lemma Repeated(q: WriteRequest, r: WriteRequest, told: bool, crc: seq<byte> -> nat)
    requires q.Fits() && r.Fits() && q.version == 1 && r.version == 2
    ensures var f := Updated(Some(Updated(None, q)), r);
      var s := State([q, r], Some(f), {1, 2});
      && Leads(START, [Issue(q), Issue(r), Arrive(0, true), Arrive(1, true)], s) && Possible(s, Arrive(0, told))
      && AllWhole(map[q.id := f]) && Handle(map[q.id := f], MessageOf(q, crc), crc) != Write(map[q.id := f], q).0
  {
    hide Updated, GetVersion, Handle, Write, PaddedData, Leads, MessageOf;
    var f := Updated(Some(Updated(None, q)), r);
    UpdatedVersion(Some(Updated(None, q)), r);
    TwoWrites(q, r);
    ArrivalAgrees([Issue(q), Issue(r), Arrive(0, true), Arrive(1, true)], State([q, r], Some(f), {1, 2}), 0,
                  map[q.id := f], crc);
  }

  /** And so does a first write that pads with zeros and does not cover the file. */
  lemma PaddedWithZeros(crc: seq<byte> -> nat)
    ensures var r := WriteRequest(0, 0, 0, 0, 1, 0, []);
      r.Fits() && Write(map[], r).1 == OK && Handle(map[], MessageOf(r, crc), crc) != Write(map[], r).0
  {
    var r := WriteRequest(0, 0, 0, 0, 1, 0, []);
    hide Handle, PaddedData, Updated;
    AcceptedAgrees(map[], r, crc);
  }
}
