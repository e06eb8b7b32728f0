/**
  A client writes a cell: the master says where and at which version, and the client
  sends the bytes to the data node. What the master hands out is what the data node's
  version protocol relies on.
 */
module ClientWrites {
  import opened Numbers
  import opened Options
  import opened SheetCells
  import opened SheetFiles
  import opened SheetLoading
  import B = ChunkBytes
  import D = ChunkStore
  import V = ChunkVersions

  /** What the client wants to write. */
  datatype Body = Body(data: seq<byte>, padding: byte)

  ghost predicate IsMetaPlace(r: Request) { r.row == TWO32 - 1 && r.col == TWO32 - 1 }

  /** The request the client sends after the master's answer. */
  ghost function Sent(a: Answer, r: Request, b: Body): (q: D.WriteRequest)
    requires a.Go?
  {
    D.WriteRequest(a.chunkId, a.cell.offset, |b.data|, if IsMetaPlace(r) then B.FILE_SIZE else B.BLOCK_SIZE,
                   a.version, b.padding, b.data)
  }

  ghost function Added(a: Answer, r: Request, b: Body, c: nat): (qs: seq<D.WriteRequest>) {
    if a.Go? && a.chunkId == c then [Sent(a, r, b)] else []
  }

  /** The requests for chunk `c`, in the order of the master's answers. */
  ghost function SentTo(answers: seq<Answer>, rs: seq<Request>, bs: seq<Body>, c: nat): (qs: seq<D.WriteRequest>)
    requires |answers| == |rs| == |bs|
    ensures |qs| <= |rs|
  {
    if rs == [] then [] else
    Added(answers[0], rs[0], bs[0], c) + SentTo(answers[1..], rs[1..], bs[1..], c)
  }

  /** `q` carries the whole of body `i` to where the master's answer to it says. */
  ghost predicate Answered(q: D.WriteRequest, answers: seq<Answer>, bs: seq<Body>, i: nat) {
    && i < |answers| == |bs| && answers[i].Go? && q.id == answers[i].chunkId
    && q.offset == answers[i].cell.offset && q.version == answers[i].version
    && q.data == bs[i].data && q.size == |bs[i].data| && q.padding == bs[i].padding
  }

  /** Every request sent is that of one of the client's writes. */
  lemma {:induction false} SentFor(answers: seq<Answer>, rs: seq<Request>, bs: seq<Body>, c: nat, j: nat)
    returns (i: nat)
    requires |answers| == |rs| == |bs| && j < |SentTo(answers, rs, bs, c)|
    ensures Answered(SentTo(answers, rs, bs, c)[j], answers, bs, i)
  {
    var own := Added(answers[0], rs[0], bs[0], c);
    if j < |own| {
      i := 0;
    } else {
      i := SentFor(answers[1..], rs[1..], bs[1..], c, j - |own|);
      i := i + 1;
    }
  }

  // ---- what the master keeps true of the requests for a chunk

  ghost predicate HasSlot(f: Sheet, c: nat, k: int, q: D.WriteRequest) {
    k in f.cells && f.cells[k].chunkId == c && f.cells[k].offset == q.offset && f.cells[k].size == q.targetSize
  }

  /** `q` writes the slot of some cell in chunk `c`. */
  ghost predicate OfCell(f: Sheet, c: nat, q: D.WriteRequest) {
    q.id == c && exists k :: HasSlot(f, c, k, q)
  }

  ghost function VersionOf(f: Sheet, c: nat): (v: nat) { if c in f.chunks then f.chunks[c].version else 0 }

  ghost predicate Tracks(f: Sheet, c: nat, qs: seq<D.WriteRequest>) {
    && |qs| == VersionOf(f, c)
    && forall i :: 0 <= i < |qs| ==> qs[i].version == i + 1 && OfCell(f, c, qs[i])
  }

  /** The size of a cell follows from its place. */
  lemma SizeOfPlace(f: Sheet, k: int)
    requires Layout(f) && k in f.cells
    ensures f.cells[k].size == SizeOfNew(k) && f.cells[k].chunkId in f.chunks
    ensures f.cells[k].offset + f.cells[k].size <= BYTES_PER_CHUNK
  {
    LayoutMeans(f, k, k);
    var x := f.cells[k];
    assert Located(f.chunks, k, x);
    assert Fits(f.cells, x.chunkId, f.chunks[x.chunkId]);
    assert x in CellsOf(f.cells, x.chunkId);
  }

  /** Cells stay where they are, so earlier requests keep their cell. */
  lemma StillOfCell(f: Sheet, f': Sheet, c: nat, q: D.WriteRequest)
    requires OfCell(f, c, q) && forall k :: k in f.cells ==> k in f'.cells && f'.cells[k] == f.cells[k]
    ensures OfCell(f', c, q)
  {
    var k :| HasSlot(f, c, k, q);
    assert HasSlot(f', c, k, q);
  }

  /** `w` puts the cell at `k` into `f` or finds it there, and raises the version of its chunk. */
  ghost predicate Raises(f: Sheet, w: Written, k: int) {
    && w.sheet.cells == f.cells[k := w.cell] && (k in f.cells ==> w.cell == f.cells[k])
    && w.sheet.chunks == f.chunks[w.chunk.id := w.chunk] && w.chunk.id == w.cell.chunkId
    && w.chunk.version == VersionOf(f, w.chunk.id) + 1
  }

  lemma WriteRaises(f: Sheet, r: Request)
    requires Layout(f) && r.id !in f.chunks
    ensures var w := WriteCell(f, r.row, r.col, r.node, r.id);
      w.Some? ==> Layout(w.value.sheet) && Raises(f, w.value, GetCellID(r.row, r.col))
  {
    WriteMeans(f, r.row, r.col, r.node, r.id);
    WriteLayout(f, r.row, r.col, r.node, r.id);
    hide GetCellID, Layout, WriteCell, HasRoom, SizeOfNew;
  }

  /** The request for `w` has the slot of its cell. */
  lemma SentOfCell(f: Sheet, w: Written, r: Request, b: Body)
    requires Layout(w.sheet) && Raises(f, w, GetCellID(r.row, r.col))
    ensures OfCell(w.sheet, w.chunk.id, Sent(AnswerOf(Some(w)), r, b))
  {
    var k := GetCellID(r.row, r.col);
    MetaCellPlace(r.row, r.col);
    hide GetCellID, Layout;
    SizeOfPlace(w.sheet, k);
    assert HasSlot(w.sheet, w.chunk.id, k, Sent(AnswerOf(Some(w)), r, b));
  }

  lemma RaisedFacts(f: Sheet, w: Written, k: int, c: nat)
    requires Raises(f, w, k)
    ensures forall i :: i in f.cells ==> i in w.sheet.cells && w.sheet.cells[i] == f.cells[i]
    ensures VersionOf(w.sheet, c) == VersionOf(f, c) + if w.chunk.id == c then 1 else 0
    ensures w.chunk.id == c ==> w.chunk.version == VersionOf(w.sheet, c)
  {
  }

  lemma RaisedTracks(f: Sheet, w: Written, r: Request, b: Body, c: nat, qs: seq<D.WriteRequest>)
    requires Layout(w.sheet) && Raises(f, w, GetCellID(r.row, r.col)) && Tracks(f, c, qs)
    ensures Tracks(w.sheet, c, qs + Added(AnswerOf(Some(w)), r, b, c))
  {
    hide Layout, OfCell, GetCellID, Raises, VersionOf;
    SentOfCell(f, w, r, b);
    RaisedFacts(f, w, GetCellID(r.row, r.col), c);
    forall i | 0 <= i < |qs| ensures OfCell(w.sheet, c, qs[i]) {
      StillOfCell(f, w.sheet, c, qs[i]);
    }
  }

  lemma TracksNext(f: Sheet, r: Request, b: Body, c: nat, qs: seq<D.WriteRequest>)
    requires Layout(f) && r.id !in f.chunks && Tracks(f, c, qs)
    ensures Layout(After(f, r))
    ensures Tracks(After(f, r), c, qs + Added(AnswerOf(WriteCell(f, r.row, r.col, r.node, r.id)), r, b, c))
  {
    WriteRaises(f, r);
    hide Layout, WriteCell, Tracks, Raises;
    var w := WriteCell(f, r.row, r.col, r.node, r.id);
    if w.Some? {
      RaisedTracks(f, w.value, r, b, c, qs);
    } else {
      assert qs + [] == qs;
    }
  }

  lemma {:induction false} AsManyAnswers(f: Sheet, rs: seq<Request>)
    requires NewIds(f, rs)
    ensures |Answers(f, rs)| == |rs|
    decreases |rs|
  {
    if rs != [] {
      hide Layout, WriteCell, After;
      AsManyAnswers(After(f, rs[0]), rs[1..]);
    }
  }

  lemma SentNext(f: Sheet, rs: seq<Request>, bs: seq<Body>, c: nat)
    requires NewIds(f, rs) && rs != [] && |bs| == |rs|
    ensures Layout(f) && rs[0].id !in f.chunks && NewIds(After(f, rs[0]), rs[1..])
    ensures |Answers(f, rs)| == |rs| && |Answers(After(f, rs[0]), rs[1..])| == |rs[1..]|
    ensures SentTo(Answers(f, rs), rs, bs, c) ==
      Added(AnswerOf(WriteCell(f, rs[0].row, rs[0].col, rs[0].node, rs[0].id)), rs[0], bs[0], c)
      + SentTo(Answers(After(f, rs[0]), rs[1..]), rs[1..], bs[1..], c)
  {
    AsManyAnswers(f, rs);
    AsManyAnswers(After(f, rs[0]), rs[1..]);
    hide Layout, WriteCell, After, Sent;
    assert Answers(f, rs)[1..] == Answers(After(f, rs[0]), rs[1..]);
  }

  lemma SentNone(f: Sheet, c: nat, qs: seq<D.WriteRequest>)
    ensures AfterAll(f, []) == f && Answers(f, []) == [] && qs + SentTo([], [], [], c) == qs
  {
  }

  lemma {:induction false} TracksAll(f: Sheet, rs: seq<Request>, bs: seq<Body>, c: nat, qs: seq<D.WriteRequest>)
    requires Layout(f) && NewIds(f, rs) && |bs| == |rs| && Tracks(f, c, qs)
    ensures |Answers(f, rs)| == |rs|
    ensures Layout(AfterAll(f, rs)) && Tracks(AfterAll(f, rs), c, qs + SentTo(Answers(f, rs), rs, bs, c))
    decreases |rs|
  {
    hide Layout, Tracks, WriteCell, After, SentTo, Answers, Added, NewIds;
    if rs == [] {
      SentNone(f, c, qs);
    } else {
      SentNext(f, rs, bs, c);
      TracksNext(f, rs[0], bs[0], c, qs);
      var one := Added(AnswerOf(WriteCell(f, rs[0].row, rs[0].col, rs[0].node, rs[0].id)), rs[0], bs[0], c);
      var rest := SentTo(Answers(After(f, rs[0]), rs[1..]), rs[1..], bs[1..], c);
      TracksAll(After(f, rs[0]), rs[1..], bs[1..], c, qs + one);
      assert qs + one + rest == qs + (one + rest);
    }
  }

  /** The data node's hypotheses, from the master's bookkeeping. */
  lemma TrackedAreNumbered(f: Sheet, c: nat, qs: seq<D.WriteRequest>)
    requires Layout(f) && Tracks(f, c, qs) && |qs| < TWO64 && c < TWO64
    ensures V.Numbered(qs) && V.Slots(qs)
  {
    hide Layout, D.WriteRequest.Padded;
    forall i | 0 <= i < |qs| ensures qs[i].Fits() {
      var k :| HasSlot(f, c, k, qs[i]);
      SizeOfPlace(f, k);
    }
    forall i, j | 0 <= i < |qs| && 0 <= j < |qs| ensures V.SameOrApart(qs[i], qs[j]) {
      var k :| HasSlot(f, c, k, qs[i]);
      var l :| HasSlot(f, c, l, qs[j]);
      SizeOfPlace(f, k);
      SizeOfPlace(f, l);
      LayoutMeans(f, k, l);
    }
  }

  /** Whatever is written to a file from its creation on, the requests for each of its chunks carry the versions
      1, 2, 3 and so on in the master's order, their slots lie in the chunk, and two of them have the same slot
      or no byte in common. Restarts of the master in between make no difference. */
  lemma MasterNumbers(node: string, id: nat, turns: seq<Turn>, bs: seq<Body>, c: nat)
    requires Lives(Create(node, id).sheet, turns) && |bs| == |Asked(turns)| < TWO64 && c < TWO64
    ensures var answers := LifeAnswers(Create(node, id).sheet, turns);
      && |answers| == |bs|
      && V.Numbered(SentTo(answers, Asked(turns), bs, c)) && V.Slots(SentTo(answers, Asked(turns), bs, c))
  {
    var f := Create(node, id).sheet;
    var rs := Asked(turns);
    WholeLife(node, id, turns);
    CreateLayout(node, id);
    assert Tracks(f, c, []);
    hide Layout, Create, Lives, Tracks, V.Numbered, V.Slots;
    TracksAll(f, rs, bs, c, []);
    var qs := SentTo(Answers(f, rs), rs, bs, c);
    assert [] + qs == qs;
    TrackedAreNumbered(AfterAll(f, rs), c, qs);
  }

  /** From the master to the data node: if the writes issued for a chunk are those the master handed out, a read
      that begins after write `k` was answered finds in its slot the bytes of that write or of a later one,
      which are those a client wanted to write. */
  lemma WrittenIsRead(node: string, id: nat, turns: seq<Turn>, bs: seq<Body>, c: nat,
                      es: seq<V.Event>, s: V.State, fs: seq<V.Event>, s': V.State, k: nat, data: seq<byte>)
    returns (v: nat, j: nat, i: nat)
    requires Lives(Create(node, id).sheet, turns) && |bs| == |Asked(turns)| < TWO64 && c < TWO64
    requires |LifeAnswers(Create(node, id).sheet, turns)| == |bs|
    requires s'.issued == SentTo(LifeAnswers(Create(node, id).sheet, turns), Asked(turns), bs, c)
    requires V.Leads(V.START, es, s) && V.Leads(s, fs, s')
    requires k in s.done && 0 < k <= |s.issued| && V.Answered(s'.file, s.issued[k - 1], |s.issued|, data)
    ensures |s.issued| <= v <= |s'.issued| && V.Numbered(s'.issued) && s'.file == V.InTurn(s'.issued, v)
    ensures k <= j + 1 <= v && s'.issued[j].offset == s.issued[k - 1].offset && data == s'.issued[j].Padded()
    ensures |data| == D.SlotSize(s'.issued[j]) && forall p: nat :: p < |data| ==> data[p] == D.Meant(s'.issued[j], p)
    ensures Answered(s'.issued[j], LifeAnswers(Create(node, id).sheet, turns), bs, i)
  {
    hide *;
    MasterNumbers(node, id, turns, bs, c);
    v, j := V.ReadAfterWrite(es, s, fs, s', k, data);
    i := SentFor(LifeAnswers(Create(node, id).sheet, turns), Asked(turns), bs, c, j);
  }
}
