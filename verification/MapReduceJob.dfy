/**
  A whole job: whatever the order in which map tasks emit their pairs, the merged
  output groups all pairs by key.
 */
module MapReduceJob {
  import opened MapReduce

  // ---- values of concatenations and parts

  lemma {:induction false} ValuesAppend(a: seq<KeyValue>, b: seq<KeyValue>, k: string)
    ensures ValuesOf(a + b, k) == ValuesOf(a, k) + ValuesOf(b, k)
  {
    if b == [] {
      assert a + b == a;
    } else {
      var n := |b| - 1;
      ValuesAppend(a, b[..n], k);
      assert (a + b)[..|a + b| - 1] == a + b[..n];
    }
  }

  lemma {:induction false} PartValues(kvs: seq<KeyValue>, r: nat, nReduce: nat, ihash: string -> nat, k: string)
    requires nReduce > 0
    ensures ValuesOf(Part(kvs, r, nReduce, ihash), k) == if TaskOf(k, nReduce, ihash) == r then ValuesOf(kvs, k) else []
  {
    if kvs != [] {
      var kv := kvs[|kvs| - 1];
      var was := Part(kvs[..|kvs| - 1], r, nReduce, ihash);
      PartValues(kvs[..|kvs| - 1], r, nReduce, ihash, k);
      if TaskOf(kv.key, nReduce, ihash) == r {
        assert (was + [kv])[..|was|] == was;
      } else {
        assert was + [] == was;
      }
    }
  }

  /** The map phase is over: every file holds its part of what its task emitted. */
  ghost predicate Mapped(files: Files, outs: seq<seq<KeyValue>>, nReduce: nat, ihash: string -> nat)
    requires nReduce > 0
  {
    forall m, r :: 0 <= m < |outs| && 0 <= r < nReduce ==> Contents(files, m, r) == Part(outs[m], r, nReduce, ihash)
  }

  /** The file of map task `m` for reduce task `r` holds what `m` emitted under keys whose hash is `r`, and all
      values of such a key in their order. */
  lemma FilesByHash(files: Files, outs: seq<seq<KeyValue>>, nReduce: nat, ihash: string -> nat, m: nat, r: nat,
                    kv: KeyValue)
    requires nReduce > 0 && Mapped(files, outs, nReduce, ihash) && m < |outs| && r < nReduce
    ensures kv in Contents(files, m, r) <==> kv in outs[m] && ihash(kv.key) % nReduce == r
    ensures ihash(kv.key) % nReduce == r ==> ValuesOf(Contents(files, m, r), kv.key) == ValuesOf(outs[m], kv.key)
  {
    hide Part, ValuesOf;
    PartMembers(outs[m], r, nReduce, ihash, kv);
    if ihash(kv.key) % nReduce == r {
      PartValues(outs[m], r, nReduce, ihash, kv.key);
    }
  }

  lemma NextFile(files: Files, outs: seq<seq<KeyValue>>, nReduce: nat, ihash: string -> nat, r: nat, n: nat)
    requires nReduce > r && Mapped(files, outs, nReduce, ihash) && n < |outs|
    ensures Column(files, r, n + 1) == Column(files, r, n) + Part(outs[n], r, nReduce, ihash)
    ensures Together(outs, n + 1) == Together(outs, n) + outs[n]
  {
    hide Part;
    assert Contents(files, n, r) == Part(outs[n], r, nReduce, ihash);
  }

  lemma Nothing(files: Files, r: nat, outs: seq<seq<KeyValue>>, k: string)
    ensures Column(files, r, 0) == [] && Together(outs, 0) == [] && ValuesOf([], k) == []
  {
  }

  /** A reduce task sees all values of its own keys, in the order of map tasks, and no other key. */
  lemma {:induction false} ColumnValues(files: Files, outs: seq<seq<KeyValue>>, nReduce: nat, ihash: string -> nat,
                                        r: nat, n: nat, k: string)
    requires nReduce > r && Mapped(files, outs, nReduce, ihash) && n <= |outs|
    ensures ValuesOf(Column(files, r, n), k) ==
      if TaskOf(k, nReduce, ihash) == r then ValuesOf(Together(outs, n), k) else []
  {
    hide *;
    if n == 0 {
      Nothing(files, r, outs, k);
    } else {
      ColumnValues(files, outs, nReduce, ihash, r, n - 1, k);
      NextFile(files, outs, nReduce, ihash, r, n - 1);
      ValuesAppend(Column(files, r, n - 1), Part(outs[n - 1], r, nReduce, ihash), k);
      PartValues(outs[n - 1], r, nReduce, ihash, k);
      ValuesAppend(Together(outs, n - 1), outs[n - 1], k);
    }
  }

  // ---- what is merged

  lemma {:induction false} LastIsLast(kvs: seq<KeyValue>, k: string)
    requires HasKey(kvs, k)
    ensures |ValuesOf(kvs, k)| > 0 && LastOf(kvs, k) == ValuesOf(kvs, k)[|ValuesOf(kvs, k)| - 1]
  {
    var n := |kvs| - 1;
    if kvs[n].key != k {
      var i :| 0 <= i < |kvs| && kvs[i].key == k;
      assert kvs[..n][i].key == k;
      LastIsLast(kvs[..n], k);
    }
  }

  lemma {:induction false} OneValue(out: seq<KeyValue>, i: nat)
    requires i < |out| && forall i, j :: 0 <= i < j < |out| ==> Before(out[i].key, out[j].key)
    ensures ValuesOf(out, out[i].key) == [out[i].value]
  {
    var n := |out| - 1;
    var k := out[i].key;
    if i == n {
      assert !HasKey(out[..n], k) by {
        forall j | 0 <= j < n ensures out[..n][j].key != k {
          assert Before(out[j].key, out[n].key);
          BeforeTotal(k, k);
        }
      }
      NoValues(out[..n], k);
    } else {
      assert Before(out[i].key, out[n].key);
      BeforeTotal(k, k);
      OneValue(out[..n], i);
    }
  }

  /** The values of a key, reduced to one; none stay none. */
  ghost function OneGroup(values: seq<string>, reduceF: (string, seq<string>) -> string, k: string): (r: seq<string>) {
    if values == [] then [] else [reduceF(k, values)]
  }

  /** A reduce output has one value for each key of its input. */
  lemma GroupValues(out: seq<KeyValue>, kvs: seq<KeyValue>, reduceF: (string, seq<string>) -> string, k: string)
    requires Groups(out, kvs, reduceF)
    ensures ValuesOf(out, k) == OneGroup(ValuesOf(kvs, k), reduceF, k)
  {
    hide ValuesOf;
    NoValues(kvs, k);
    NoValues(out, k);
    assert HasKey(out, k) <==> HasKey(kvs, k);
    if HasKey(out, k) {
      var i :| 0 <= i < |out| && out[i].key == k;
      OneValue(out, i);
    }
  }

  /** Every reduce task has grouped its column. */
  ghost predicate Reduced(reds: seq<seq<KeyValue>>, files: Files, nMap: nat, reduceF: (string, seq<string>) -> string) {
    forall r :: 0 <= r < |reds| ==> Groups(reds[r], Column(files, r, nMap), reduceF)
  }

  lemma NextReduced(reds: seq<seq<KeyValue>>, files: Files, nMap: nat, reduceF: (string, seq<string>) -> string, r: nat)
    requires Reduced(reds, files, nMap, reduceF) && r < |reds|
    ensures Groups(reds[r], Column(files, r, nMap), reduceF) && Together(reds, r + 1) == Together(reds, r) + reds[r]
  {
    hide Groups;
  }

  /** Only the reduce task that `k` hashes to has anything to merge for it. */
  lemma {:induction false} MergedValues(reds: seq<seq<KeyValue>>, files: Files, outs: seq<seq<KeyValue>>, nReduce: nat,
                                        ihash: string -> nat, reduceF: (string, seq<string>) -> string, n: nat,
                                        k: string)
    requires |reds| == nReduce > 0 && Mapped(files, outs, nReduce, ihash) && Reduced(reds, files, |outs|, reduceF) &&
      n <= nReduce
    ensures ValuesOf(Together(reds, n), k) ==
      if TaskOf(k, nReduce, ihash) < n then OneGroup(ValuesOf(Together(outs, |outs|), k), reduceF, k) else []
  {
    hide *;
    if n == 0 {
      Nothing(files, 0, reds, k);
    } else {
      var r := n - 1;
      MergedValues(reds, files, outs, nReduce, ihash, reduceF, r, k);
      NextReduced(reds, files, |outs|, reduceF, r);
      ValuesAppend(Together(reds, r), reds[r], k);
      GroupValues(reds[r], Column(files, r, |outs|), reduceF, k);
      ColumnValues(files, outs, nReduce, ihash, r, |outs|, k);
      NoGroup(reduceF, k);
    }
  }

  lemma NoGroup(reduceF: (string, seq<string>) -> string, k: string)
    ensures OneGroup([], reduceF, k) == []
  {
  }

  ghost predicate KeyMerged(mid: seq<KeyValue>, all: seq<KeyValue>, reduceF: (string, seq<string>) -> string,
                            k: string) {
    (HasKey(mid, k) <==> HasKey(all, k)) && (HasKey(mid, k) ==> LastOf(mid, k) == reduceF(k, ValuesOf(all, k)))
  }

  /** Key by key: what is merged has exactly the keys emitted, each with its values reduced. */
  lemma MergedKey(reds: seq<seq<KeyValue>>, files: Files, outs: seq<seq<KeyValue>>, nReduce: nat,
                  ihash: string -> nat, reduceF: (string, seq<string>) -> string, k: string)
    requires |reds| == nReduce > 0 && Mapped(files, outs, nReduce, ihash) && Reduced(reds, files, |outs|, reduceF)
    ensures KeyMerged(Together(reds, nReduce), Together(outs, |outs|), reduceF, k)
  {
    var (mid, all) := (Together(reds, nReduce), Together(outs, |outs|));
    hide ValuesOf, Mapped, Reduced, Together, LastOf, TaskOf, HasKey;
    MergedValues(reds, files, outs, nReduce, ihash, reduceF, nReduce, k);
    NoValues(mid, k);
    NoValues(all, k);
    if HasKey(mid, k) {
      LastIsLast(mid, k);
    }
  }

  /** MapReduce is group-by: the merged output has every emitted key once, in order, with reduceF of all
      its values in map-task order and, within a task, emission order. */
  lemma JobGroups(out: seq<KeyValue>, reds: seq<seq<KeyValue>>, files: Files, outs: seq<seq<KeyValue>>, nReduce: nat,
                  ihash: string -> nat, reduceF: (string, seq<string>) -> string)
    requires |reds| == nReduce > 0 && Mapped(files, outs, nReduce, ihash) && Reduced(reds, files, |outs|, reduceF)
    requires Merges(out, Together(reds, nReduce))
    ensures Groups(out, Together(outs, |outs|), reduceF)
  {
    var all := Together(outs, |outs|);
    var mid := Together(reds, nReduce);
    hide *;
    forall k ensures KeyMerged(mid, all, reduceF, k) {
      MergedKey(reds, files, outs, nReduce, ihash, reduceF, k);
    }
    MergedGroups(out, mid, all, reduceF);
  }

  lemma MergedGroups(out: seq<KeyValue>, mid: seq<KeyValue>, all: seq<KeyValue>,
                     reduceF: (string, seq<string>) -> string)
    requires Merges(out, mid) && forall k :: KeyMerged(mid, all, reduceF, k)
    ensures Groups(out, all, reduceF)
  {
    hide ValuesOf, LastOf, HasKey, Before;
    forall k ensures HasKey(out, k) <==> HasKey(all, k) {
      assert KeyMerged(mid, all, reduceF, k);
    }
    forall i | 0 <= i < |out| ensures out[i].value == reduceF(out[i].key, ValuesOf(all, out[i].key)) {
      assert KeyMerged(mid, all, reduceF, out[i].key);
    }
  }

  // ---- map tasks in any interleaving

  /** How many pairs each map task has emitted so far. */
  datatype Mapping = Mapping(files: Files, next: seq<nat>)

  /** Map task `m` emits its next pair. */
  ghost function EmitNext(s: Mapping, outs: seq<seq<KeyValue>>, m: nat, nReduce: nat,
                          ihash: string -> nat): (s': Mapping)
    requires nReduce > 0 && m < |outs| == |s.next| && s.next[m] < |outs[m]|
  {
    Mapping(Emit(s.files, m, outs[m][s.next[m]], nReduce, ihash), s.next[m := s.next[m] + 1])
  }

  ghost predicate MapInv(s: Mapping, outs: seq<seq<KeyValue>>, nReduce: nat, ihash: string -> nat)
    requires nReduce > 0
  {
    && |s.next| == |outs| && (forall m :: 0 <= m < |outs| ==> s.next[m] <= |outs[m]|)
    && forall m: nat, r: nat :: m < |outs| ==> Emitted(s, outs, m, r, nReduce, ihash)
  }

  ghost predicate Emitted(s: Mapping, outs: seq<seq<KeyValue>>, m: nat, r: nat, nReduce: nat, ihash: string -> nat)
    requires nReduce > 0 && m < |outs| == |s.next| && s.next[m] <= |outs[m]|
  {
    Contents(s.files, m, r) == Part(outs[m][..s.next[m]], r, nReduce, ihash)
  }

  lemma EmitInv(s: Mapping, outs: seq<seq<KeyValue>>, m: nat, nReduce: nat, ihash: string -> nat)
    requires nReduce > 0 && MapInv(s, outs, nReduce, ihash) && m < |outs| && s.next[m] < |outs[m]|
    ensures MapInv(EmitNext(s, outs, m, nReduce, ihash), outs, nReduce, ihash)
  {
    var s' := EmitNext(s, outs, m, nReduce, ihash);
    forall m': nat, r: nat | m' < |outs| ensures Emitted(s', outs, m', r, nReduce, ihash) {
      hide Part, Contents, Emit, TaskOf;
      EmitPart(s.files, m, outs[m], s.next[m], nReduce, ihash, m', r);
      assert Emitted(s, outs, m', r, nReduce, ihash);
    }
  }

  /** A run of the map phase: `order` says which task emits next. */
  ghost predicate MapRun(s: Mapping, order: seq<nat>, s': Mapping, outs: seq<seq<KeyValue>>, nReduce: nat,
                         ihash: string -> nat)
    requires nReduce > 0
    decreases |order|
  {
    if order == [] then s == s' else
    && order[0] < |outs| == |s.next| && s.next[order[0]] < |outs[order[0]]|
    && MapRun(EmitNext(s, outs, order[0], nReduce, ihash), order[1..], s', outs, nReduce, ihash)
  }

  lemma {:induction false} MapRunInv(s: Mapping, order: seq<nat>, s': Mapping, outs: seq<seq<KeyValue>>, nReduce: nat,
                                     ihash: string -> nat)
    requires nReduce > 0 && MapInv(s, outs, nReduce, ihash) && MapRun(s, order, s', outs, nReduce, ihash)
    ensures MapInv(s', outs, nReduce, ihash)
    decreases |order|
  {
    if order != [] {
      EmitInv(s, outs, order[0], nReduce, ihash);
      MapRunInv(EmitNext(s, outs, order[0], nReduce, ihash), order[1..], s', outs, nReduce, ihash);
    }
  }

  /** However the map tasks are interleaved, once they have emitted everything the files hold the parts. */
  lemma AnyOrder(order: seq<nat>, s: Mapping, outs: seq<seq<KeyValue>>, nReduce: nat, ihash: string -> nat)
    requires nReduce > 0 && MapRun(Mapping(map[], seq(|outs|, _ => 0)), order, s, outs, nReduce, ihash)
    requires |s.next| == |outs| && forall m :: 0 <= m < |outs| ==> s.next[m] == |outs[m]|
    ensures Mapped(s.files, outs, nReduce, ihash)
  {
    var start := Mapping(map[], seq(|outs|, _ => 0));
    assert MapInv(start, outs, nReduce, ihash) by {
      forall m: nat, r: nat | m < |outs| ensures Emitted(start, outs, m, r, nReduce, ihash) {
        assert outs[m][..start.next[m]] == [];
      }
    }
    MapRunInv(start, order, s, outs, nReduce, ihash);
    forall m, r | 0 <= m < |outs| && 0 <= r < nReduce
      ensures Contents(s.files, m, r) == Part(outs[m], r, nReduce, ihash) {
      assert outs[m][..s.next[m]] == outs[m] && Emitted(s, outs, m, r, nReduce, ihash);
    }
  }

  /** The whole job, for every interleaving: the map tasks emit their pairs in any order, the reduce tasks group
      what they find, and what is merged from them is the group-by of everything emitted. */
  lemma AnyOrderGroups(order: seq<nat>, s: Mapping, reds: seq<seq<KeyValue>>, out: seq<KeyValue>,
                       outs: seq<seq<KeyValue>>, nReduce: nat, ihash: string -> nat,
                       reduceF: (string, seq<string>) -> string)
    requires nReduce > 0 && MapRun(Mapping(map[], seq(|outs|, _ => 0)), order, s, outs, nReduce, ihash)
    requires |s.next| == |outs| && forall m :: 0 <= m < |outs| ==> s.next[m] == |outs[m]|
    requires |reds| == nReduce && Reduced(reds, s.files, |outs|, reduceF) && Merges(out, Together(reds, nReduce))
    ensures Groups(out, Together(outs, |outs|), reduceF)
  {
    AnyOrder(order, s, outs, nReduce, ihash);
    hide *;
    JobGroups(out, reds, s.files, outs, nReduce, ihash, reduceF);
  }

  // ---- a sequential job

  /** The files after the first `n` map tasks. */
  ghost predicate MappedUpTo(files: Files, outs: seq<seq<KeyValue>>, n: nat, nReduce: nat, ihash: string -> nat)
    requires nReduce > 0
  {
    forall m: nat, r: nat :: Contents(files, m, r) ==
      if m < n && m < |outs| then Part(outs[m], r, nReduce, ihash) else []
  }

  method MapPhase(outs: seq<seq<KeyValue>>, nReduce: nat, ihash: string -> nat) returns (files: Files)
    requires nReduce > 0
    ensures Mapped(files, outs, nReduce, ihash)
  {
    files := map[];
    for m := 0 to |outs|
      invariant MappedUpTo(files, outs, m, nReduce, ihash)
    {
      ghost var was := files;
      files := DoMap(files, m, outs[m], nReduce, ihash);
      NextMapped(was, files, outs, m, nReduce, ihash);
    }
  }

  lemma NextMapped(was: Files, files: Files, outs: seq<seq<KeyValue>>, m: nat, nReduce: nat, ihash: string -> nat)
    requires nReduce > 0 && m < |outs| && MappedUpTo(was, outs, m, nReduce, ihash)
    requires AddedTo(was, files, m, outs[m], nReduce, ihash)
    ensures MappedUpTo(files, outs, m + 1, nReduce, ihash)
  {
    hide Part, Contents;
    forall m': nat, r: nat
      ensures Contents(files, m', r) == if m' < m + 1 && m' < |outs| then Part(outs[m'], r, nReduce, ihash) else [] {
      assert Contents(was, m', r) == if m' < m && m' < |outs| then Part(outs[m'], r, nReduce, ihash) else [];
    }
  }

  method ReducePhase(files: Files, nMap: nat, nReduce: nat, reduceF: (string, seq<string>) -> string)
    returns (reds: seq<seq<KeyValue>>)
    ensures |reds| == nReduce && Reduced(reds, files, nMap, reduceF)
  {
    reds := [];
    for r := 0 to nReduce
      invariant |reds| == r && Reduced(reds, files, nMap, reduceF)
    {
      hide Groups;
      var red := DoReduce(files, r, nMap, reduceF);
      reds := reds + [red];
    }
  }

  /** All map tasks, then all reduce tasks, then the merge; `outs` are the results of mapF. */
  method Sequential(outs: seq<seq<KeyValue>>, nReduce: nat, ihash: string -> nat,
                    reduceF: (string, seq<string>) -> string)
    returns (out: seq<KeyValue>)
    requires nReduce > 0
    ensures Groups(out, Together(outs, |outs|), reduceF)
  {
    hide *;
    var files := MapPhase(outs, nReduce, ihash);
    var reds := ReducePhase(files, |outs|, nReduce, reduceF);
    out := Merge(reds);
    JobGroups(out, reds, files, outs, nReduce, ihash, reduceF);
  }
}
