/**
  The MapReduce pipeline: map tasks partition their pairs by a hash of the key,
  reduce tasks group and reduce them, and the results are merged.
 */
module MapReduce {
  datatype KeyValue = KeyValue(key: string, value: string)

  /** The intermediate files, by map task and reduce task; a file that was never written is empty. */
  type Files = map<(nat, nat), seq<KeyValue>>

  function Contents(files: Files, m: nat, r: nat): (kvs: seq<KeyValue>) {
    if (m, r) in files then files[(m, r)] else []
  }

  // ---- the specification

  /** The values of key `k`, in order. */
  function ValuesOf(kvs: seq<KeyValue>, k: string): (values: seq<string>) {
    if kvs == [] then [] else
    var kv := kvs[|kvs| - 1];
    ValuesOf(kvs[..|kvs| - 1], k) + if kv.key == k then [kv.value] else []
  }

  ghost predicate HasKey(kvs: seq<KeyValue>, k: string) { exists i :: 0 <= i < |kvs| && kvs[i].key == k }

  /** What the first `n` of these tasks emitted, in the order of tasks. */
  ghost function Together(outs: seq<seq<KeyValue>>, n: nat): (kvs: seq<KeyValue>)
    requires n <= |outs|
  {
    if n == 0 then [] else Together(outs, n - 1) + outs[n - 1]
  }

  /** Each key of `kvs` once, in order, with its values reduced. */
  ghost predicate Groups(out: seq<KeyValue>, kvs: seq<KeyValue>, reduceF: (string, seq<string>) -> string) {
    && (forall i, j :: 0 <= i < j < |out| ==> Before(out[i].key, out[j].key))
    && (forall k :: HasKey(out, k) <==> HasKey(kvs, k))
    && (forall i :: 0 <= i < |out| ==> out[i].value == reduceF(out[i].key, ValuesOf(kvs, out[i].key)))
  }

  // ---- the order of keys

  predicate Before(a: string, b: string) {
    if b == [] then false else if a == [] then true
    else if a[0] != b[0] then a[0] < b[0] else Before(a[1..], b[1..])
  }

  lemma {:induction false} BeforeTotal(a: string, b: string)
    ensures a == b || Before(a, b) || Before(b, a)
    ensures !(Before(a, b) && Before(b, a)) && !Before(a, a)
    decreases |a|
  {
    if a != [] {
      BeforeTotal(a[1..], if b == [] then [] else b[1..]);
      assert a == [a[0]] + a[1..];
      if b != [] {
        assert b == [b[0]] + b[1..];
      }
    }
  }

  /** The strings agree up to place `i` and differ there. */
  ghost predicate Differs(a: string, b: string, i: nat) {
    i < |a| && i < |b| && a[i] != b[i] && forall k :: 0 <= k < i ==> a[k] == b[k]
  }

  lemma DiffersTail(a: string, b: string, i: nat)
    requires a != [] && b != [] && a[0] == b[0]
    ensures Differs(a, b, i) <==> i > 0 && Differs(a[1..], b[1..], i - 1)
  {
    if i > 0 && Differs(a[1..], b[1..], i - 1) {
      forall k | 0 <= k < i ensures a[k] == b[k] {
        assert k > 0 ==> a[1..][k - 1] == b[1..][k - 1];
      }
    }
  }

  lemma PrefixTail(a: string, b: string)
    requires a != [] && b != [] && a[0] == b[0]
    ensures a < b <==> a[1..] < b[1..]
  {
    assert a == [a[0]] + a[1..] && b == [b[0]] + b[1..];
  }

  /** Some first character that differs is smaller in `a`. */
  ghost predicate SmallerAt(a: string, b: string) { exists i: nat :: Differs(a, b, i) && a[i] < b[i] }

  lemma SmallerTail(a: string, b: string)
    requires a != [] && b != [] && a[0] == b[0]
    ensures SmallerAt(a, b) <==> SmallerAt(a[1..], b[1..])
  {
    if i: nat :| Differs(a, b, i) && a[i] < b[i] {
      DiffersTail(a, b, i);
    }
    if i: nat :| Differs(a[1..], b[1..], i) && a[1..][i] < b[1..][i] {
      DiffersTail(a, b, i + 1);
    }
  }

  /** Lexicographic order: a proper prefix comes first, and so does the smaller of the first characters that differ. */
  lemma {:induction false} BeforeMeans(a: string, b: string)
    ensures Before(a, b) <==> a < b || SmallerAt(a, b)
    decreases |a|
  {
    if a != [] && b != [] {
      if a[0] == b[0] {
        hide SmallerAt;
        BeforeMeans(a[1..], b[1..]);
        PrefixTail(a, b);
        SmallerTail(a, b);
      } else {
        assert Differs(a, b, 0);
      }
    }
  }

  lemma {:induction false} BeforeTransitive(a: string, b: string, c: string)
    requires Before(a, b) && Before(b, c)
    ensures Before(a, c)
    decreases |a|
  {
    if a != [] && a[0] == b[0] == c[0] {
      BeforeTransitive(a[1..], b[1..], c[1..]);
    }
  }

  ghost predicate Sorted(keys: seq<string>) { forall i, j :: 0 <= i < j < |keys| ==> Before(keys[i], keys[j]) }

  function Insert(keys: seq<string>, k: string): (r: seq<string>) {
    if keys == [] || Before(k, keys[0]) then [k] + keys else [keys[0]] + Insert(keys[1..], k)
  }

  lemma {:induction false} InsertSorted(keys: seq<string>, k: string)
    requires Sorted(keys) && k !in keys
    ensures Sorted(Insert(keys, k)) && forall x :: x in Insert(keys, k) <==> x in keys || x == k
  {
    if keys != [] {
      BeforeTotal(k, keys[0]);
      assert keys == [keys[0]] + keys[1..];
      if Before(k, keys[0]) {
        forall j | 0 <= j < |keys| ensures Before(k, keys[j]) {
          if j > 0 {
            BeforeTransitive(k, keys[0], keys[j]);
          }
        }
      } else {
        InsertSorted(keys[1..], k);
        forall x | x in Insert(keys[1..], k) ensures Before(keys[0], x) {
          if x != k {
            var j :| 0 <= j < |keys[1..]| && keys[1..][j] == x;
            assert x == keys[j + 1];
          }
        }
      }
    }
  }

  /** The keys of a map, sorted. */
  method SortedKeys(keys: set<string>) returns (sorted: seq<string>)
    ensures Sorted(sorted) && forall x :: x in sorted <==> x in keys
  {
    sorted := [];
    var todo := keys;
    while todo != {}
      invariant todo <= keys && Sorted(sorted) && forall x :: x in sorted <==> x in keys && x !in todo
      decreases |todo|
    {
      var k :| k in todo;
      InsertSorted(sorted, k);
      sorted := Insert(sorted, k);
      todo := todo - {k};
    }
  }

  // ---- map tasks

  /** The reduce task of a key. */
  function TaskOf(k: string, nReduce: nat, ihash: string -> nat): (r: nat)
    requires nReduce > 0
    ensures r < nReduce
  {
    ihash(k) % nReduce
  }

  /** The pairs that go to reduce task `r`. */
  function Part(kvs: seq<KeyValue>, r: nat, nReduce: nat, ihash: string -> nat): (p: seq<KeyValue>)
    requires nReduce > 0
  {
    if kvs == [] then [] else
    var kv := kvs[|kvs| - 1];
    Part(kvs[..|kvs| - 1], r, nReduce, ihash) + if TaskOf(kv.key, nReduce, ihash) == r then [kv] else []
  }

  lemma ValuesAppend(kvs: seq<KeyValue>, kv: KeyValue, k: string)
    ensures ValuesOf(kvs + [kv], k) == ValuesOf(kvs, k) + if kv.key == k then [kv.value] else []
  {
    assert (kvs + [kv])[..|kvs|] == kvs;
  }

  /** A pair goes to the reduce task given by its hash. */
  lemma {:induction false} PartMembers(kvs: seq<KeyValue>, r: nat, nReduce: nat, ihash: string -> nat, kv: KeyValue)
    requires nReduce > 0
    ensures kv in Part(kvs, r, nReduce, ihash) <==> kv in kvs && ihash(kv.key) % nReduce == r
  {
    if kvs != [] {
      PartMembers(kvs[..|kvs| - 1], r, nReduce, ihash, kv);
      assert kvs == kvs[..|kvs| - 1] + [kvs[|kvs| - 1]];
    }
  }

  /** All values of a key go there, in their order. */
  lemma {:induction false} PartValues(kvs: seq<KeyValue>, r: nat, nReduce: nat, ihash: string -> nat, k: string)
    requires nReduce > 0 && ihash(k) % nReduce == r
    ensures ValuesOf(Part(kvs, r, nReduce, ihash), k) == ValuesOf(kvs, k)
  {
    if kvs != [] {
      var front, last := kvs[..|kvs| - 1], kvs[|kvs| - 1];
      PartValues(front, r, nReduce, ihash, k);
      hide ValuesOf;
      assert kvs == front + [last];
      ValuesAppend(front, last, k);
      ValuesAppend(Part(front, r, nReduce, ihash), last, k);
      assert Part(front, r, nReduce, ihash) + [] == Part(front, r, nReduce, ihash);
    }
  }

  /** One pair is appended to the file of its reduce task. */
  function Emit(files: Files, m: nat, kv: KeyValue, nReduce: nat, ihash: string -> nat): (r: Files)
    requires nReduce > 0
  {
    var r := TaskOf(kv.key, nReduce, ihash);
    files[(m, r) := Contents(files, m, r) + [kv]]
  }

  lemma EmitPart(files: Files, m: nat, kvs: seq<KeyValue>, n: nat, nReduce: nat, ihash: string -> nat, m': nat, r': nat)
    requires nReduce > 0 && n < |kvs|
    ensures Contents(Emit(files, m, kvs[n], nReduce, ihash), m', r') ==
      Contents(files, m', r') + if m' == m && TaskOf(kvs[n].key, nReduce, ihash) == r' then [kvs[n]] else []
    ensures Part(kvs[..n + 1], r', nReduce, ihash) ==
      Part(kvs[..n], r', nReduce, ihash) + if TaskOf(kvs[n].key, nReduce, ihash) == r' then [kvs[n]] else []
  {
    assert kvs[..n + 1][..n] == kvs[..n];
  }

  /** To the files of map task `m`, and to no others, the parts of `kvs` have been added. */
  ghost predicate AddedTo(files: Files, out: Files, m: nat, kvs: seq<KeyValue>, nReduce: nat, ihash: string -> nat)
    requires nReduce > 0
  {
    forall m', r' :: Contents(out, m', r') ==
      Contents(files, m', r') + (if m' == m then Part(kvs, r', nReduce, ihash) else [])
  }

  lemma AddedNone(files: Files, m: nat, nReduce: nat, ihash: string -> nat)
    requires nReduce > 0
    ensures AddedTo(files, files, m, [], nReduce, ihash)
  {
    hide Contents;
  }

  lemma AddedNext(files: Files, out: Files, m: nat, kvs: seq<KeyValue>, n: nat, nReduce: nat, ihash: string -> nat)
    requires nReduce > 0 && n < |kvs| && AddedTo(files, out, m, kvs[..n], nReduce, ihash)
    ensures AddedTo(files, Emit(out, m, kvs[n], nReduce, ihash), m, kvs[..n + 1], nReduce, ihash)
  {
    hide Contents, Part, Emit, TaskOf;
    var out' := Emit(out, m, kvs[n], nReduce, ihash);
    forall m', r' ensures Contents(out', m', r') ==
        Contents(files, m', r') + (if m' == m then Part(kvs[..n + 1], r', nReduce, ihash) else []) {
      EmitPart(out, m, kvs, n, nReduce, ihash, m', r');
    }
  }

  /** The map task: `res` is what mapF returned. */
  method DoMap(files: Files, m: nat, res: seq<KeyValue>, nReduce: nat, ihash: string -> nat) returns (out: Files)
    requires nReduce > 0
    ensures AddedTo(files, out, m, res, nReduce, ihash)
  {
    hide AddedTo;
    out := files;
    AddedNone(files, m, nReduce, ihash);
    assert res[..0] == [];
    for i := 0 to |res|
      invariant AddedTo(files, out, m, res[..i], nReduce, ihash)
    {
      AddedNext(files, out, m, res, i, nReduce, ihash);
      out := Emit(out, m, res[i], nReduce, ihash);
    }
    assert res[..|res|] == res;
  }

  // ---- reduce tasks

  /** The input of reduce task `r`: its files of the first `n` map tasks, in order. */
  ghost function Column(files: Files, r: nat, n: nat): (kvs: seq<KeyValue>) {
    if n == 0 then [] else Column(files, r, n - 1) + Contents(files, n - 1, r)
  }

  /** `groups` holds the keys of `kvs`, each with its values in order. */
  ghost predicate Grouped(groups: map<string, seq<string>>, kvs: seq<KeyValue>) {
    forall k :: (k in groups <==> HasKey(kvs, k)) && (k in groups ==> groups[k] == ValuesOf(kvs, k))
  }

  lemma {:induction false} NoValues(kvs: seq<KeyValue>, k: string)
    ensures !HasKey(kvs, k) <==> ValuesOf(kvs, k) == []
  {
    if kvs != [] {
      var n := |kvs| - 1;
      NoValues(kvs[..n], k);
      assert kvs[n].key == k || !HasKey(kvs[..n], k) ==> (HasKey(kvs, k) <==> kvs[n].key == k);
      if HasKey(kvs[..n], k) {
        var i :| 0 <= i < n && kvs[..n][i].key == k;
        assert kvs[i].key == k;
      }
    }
  }

  lemma GroupedNext(groups: map<string, seq<string>>, kvs: seq<KeyValue>, kv: KeyValue)
    requires Grouped(groups, kvs)
    ensures Grouped(groups[kv.key := (if kv.key in groups then groups[kv.key] else []) + [kv.value]], kvs + [kv])
  {
    var kvs' := kvs + [kv];
    assert kvs'[..|kvs|] == kvs;
    forall k ensures HasKey(kvs', k) <==> HasKey(kvs, k) || k == kv.key {
      if HasKey(kvs, k) {
        var i :| 0 <= i < |kvs| && kvs[i].key == k;
        assert kvs'[i].key == k;
      }
      assert kvs'[|kvs|].key == kv.key;
      if HasKey(kvs', k) {
        var i :| 0 <= i < |kvs'| && kvs'[i].key == k;
        assert i < |kvs| ==> kvs[i].key == k;
      }
    }
    NoValues(kvs, kv.key);
  }

  /** Adds the pairs of one file to the groups. */
  method AddFile(was: map<string, seq<string>>, ghost done: seq<KeyValue>, file: seq<KeyValue>)
    returns (groups: map<string, seq<string>>)
    requires Grouped(was, done)
    ensures Grouped(groups, done + file)
  {
    groups := was;
    assert done + file[..0] == done;
    for i := 0 to |file|
      invariant Grouped(groups, done + file[..i])
    {
      hide Grouped;
      var kv := file[i];
      GroupedNext(groups, done + file[..i], kv);
      groups := groups[kv.key := (if kv.key in groups then groups[kv.key] else []) + [kv.value]];
      assert done + file[..i] + [kv] == done + file[..i + 1];
    }
    assert file[..|file|] == file;
  }

  method DoReduce(files: Files, r: nat, nMap: nat, reduceF: (string, seq<string>) -> string)
    returns (out: seq<KeyValue>)
    ensures Groups(out, Column(files, r, nMap), reduceF)
  {
    var groups: map<string, seq<string>> := map[];
    for m := 0 to nMap
      invariant Grouped(groups, Column(files, r, m))
    {
      hide Grouped;
      groups := AddFile(groups, Column(files, r, m), Contents(files, m, r));
    }
    var keys := SortedKeys(groups.Keys);
    out := [];
    for i := 0 to |keys|
      invariant |out| == i && forall j :: 0 <= j < i ==> out[j] == KeyValue(keys[j], reduceF(keys[j], groups[keys[j]]))
    {
      assert keys[i] in groups;
      out := out + [KeyValue(keys[i], reduceF(keys[i], groups[keys[i]]))];
    }
    OutputGroups(out, keys, groups, Column(files, r, nMap), reduceF);
  }

  lemma OutputGroups(out: seq<KeyValue>, keys: seq<string>, groups: map<string, seq<string>>, kvs: seq<KeyValue>,
                     reduceF: (string, seq<string>) -> string)
    requires Sorted(keys) && Grouped(groups, kvs) && (forall k :: k in keys <==> k in groups) && |out| == |keys|
    requires forall j :: 0 <= j < |keys| ==>
      keys[j] in groups && out[j] == KeyValue(keys[j], reduceF(keys[j], groups[keys[j]]))
    ensures Groups(out, kvs, reduceF)
  {
    hide ValuesOf;
    forall k ensures HasKey(out, k) <==> k in groups {
      if k in groups {
        assert k in keys;
        var j :| 0 <= j < |keys| && keys[j] == k;
        assert out[j].key == k;
      }
      if HasKey(out, k) {
        var j :| 0 <= j < |out| && out[j].key == k;
        assert keys[j] == k;
      }
    }
  }

  // ---- merging

  /** The value that the last pair with key `k` has. */
  ghost function LastOf(kvs: seq<KeyValue>, k: string): (v: string)
    requires HasKey(kvs, k)
  {
    if kvs[|kvs| - 1].key == k then kvs[|kvs| - 1].value else
    assert HasKey(kvs[..|kvs| - 1], k) by {
      var i :| 0 <= i < |kvs| && kvs[i].key == k;
      assert kvs[..|kvs| - 1][i].key == k;
    }
    LastOf(kvs[..|kvs| - 1], k)
  }

  ghost predicate Latest(merged: map<string, string>, kvs: seq<KeyValue>) {
    forall k :: (k in merged <==> HasKey(kvs, k)) && (k in merged ==> merged[k] == LastOf(kvs, k))
  }

  lemma LatestNext(merged: map<string, string>, kvs: seq<KeyValue>, kv: KeyValue)
    requires Latest(merged, kvs)
    ensures Latest(merged[kv.key := kv.value], kvs + [kv])
  {
    var kvs' := kvs + [kv];
    assert kvs'[..|kvs|] == kvs;
    forall k ensures HasKey(kvs', k) <==> HasKey(kvs, k) || k == kv.key {
      if HasKey(kvs, k) {
        var i :| 0 <= i < |kvs| && kvs[i].key == k;
        assert kvs'[i].key == k;
      }
      assert kvs'[|kvs|].key == kv.key;
      if HasKey(kvs', k) {
        var i :| 0 <= i < |kvs'| && kvs'[i].key == k;
        assert i < |kvs| ==> kvs[i].key == k;
      }
    }
  }

  method MergeFile(was: map<string, string>, ghost done: seq<KeyValue>, file: seq<KeyValue>)
    returns (merged: map<string, string>)
    requires Latest(was, done)
    ensures Latest(merged, done + file)
  {
    merged := was;
    assert done + file[..0] == done;
    for i := 0 to |file|
      invariant Latest(merged, done + file[..i])
    {
      hide Latest;
      LatestNext(merged, done + file[..i], file[i]);
      merged := merged[file[i].key := file[i].value];
      assert done + file[..i] + [file[i]] == done + file[..i + 1];
    }
    assert file[..|file|] == file;
  }

  /** Each key of `kvs` once, in order, with the last of its values. */
  ghost predicate Merges(out: seq<KeyValue>, kvs: seq<KeyValue>) {
    && (forall i, j :: 0 <= i < j < |out| ==> Before(out[i].key, out[j].key))
    && (forall k :: HasKey(out, k) <==> HasKey(kvs, k))
    && (forall i :: 0 <= i < |out| ==> HasKey(kvs, out[i].key) && out[i].value == LastOf(kvs, out[i].key))
  }

  method Merge(outs: seq<seq<KeyValue>>) returns (out: seq<KeyValue>)
    ensures Merges(out, Together(outs, |outs|))
  {
    var merged: map<string, string> := map[];
    for i := 0 to |outs|
      invariant Latest(merged, Together(outs, i))
    {
      hide Latest;
      merged := MergeFile(merged, Together(outs, i), outs[i]);
    }
    var keys := SortedKeys(merged.Keys);
    out := [];
    for i := 0 to |keys|
      invariant |out| == i && forall j :: 0 <= j < i ==>
        keys[j] in merged && out[j] == KeyValue(keys[j], merged[keys[j]])
    {
      assert keys[i] in merged;
      out := out + [KeyValue(keys[i], merged[keys[i]])];
    }
    OutputMerges(out, keys, merged, Together(outs, |outs|));
  }

  lemma OutputMerges(out: seq<KeyValue>, keys: seq<string>, merged: map<string, string>, kvs: seq<KeyValue>)
    requires Sorted(keys) && Latest(merged, kvs) && (forall k :: k in keys <==> k in merged) && |out| == |keys|
    requires forall j :: 0 <= j < |keys| ==> keys[j] in merged && out[j] == KeyValue(keys[j], merged[keys[j]])
    ensures Merges(out, kvs)
  {
    hide LastOf;
    forall k ensures HasKey(out, k) <==> k in merged {
      if k in merged {
        assert k in keys;
        var j :| 0 <= j < |keys| && keys[j] == k;
        assert out[j].key == k;
      }
      if HasKey(out, k) {
        var j :| 0 <= j < |out| && out[j].key == k;
        assert keys[j] == k;
      }
    }
  }
}
