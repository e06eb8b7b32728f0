/**
  From a history of operations to the linked entry list of the search, and the
  check of a whole history, part by part.
 */
module CheckOperations {
  import opened Linearizability
  import opened EntryList
  import opened Checker
  import Bitset
  import Kv = KvModel
  import M = KvMeaning

  /** One end of an operation: its call or its return. */
  datatype Entry<+V> = Entry(isReturn: bool, value: V, id: nat, time: int)

  function CallOf<V>(history: seq<Op<V>>, i: nat): (e: Entry<V>)
    requires i < |history|
  {
    Entry(false, history[i].input, i, history[i].call)
  }

  function ReturnOf<V>(history: seq<Op<V>>, i: nat): (e: Entry<V>)
    requires i < |history|
  {
    Entry(true, history[i].output, i, history[i].ret)
  }

  /** `e` is one of the two entries of the operation it names. */
  ghost predicate Fits<V>(history: seq<Op<V>>, e: Entry<V>) {
    e.id < |history| && e == if e.isReturn then ReturnOf(history, e.id) else CallOf(history, e.id)
  }

  ghost predicate ByTime<V>(entries: seq<Entry<V>>) {
    forall j, k :: 0 <= j < k < |entries| ==> entries[j].time < entries[k].time
  }

  ghost predicate TimesDiffer<V>(entries: seq<Entry<V>>) {
    forall j, k :: 0 <= j < k < |entries| ==> entries[j].time != entries[k].time
  }

  /** The entries of exactly the first `n` operations. */
  ghost predicate Complete<V>(history: seq<Op<V>>, entries: seq<Entry<V>>, n: nat) {
    && n <= |history| && |entries| == 2 * n
    && (forall e :: e in entries ==> Fits(history, e) && e.id < n)
    && (forall i: nat :: i < n ==> CallOf(history, i) in entries && ReturnOf(history, i) in entries)
  }

  lemma CompleteStep<V>(history: seq<Op<V>>, entries: seq<Entry<V>>, n: nat)
    requires DistinctTimes(history) && n < |history| && Complete(history, entries, n) && TimesDiffer(entries)
    ensures Complete(history, entries + [CallOf(history, n), ReturnOf(history, n)], n + 1)
    ensures TimesDiffer(entries + [CallOf(history, n), ReturnOf(history, n)])
  {
    var entries' := entries + [CallOf(history, n), ReturnOf(history, n)];
    assert forall e :: e in entries' <==> e in entries || e == CallOf(history, n) || e == ReturnOf(history, n);
    forall k | 0 <= k < |entries| ensures entries[k].time != history[n].call && entries[k].time != history[n].ret {
      assert entries[k] in entries;
      assert Fits(history, entries[k]);
    }
  }

  method MakeEntries<V>(history: seq<Op<V>>) returns (entries: seq<Entry<V>>)
    requires DistinctTimes(history)
    ensures ByTime(entries) && Complete(history, entries, |history|)
  {
    entries := [];
    assert TimesDiffer(entries);
    hide DistinctTimes, TimesDiffer, ByTime;
    for id := 0 to |history|
      invariant Complete(history, entries, id) && TimesDiffer(entries)
    {
      hide Complete;
      CompleteStep(history, entries, id);
      entries := entries + [CallOf(history, id), ReturnOf(history, id)];
    }
    entries := SortByTime(entries);
  }

  lemma InsertByTime<V>(sorted: seq<Entry<V>>, x: Entry<V>, i: nat)
    requires ByTime(sorted) && i <= |sorted|
    requires forall k :: 0 <= k < i ==> sorted[k].time < x.time
    requires i < |sorted| ==> x.time < sorted[i].time
    ensures ByTime(sorted[..i] + [x] + sorted[i..])
    ensures forall e :: e in sorted[..i] + [x] + sorted[i..] <==> e in sorted || e == x
  {
    assert sorted == sorted[..i] + sorted[i..];
  }

  /** What sorting by time does to entries whose times are all different. */
  method SortByTime<V>(entries: seq<Entry<V>>) returns (sorted: seq<Entry<V>>)
    requires TimesDiffer(entries)
    ensures ByTime(sorted) && |sorted| == |entries| && forall e :: e in sorted <==> e in entries
  {
    sorted := [];
    assert ByTime(sorted);
    hide ByTime;
    for n := 0 to |entries|
      invariant ByTime(sorted) && |sorted| == n
      invariant forall e :: e in sorted <==> e in entries[..n]
    {
      var x := entries[n];
      var i := 0;
      while i < |sorted| && sorted[i].time < x.time
        invariant 0 <= i <= |sorted| && forall k :: 0 <= k < i ==> sorted[k].time < x.time
      {
        i := i + 1;
      }
      assert i < |sorted| ==> sorted[i] in entries[..n];
      InsertByTime(sorted, x, i);
      sorted := sorted[..i] + [x] + sorted[i..];
      assert entries[..n + 1] == entries[..n] + [x];
    }
    assert entries[..|entries|] == entries;
  }

  // ---- the linked list

  /** At time `at`, entry `e` of operation `e.id` happens. */
  ghost predicate Happens<V>(ops: seq<Op<V>>, e: Entry<V>, at: int) {
    e.id < |ops| && if e.isReturn then e.value == ops[e.id].output && at == ops[e.id].ret
                    else e.value == ops[e.id].input && at == ops[e.id].call
  }

  /** The entries, at increasing times `pos`, are the calls and returns of `ops`. */
  ghost predicate Paired<V>(ops: seq<Op<V>>, entries: seq<Entry<V>>, pos: seq<int>) {
    && |entries| == |pos| == 2 * |ops|
    && (forall j, k :: 0 <= j < k < |pos| ==> pos[j] < pos[k])
    && (forall k :: 0 <= k < |entries| ==> Happens(ops, entries[k], pos[k]))
    && (forall i: nat :: i < |ops| ==> Somewhere(entries, i, false) && Somewhere(entries, i, true))
  }

  ghost predicate Somewhere<V>(entries: seq<Entry<V>>, i: nat, isReturn: bool) {
    exists k :: 0 <= k < |entries| && entries[k].id == i && entries[k].isReturn == isReturn
  }

  ghost function IndexOf<V>(ops: seq<Op<V>>, entries: seq<Entry<V>>, pos: seq<int>, i: nat, isReturn: bool): (k: nat)
    requires Paired(ops, entries, pos) && i < |ops|
    ensures k < |entries| && entries[k].id == i && entries[k].isReturn == isReturn
  {
    assert Somewhere(entries, i, isReturn);
    var k: nat :| k < |entries| && entries[k].id == i && entries[k].isReturn == isReturn;
    k
  }

  /** Two entries of one operation: its call, then its return. */
  lemma SameOperation<V>(ops: seq<Op<V>>, entries: seq<Entry<V>>, pos: seq<int>, j: nat, k: nat)
    requires DistinctTimes(ops) && Paired(ops, entries, pos) && j < |entries| && k < |entries|
    requires entries[j].id == entries[k].id
    ensures entries[j].isReturn == entries[k].isReturn ==> j == k
    ensures entries[k].isReturn && !entries[j].isReturn ==> j < k
  {
    assert Happens(ops, entries[j], pos[j]) && Happens(ops, entries[k], pos[k]);
  }

  /** An operation's return is its last entry. */
  lemma NothingAfterReturn<V>(ops: seq<Op<V>>, entries: seq<Entry<V>>, pos: seq<int>, i: nat, k: nat)
    requires DistinctTimes(ops) && Paired(ops, entries, pos) && i < k < |entries|
    requires entries[i].isReturn
    ensures entries[k].id != entries[i].id
  {
    assert Happens(ops, entries[i], pos[i]) && Happens(ops, entries[k], pos[k]);
  }

  ghost predicate NodeFor<V>(n: Node<V>, e: Entry<V>, at: int) {
    n.id == e.id && n.value == e.value && n.pos == at && (e.isReturn ==> n.partner == null)
  }

  /** `n` is the node of entry `e`, and `mates` knows its return node. */
  ghost predicate Made<V>(n: Node<V>, e: Entry<V>, at: int, mates: map<nat, Node<V>>) {
    NodeFor(n, e, at) && e.id in mates && mates[e.id] == if e.isReturn then n else n.partner
  }

  /** The nodes made for the entries from `i` on. */
  ghost predicate Built<V>(xs: seq<Node<V>>, entries: seq<Entry<V>>, pos: seq<int>, i: nat, mates: map<nat, Node<V>>) {
    && i + |xs| == |entries| == |pos|
    && (forall k :: i <= k < |entries| ==> Made(xs[k - i], entries[k], pos[k], mates))
  }

  lemma BuiltStep<V>(ops: seq<Op<V>>, xs: seq<Node<V>>, entries: seq<Entry<V>>, pos: seq<int>, i: nat,
                     mates: map<nat, Node<V>>, n: Node<V>)
    requires DistinctTimes(ops) && Paired(ops, entries, pos) && i < |entries| && Built(xs, entries, pos, i + 1, mates)
    requires NodeFor(n, entries[i], pos[i])
    requires !entries[i].isReturn ==> entries[i].id in mates && n.partner == mates[entries[i].id]
    ensures Built([n] + xs, entries, pos, i, if entries[i].isReturn then mates[entries[i].id := n] else mates)
  {
    hide DistinctTimes, Paired, NodeFor;
    var mates' := if entries[i].isReturn then mates[entries[i].id := n] else mates;
    forall k | i <= k < |entries| ensures Made(([n] + xs)[k - i], entries[k], pos[k], mates') {
      if k > i {
        assert Made(xs[k - (i + 1)], entries[k], pos[k], mates);
        if entries[i].isReturn {
          NothingAfterReturn(ops, entries, pos, i, k);
        }
      }
    }
  }

  /** The return of a call still to be linked has been linked already. */
  lemma ReturnIsLater<V>(ops: seq<Op<V>>, xs: seq<Node<V>>, entries: seq<Entry<V>>, pos: seq<int>, i: nat,
                         mates: map<nat, Node<V>>)
    requires DistinctTimes(ops) && Paired(ops, entries, pos) && i < |entries| && Built(xs, entries, pos, i + 1, mates)
    requires !entries[i].isReturn
    ensures entries[i].id in mates
  {
    assert Happens(ops, entries[i], pos[i]);
    var k := IndexOf(ops, entries, pos, entries[i].id, true);
    SameOperation(ops, entries, pos, i, k);
  }

  /** Read off the finished list: the call node of each operation. */
  lemma BuiltLists<V>(ops: seq<Op<V>>, xs: seq<Node<V>>, entries: seq<Entry<V>>, pos: seq<int>,
                      mates: map<nat, Node<V>>)
    returns (c: seq<Node<V>>)
    requires DistinctTimes(ops) && Paired(ops, entries, pos) && Built(xs, entries, pos, 0, mates)
    ensures Entries(c, ops) && Lists(xs, c)
  {
    assert |xs| == |entries|;
    hide DistinctTimes, Built;
    c := seq(|ops|, i requires 0 <= i < |ops| => xs[IndexOf(ops, entries, pos, i, false)]);
    forall i | 0 <= i < |ops| ensures EntryOf(c[i], i, ops[i]) && c[i] in xs && c[i].partner in xs {
      CallNode(ops, xs, entries, pos, mates, i);
    }
    forall k | 0 <= k < |xs| ensures Open(xs[k], c, {}) && xs[k].pos == pos[k] {
      NodeIsOpen(ops, xs, entries, pos, mates, c, k);
    }
  }

  lemma CallNode<V>(ops: seq<Op<V>>, xs: seq<Node<V>>, entries: seq<Entry<V>>, pos: seq<int>,
                    mates: map<nat, Node<V>>, i: nat)
    requires DistinctTimes(ops) && Paired(ops, entries, pos) && Built(xs, entries, pos, 0, mates) && i < |ops|
    ensures var n := xs[IndexOf(ops, entries, pos, i, false)];
      EntryOf(n, i, ops[i]) && n in xs && n.partner == xs[IndexOf(ops, entries, pos, i, true)] && n.partner in xs
  {
    var j, k := IndexOf(ops, entries, pos, i, false), IndexOf(ops, entries, pos, i, true);
    assert Made(xs[j - 0], entries[j], pos[j], mates) && Made(xs[k - 0], entries[k], pos[k], mates);
    assert Happens(ops, entries[j], pos[j]) && Happens(ops, entries[k], pos[k]);
  }

  lemma NodeIsOpen<V>(ops: seq<Op<V>>, xs: seq<Node<V>>, entries: seq<Entry<V>>, pos: seq<int>,
                      mates: map<nat, Node<V>>,
                      c: seq<Node<V>>, k: nat)
    requires DistinctTimes(ops) && Paired(ops, entries, pos) && Built(xs, entries, pos, 0, mates) && k < |xs|
    requires |c| == |ops| && forall i :: 0 <= i < |ops| ==> c[i] == xs[IndexOf(ops, entries, pos, i, false)]
    ensures Open(xs[k], c, {}) && xs[k].pos == pos[k]
  {
    assert Made(xs[k - 0], entries[k], pos[k], mates) && Happens(ops, entries[k], pos[k]);
    var i := entries[k].id;
    CallNode(ops, xs, entries, pos, mates, i);
    SameOperation(ops, entries, pos, IndexOf(ops, entries, pos, i, entries[k].isReturn), k);
  }

  method MakeLinkedEntries<V>(entries: seq<Entry<V>>, ghost ops: seq<Op<V>>, ghost pos: seq<int>)
    returns (root: Node?<V>, ghost xs: seq<Node<V>>, ghost c: seq<Node<V>>)
    requires DistinctTimes(ops) && Paired(ops, entries, pos)
    ensures Linked(xs) && |xs| == 2 * |ops| && root == if xs == [] then null else xs[0]
    ensures Entries(c, ops) && Lists(xs, c)
    ensures forall k :: 0 <= k < |xs| ==> fresh(xs[k])
  {
    root, xs := null, [];
    var mates: map<nat, Node<V>> := map[];
    var i := |entries|;
    while i > 0
      invariant 0 <= i <= |entries| && Built(xs, entries, pos, i, mates)
      invariant Linked(xs) && root == if xs == [] then null else xs[0]
      invariant forall k :: 0 <= k < |xs| ==> fresh(xs[k])
    {
      hide *;
      i := i - 1;
      var elem := entries[i];
      var entry: Node<V>;
      if elem.isReturn {
        entry := new Node(elem.value, null, elem.id, pos[i]);
        NodeMade(entry, elem, pos[i]);
        BuiltStep(ops, xs, entries, pos, i, mates, entry);
        mates := mates[elem.id := entry];
      } else {
        ReturnIsLater(ops, xs, entries, pos, i, mates);
        entry := new Node(elem.value, mates[elem.id], elem.id, pos[i]);
        NodeMade(entry, elem, pos[i]);
        BuiltStep(ops, xs, entries, pos, i, mates, entry);
      }
      InsertBefore(entry, root, xs, 0);
      assert xs[..0] + [entry] + xs[0..] == [entry] + xs;
      root, xs := entry, [entry] + xs;
    }
    c := BuiltLists(ops, xs, entries, pos, mates);
  }

  lemma NodeMade<V>(n: Node<V>, e: Entry<V>, at: int)
    requires n.id == e.id && n.value == e.value && n.pos == at && (e.isReturn ==> n.partner == null)
    ensures NodeFor(n, e, at)
  {
  }

  lemma CompleteIsPaired<V>(history: seq<Op<V>>, entries: seq<Entry<V>>, pos: seq<int>)
    requires ByTime(entries) && Complete(history, entries, |history|)
    requires |pos| == |entries| && forall k :: 0 <= k < |entries| ==> pos[k] == entries[k].time
    ensures Paired(history, entries, pos)
  {
    forall k | 0 <= k < |entries| ensures Happens(history, entries[k], pos[k]) {
      assert entries[k] in entries;
    }
    forall i: nat | i < |history| ensures Somewhere(entries, i, false) && Somewhere(entries, i, true) {
      assert CallOf(history, i) in entries && ReturnOf(history, i) in entries;
    }
  }

  /** Decides one part on its own. */
  method CheckPart<S(==), V(0)>(model: Model<S, V>, history: seq<Op<V>>, hash: seq<Bitset.Word> -> int)
    returns (ok: bool)
    requires DistinctTimes(history)
    ensures ok <==> Linearizable(model, history)
  {
    hide *;
    var entries := MakeEntries(history);
    ghost var pos := seq(|entries|, k requires 0 <= k < |entries| => entries[k].time);
    CompleteIsPaired(history, entries, pos);
    var l, xs, c := MakeLinkedEntries(entries, history, pos);
    ok := CheckSingle(model, l, hash, xs, c, history);
  }

  // ---- key/value histories

  /** `parts` are the keys' parts, each once; the order of a map's keys is arbitrary. */
  ghost predicate Partitions(history: seq<Op<Kv.Value>>, keys: seq<string>, parts: seq<seq<Op<Kv.Value>>>) {
    && |parts| == |keys|
    && (forall i, j :: 0 <= i < j < |keys| ==> keys[i] != keys[j])
    && (forall key :: key in keys <==> key in Kv.KeysOf(history))
    && (forall i :: 0 <= i < |keys| ==> parts[i] == Kv.OfKey(history, keys[i]))
  }

  lemma GroupStep(history: seq<Op<Kv.Value>>, n: nat, key: string)
    requires n < |history|
    ensures Kv.OfKey(history[..n + 1], key) ==
            Kv.OfKey(history[..n], key) + if Kv.KeyOf(history[n]) == key then [history[n]] else []
    ensures Kv.KeysOf(history[..n + 1]) == Kv.KeysOf(history[..n]) + {Kv.KeyOf(history[n])}
  {
    assert history[..n + 1] == history[..n] + [history[n]];
    assert history[..n + 1][..n] == history[..n];
  }

  /** `m` groups the first `n` operations. */
  ghost predicate Grouped(history: seq<Op<Kv.Value>>, n: nat, m: map<string, seq<Op<Kv.Value>>>)
    requires n <= |history|
  {
    && m.Keys == Kv.KeysOf(history[..n])
    && (forall key :: Kv.OfKey(history[..n], key) == if key in m then m[key] else [])
  }

  lemma GroupedStep(history: seq<Op<Kv.Value>>, n: nat, m: map<string, seq<Op<Kv.Value>>>)
    requires n < |history| && Grouped(history, n, m)
    ensures var own := Kv.KeyOf(history[n]);
      Grouped(history, n + 1, m[own := (if own in m then m[own] else []) + [history[n]]])
  {
    hide Kv.KeysOf, Kv.OfKey;
    forall key ensures Kv.OfKey(history[..n + 1], key) ==
      Kv.OfKey(history[..n], key) + if Kv.KeyOf(history[n]) == key then [history[n]] else []
    {
      GroupStep(history, n, key);
    }
    GroupStep(history, n, Kv.KeyOf(history[n]));
  }

  method GroupByKey(history: seq<Op<Kv.Value>>) returns (m: map<string, seq<Op<Kv.Value>>>)
    ensures m.Keys == Kv.KeysOf(history)
    ensures forall key :: key in m ==> m[key] == Kv.OfKey(history, key)
  {
    m := map[];
    assert Grouped(history, 0, m);
    for n := 0 to |history|
      invariant Grouped(history, n, m)
    {
      hide Grouped, Kv.OfKey;
      GroupedStep(history, n, m);
      var v := history[n];
      var key := Kv.KeyOf(v);
      m := m[key := (if key in m then m[key] else []) + [v]];
    }
    assert history[..|history|] == history;
  }

  method Partition(history: seq<Op<Kv.Value>>) returns (parts: seq<seq<Op<Kv.Value>>>, ghost keys: seq<string>)
    ensures Partitions(history, keys, parts)
    ensures exists keys :: Partitions(history, keys, parts)
  {
    hide Kv.KeysOf, Kv.OfKey;
    var m := GroupByKey(history);
    parts, keys := [], [];
    var left := m.Keys;
    while left != {}
      invariant |parts| == |keys| && left <= m.Keys
      invariant forall i, j :: 0 <= i < j < |keys| ==> keys[i] != keys[j]
      invariant forall key :: key in m <==> key in left || key in keys
      invariant forall i :: 0 <= i < |keys| ==> keys[i] !in left && parts[i] == Kv.OfKey(history, keys[i])
      decreases left
    {
      var key :| key in left;
      parts, keys, left := parts + [m[key]], keys + [key], left - {key};
    }
    assert Partitions(history, keys, parts);
  }

  lemma {:induction false} PartDistinct(history: seq<Op<Kv.Value>>, key: string)
    requires DistinctTimes(history)
    ensures DistinctTimes(Kv.OfKey(history, key))
  {
    Kv.PositionsAre(history, key);
    var part, p := Kv.OfKey(history, key), Kv.Positions(history, key);
    forall i: nat, j: nat | i < |part| && j < |part|
      ensures part[i].call != part[j].ret && (i < j ==> part[i].call != part[j].call && part[i].ret != part[j].ret)
    {
      assert i < j ==> p[i] != p[j];
      assert part[i] == history[p[i]] && part[j] == history[p[j]];
    }
  }

  /**
    The check of a key/value history without timeout. The parts are checked
    concurrently, so their answers arrive in any order; the first no ends it.
    An empty history has no parts, so no answer ever arrives: see ReceiveLoop.WholeCheck.
   */
  method CheckOperations(history: seq<Op<Kv.Value>>, hash: seq<Bitset.Word> -> int) returns (ok: bool)
    requires history != [] && DistinctTimes(history)
    ensures ok <==> Linearizable(Kv.STORE, history)
    ensures ok <==> M.Serializable(history)
  {
    hide Linearizable, Partitions, DistinctTimes, M.Serializable;
    M.LinearizableMeans(history);
    var parts, keys := Partition(history);
    AllParts(history, keys, parts);
    ok := true;
    var count, running := 0, parts;
    while true
      invariant ok && count + |running| == |parts| && |running| > 0
      invariant forall part :: part in running ==> part in parts
      invariant forall part :: part in parts ==> part in running || Linearizable(Kv.SINGLE_KEY, part)
      decreases |running|
    {
      var i :| 0 <= i < |running|;
      var result := CheckPart(Kv.SINGLE_KEY, running[i], hash);
      assert running == running[..i] + [running[i]] + running[i + 1..];
      running := running[..i] + running[i + 1..];
      ok := ok && result;
      if !ok {
        break;
      }
      count := count + 1;
      if count >= |parts| {
        break;
      }
    }
  }

  /** Checking every part decides the whole history. */
  lemma AllParts(history: seq<Op<Kv.Value>>, keys: seq<string>, parts: seq<seq<Op<Kv.Value>>>)
    requires history != [] && DistinctTimes(history) && Partitions(history, keys, parts)
    ensures parts != [] && forall part :: part in parts ==> DistinctTimes(part)
    ensures Linearizable(Kv.STORE, history) <==> forall part :: part in parts ==> Linearizable(Kv.SINGLE_KEY, part)
  {
    assert Kv.KeyOf(history[0]) in Kv.KeysOf(history);
    Kv.Locality(history);
    hide Linearizable, Kv.OfKey, Kv.KeysOf;
    forall part | part in parts ensures DistinctTimes(part) {
      var i :| 0 <= i < |parts| && parts[i] == part;
      PartDistinct(history, keys[i]);
    }
    if Linearizable(Kv.STORE, history) {
      forall part | part in parts ensures Linearizable(Kv.SINGLE_KEY, part) {
        var i :| 0 <= i < |parts| && parts[i] == part;
        assert keys[i] in keys;
      }
    }
    if forall part :: part in parts ==> Linearizable(Kv.SINGLE_KEY, part) {
      forall key | key in Kv.KeysOf(history) ensures Linearizable(Kv.SINGLE_KEY, Kv.OfKey(history, key)) {
        var i :| 0 <= i < |keys| && keys[i] == key;
        assert parts[i] in parts;
      }
    }
  }
}
