/**
  The key/value model of the checker, the partition of a history by key, and the
  fact behind it: a history over many keys is linearizable exactly when each
  key's part is.
 */
module KvModel {
  import opened Linearizability
  import Search

  /** The dynamically typed values of a key/value history. */
  datatype Value = KvInput(op: nat, key: string, value: string) | KvOutput(value: string)

  /** One key's value as the state: get, put or append. */
  function Step(state: string, input: Value, output: Value): (r: (bool, string)) {
    if !input.KvInput? || !output.KvOutput? then (false, state)
    else if input.op == 0 then (output.value == state, state)
    else if input.op == 1 then (true, input.value)
    else (true, state + input.value)
  }

  const SINGLE_KEY: Model<string, Value> := Model("", Step)

  // ---- the whole store

  function Lookup(store: map<string, string>, key: string): (v: string) {
    if key in store then store[key] else ""
  }

  function KeyOf(op: Op<Value>): (key: string) {
    if op.input.KvInput? then op.input.key else ""
  }

  function StoreStep(store: map<string, string>, input: Value, output: Value): (r: (bool, map<string, string>)) {
    var key := KeyOf(Op(input, output, 0, 0));
    var (ok, v) := Step(Lookup(store, key), input, output);
    (ok, store[key := v])
  }

  const STORE: Model<map<string, string>, Value> := Model(map[], StoreStep)

  /** The operations of `history` on `key`, in history order. */
  function OfKey(history: seq<Op<Value>>, key: string): (part: seq<Op<Value>>) {
    if history == [] then [] else
    var last := history[|history| - 1];
    OfKey(history[..|history| - 1], key) + (if KeyOf(last) == key then [last] else [])
  }

  // ---- orders of one key's operations, as positions in the whole history

  ghost function OnKey(history: seq<Op<Value>>, order: seq<nat>, key: string): (r: seq<nat>) {
    if order == [] then [] else
    var last := order[|order| - 1];
    OnKey(history, order[..|order| - 1], key) +
    (if last < |history| && KeyOf(history[last]) == key then [last] else [])
  }

  ghost predicate Distinct(order: seq<nat>) {
    forall j, k :: 0 <= j < k < |order| ==> order[j] != order[k]
  }

  /** `order` linearizes the operations on `key` against a single value. */
  ghost predicate KeyOrder(history: seq<Op<Value>>, key: string, order: seq<nat>) {
    && Orderly(history, order)
    && (forall i: nat :: i in order <==> i < |history| && KeyOf(history[i]) == key)
    && Accepted(SINGLE_KEY, history, order, "")
  }

  lemma {:induction false} OnKeyMembers(history: seq<Op<Value>>, order: seq<nat>, key: string)
    ensures forall i :: i in OnKey(history, order, key) <==> i in order && i < |history| && KeyOf(history[i]) == key
  {
    if order != [] {
      OnKeyMembers(history, order[..|order| - 1], key);
      assert order == order[..|order| - 1] + [order[|order| - 1]];
    }
  }

  /** Distinct operations, none before one that had returned when it was called. */
  ghost predicate Orderly(history: seq<Op<Value>>, order: seq<nat>) {
    Distinct(order) && RespectsRealTime(history, order)
  }

  ghost predicate MayFollow(history: seq<Op<Value>>, order: seq<nat>, x: nat) {
    x < |history| && forall i :: i in order ==> i < |history| && i != x && history[i].call <= history[x].ret
  }

  lemma OrderlyAppend(history: seq<Op<Value>>, order: seq<nat>, x: nat)
    ensures Orderly(history, order + [x]) <==> Orderly(history, order) && MayFollow(history, order, x)
  {
    var o := order + [x];
    assert forall k :: 0 <= k < |order| ==> o[k] == order[k] && order[k] in order;
    assert o[|order|] == x;
    if Orderly(history, o) {
      forall i | i in order ensures i < |history| && i != x && history[i].call <= history[x].ret {
        var k :| 0 <= k < |order| && order[k] == i;
        assert o[k] == i;
      }
    }
  }

  lemma {:induction false} OnKeyOrderly(history: seq<Op<Value>>, order: seq<nat>, key: string)
    requires Orderly(history, order)
    ensures Orderly(history, OnKey(history, order, key))
    decreases |order|
  {
    if order != [] {
      hide Orderly, OnKey;
      var front, x := order[..|order| - 1], order[|order| - 1];
      assert order == front + [x];
      OrderlyAppend(history, front, x);
      OnKeyOrderly(history, front, key);
      OnKeyMembers(history, front, key);
      OnKeyAppend(history, front, x, key);
      OrderlyAppend(history, OnKey(history, front, key), x);
    }
  }

  lemma {:induction false} AcceptedAppend<S, V>(m: Model<S, V>, ops: seq<Op<V>>, order: seq<nat>, x: nat, s: S)
    ensures Accepted(m, ops, order + [x], s) <==>
            Accepted(m, ops, order, s) && x < |ops| && m.step(After(m, ops, order, s), ops[x].input, ops[x].output).0
    ensures x < |ops| && Accepted(m, ops, order, s) ==>
            After(m, ops, order + [x], s) == m.step(After(m, ops, order, s), ops[x].input, ops[x].output).1
  {
    if order != [] {
      assert (order + [x])[1..] == order[1..] + [x];
      if order[0] < |ops| {
        AcceptedAppend(m, ops, order[1..], x, m.step(s, ops[order[0]].input, ops[order[0]].output).1);
      }
    } else {
      assert order + [x] == [x];
      assert (order + [x])[1..] == [];
    }
  }

  /** The state after running `order`. */
  ghost function After<S, V>(m: Model<S, V>, ops: seq<Op<V>>, order: seq<nat>, s: S): (r: S) {
    if order == [] || order[0] >= |ops| then s
    else After(m, ops, order[1..], m.step(s, ops[order[0]].input, ops[order[0]].output).1)
  }

  lemma OnKeyAppend(history: seq<Op<Value>>, front: seq<nat>, x: nat, key: string)
    requires x < |history|
    ensures OnKey(history, front + [x], key) ==
            if KeyOf(history[x]) == key then OnKey(history, front, key) + [x] else OnKey(history, front, key)
  {
    assert (front + [x])[..|front|] == front;
  }

  /** Running the store runs every key on its own. */
  lemma {:induction false} StoreToKey(history: seq<Op<Value>>, order: seq<nat>, key: string)
    requires Accepted(STORE, history, order, map[])
    ensures Accepted(SINGLE_KEY, history, OnKey(history, order, key), "")
    ensures Lookup(After(STORE, history, order, map[]), key) ==
      After(SINGLE_KEY, history, OnKey(history, order, key), "")
    decreases |order|
  {
    if order != [] {
      hide Accepted, After, OnKey;
      var front, x := order[..|order| - 1], order[|order| - 1];
      assert order == front + [x];
      AcceptedAppend(STORE, history, front, x, map[]);
      StoreToKey(history, front, key);
      OnKeyAppend(history, front, x, key);
      AcceptedAppend(SINGLE_KEY, history, OnKey(history, front, key), x, "");
    }
  }

  lemma {:induction false} KeysToStore(history: seq<Op<Value>>, order: seq<nat>)
    requires forall k :: 0 <= k < |order| ==> order[k] < |history|
    requires forall key :: Accepted(SINGLE_KEY, history, OnKey(history, order, key), "")
    ensures Accepted(STORE, history, order, map[])
    decreases |order|
  {
    if order != [] {
      hide Accepted, After, OnKey;
      var front, x := order[..|order| - 1], order[|order| - 1];
      assert order == front + [x];
      var own := KeyOf(history[x]);
      forall key ensures Accepted(SINGLE_KEY, history, OnKey(history, front, key), "") {
        assert Accepted(SINGLE_KEY, history, OnKey(history, order, key), "");
        OnKeyAppend(history, front, x, key);
        AcceptedAppend(SINGLE_KEY, history, OnKey(history, front, key), x, "");
      }
      KeysToStore(history, front);
      StoreToKey(history, front, own);
      assert Accepted(SINGLE_KEY, history, OnKey(history, order, own), "");
      OnKeyAppend(history, front, x, own);
      AcceptedAppend(SINGLE_KEY, history, OnKey(history, front, own), x, "");
      AcceptedAppend(STORE, history, front, x, map[]);
    }
  }

  // ---- merging one order per key into one order of everything

  ghost predicate Family(history: seq<Op<Value>>, f: map<string, seq<nat>>) {
    forall key :: key in f ==>
      Orderly(history, f[key]) && forall i :: i in f[key] ==> i < |history| && KeyOf(history[i]) == key
  }

  ghost function Members(history: seq<Op<Value>>, f: map<string, seq<nat>>): (r: set<nat>) {
    set i: nat | i < |history| && KeyOf(history[i]) in f && i in f[KeyOf(history[i])]
  }

  lemma InMembers(history: seq<Op<Value>>, f: map<string, seq<nat>>, key: string, k: nat)
    requires Family(history, f) && key in f && k < |f[key]|
    ensures f[key][k] in Members(history, f)
  {
    assert f[key][k] in f[key];
  }

  lemma NoMembers(history: seq<Op<Value>>, f: map<string, seq<nat>>)
    requires Family(history, f) && Members(history, f) == {}
    ensures forall key :: key in f ==> f[key] == []
  {
    hide Members;
    forall key | key in f && f[key] != [] ensures f[key][0] in Members(history, f) {
      InMembers(history, f, key, 0);
    }
  }

  lemma {:induction false} LatestCall(history: seq<Op<Value>>, s: set<nat>) returns (z: nat)
    requires s != {} && forall i :: i in s ==> i < |history|
    ensures z in s && forall i :: i in s ==> history[i].call <= history[z].call
  {
    var x :| x in s;
    z := x;
    if s != {x} {
      var y := LatestCall(history, s - {x});
      if history[x].call < history[y].call {
        z := y;
      }
    }
  }

  /** The operation called last belongs to some key, and that key's last operation
      can come after everything else: it had not returned at that call. */
  lemma LastOfKey(history: seq<Op<Value>>, f: map<string, seq<nat>>) returns (key: string)
    requires Family(history, f) && Members(history, f) != {}
    requires forall i :: 0 <= i < |history| ==> history[i].call <= history[i].ret
    ensures key in f && f[key] != []
    ensures forall i :: i in Members(history, f) ==> history[i].call <= history[f[key][|f[key]| - 1]].ret
  {
    var z := LatestCall(history, Members(history, f));
    key := KeyOf(history[z]);
    var k :| 0 <= k < |f[key]| && f[key][k] == z;
    assert f[key][|f[key]| - 1] in f[key];
  }

  lemma {:induction false} Merge(history: seq<Op<Value>>, f: map<string, seq<nat>>) returns (order: seq<nat>)
    requires Family(history, f)
    requires forall i :: 0 <= i < |history| ==> history[i].call <= history[i].ret
    ensures Orderly(history, order)
    ensures forall key :: OnKey(history, order, key) == if key in f then f[key] else []
    decreases |Members(history, f)|
  {
    if Members(history, f) == {} {
      order := [];
      NoMembers(history, f);
    } else {
      var own := LastOfKey(history, f);
      var n := |f[own]| - 1;
      var x := f[own][n];
      var f' := f[own := f[own][..n]];
      assert f[own] == f[own][..n] + [x];
      OrderlyAppend(history, f[own][..n], x);
      Smaller(history, f, own);
      hide Members, Orderly;
      var order' := Merge(history, f');
      MayComeLast(history, f, f', own, order');
      OrderlyAppend(history, order', x);
      order := order' + [x];
      hide OnKey;
      MergedOnKey(history, f, own, order');
    }
  }

  /** The last operation of `own` completes the orders of all keys. */
  lemma MergedOnKey(history: seq<Op<Value>>, f: map<string, seq<nat>>, own: string, order: seq<nat>)
    requires own in f && f[own] != []
    requires var n := |f[own]| - 1; f[own][n] < |history| && KeyOf(history[f[own][n]]) == own
    requires var f' := f[own := f[own][..|f[own]| - 1]];
      forall key :: OnKey(history, order, key) == if key in f' then f'[key] else []
    ensures var x := f[own][|f[own]| - 1];
      forall key :: OnKey(history, order + [x], key) == if key in f then f[key] else []
  {
    var n := |f[own]| - 1;
    var x := f[own][n];
    assert f[own] == f[own][..n] + [x];
    forall key ensures OnKey(history, order + [x], key) == if key in f then f[key] else [] {
      OnKeyAppend(history, order, x, key);
      hide OnKey;
    }
  }

  lemma Smaller(history: seq<Op<Value>>, f: map<string, seq<nat>>, own: string)
    requires Family(history, f) && own in f && f[own] != []
    ensures var n := |f[own]| - 1; var f' := f[own := f[own][..n]];
      && Family(history, f') && f[own][n] < |history| && KeyOf(history[f[own][n]]) == own
      && f[own][n] !in Members(history, f') && Members(history, f') <= Members(history, f)
      && |Members(history, f')| < |Members(history, f)|
  {
    var n := |f[own]| - 1;
    var x := f[own][n];
    var f' := f[own := f[own][..n]];
    assert x in f[own] && x !in f[own][..n];
    assert f[own] == f[own][..n] + [x];
    OrderlyAppend(history, f[own][..n], x);
    assert Members(history, f') <= Members(history, f) - {x};
    Search.SubsetSize(Members(history, f'), Members(history, f) - {x});
  }

  lemma MayComeLast(history: seq<Op<Value>>, f: map<string, seq<nat>>, f': map<string, seq<nat>>, own: string,
                    order: seq<nat>)
    requires own in f && f[own] != [] && f' == f[own := f[own][..|f[own]| - 1]]
    requires Orderly(history, order)
    requires forall key :: OnKey(history, order, key) == if key in f' then f'[key] else []
    requires var x := f[own][|f[own]| - 1];
      && x < |history| && x !in Members(history, f') && Members(history, f') <= Members(history, f)
      && forall i :: i in Members(history, f) ==> history[i].call <= history[x].ret
    ensures MayFollow(history, order, f[own][|f[own]| - 1])
  {
    forall i | i in order ensures i < |history| && i in Members(history, f') {
      assert i < |history| by {
        var k :| 0 <= k < |order| && order[k] == i;
      }
      OnKeyMembers(history, order, KeyOf(history[i]));
      assert i in OnKey(history, order, KeyOf(history[i]));
    }
  }

  // ---- one key's part, with its own numbering

  /** Where the operations on `key` stand in the whole history. */
  ghost function Positions(history: seq<Op<Value>>, key: string): (r: seq<nat>)
    ensures |r| == |OfKey(history, key)|
  {
    if history == [] then [] else
    var n := |history| - 1;
    Positions(history[..n], key) + (if KeyOf(history[n]) == key then [n] else [])
  }

  /** `part` lists the operations of `history` at the distinct positions `p`. */
  ghost predicate Embeds(history: seq<Op<Value>>, part: seq<Op<Value>>, p: seq<nat>) {
    && |p| == |part| && Distinct(p)
    && (forall j :: 0 <= j < |p| ==> p[j] < |history| && part[j] == history[p[j]])
  }

  lemma {:induction false} PositionsAre(history: seq<Op<Value>>, key: string)
    ensures Embeds(history, OfKey(history, key), Positions(history, key))
    ensures forall i: nat :: i in Positions(history, key) <==> i < |history| && KeyOf(history[i]) == key
  {
    if history != [] {
      var n := |history| - 1;
      PositionsAre(history[..n], key);
    }
  }

  /** Positions in the part, read as positions in the whole history. */
  ghost function Globally(p: seq<nat>, o: seq<nat>): (r: seq<nat>)
    requires forall k :: 0 <= k < |o| ==> o[k] < |p|
    ensures |r| == |o| && forall k :: 0 <= k < |o| ==> r[k] == p[o[k]]
  {
    seq(|o|, k requires 0 <= k < |o| => p[o[k]])
  }

  lemma DistinctIndex(p: seq<nat>, j: nat, k: nat)
    requires Distinct(p) && j < |p| && k < |p|
    ensures p[j] == p[k] <==> j == k
  {
  }

  lemma {:induction false} AcceptedGlobally(history: seq<Op<Value>>, part: seq<Op<Value>>, p: seq<nat>, o: seq<nat>,
                                            s: string)
    requires Embeds(history, part, p) && forall k :: 0 <= k < |o| ==> o[k] < |p|
    ensures Accepted(SINGLE_KEY, part, o, s) == Accepted(SINGLE_KEY, history, Globally(p, o), s)
    decreases |o|
  {
    if o != [] {
      assert Globally(p, o)[1..] == Globally(p, o[1..]);
      AcceptedGlobally(history, part, p, o[1..], SINGLE_KEY.step(s, part[o[0]].input, part[o[0]].output).1);
    }
  }

  lemma OrderlyGlobally(history: seq<Op<Value>>, part: seq<Op<Value>>, p: seq<nat>, o: seq<nat>)
    requires Embeds(history, part, p) && forall k :: 0 <= k < |o| ==> o[k] < |p|
    ensures Orderly(part, o) == Orderly(history, Globally(p, o))
  {
    hide Embeds, Distinct, RespectsRealTime;
    DistinctGlobally(history, part, p, o);
    RespectsGlobally(history, part, p, o);
  }

  lemma DistinctGlobally(history: seq<Op<Value>>, part: seq<Op<Value>>, p: seq<nat>, o: seq<nat>)
    requires Embeds(history, part, p) && forall k :: 0 <= k < |o| ==> o[k] < |p|
    ensures Distinct(o) == Distinct(Globally(p, o))
  {
    forall j, k | 0 <= j < |o| && 0 <= k < |o| ensures o[j] == o[k] <==> Globally(p, o)[j] == Globally(p, o)[k] {
      DistinctIndex(p, o[j], o[k]);
    }
  }

  lemma RespectsGlobally(history: seq<Op<Value>>, part: seq<Op<Value>>, p: seq<nat>, o: seq<nat>)
    requires Embeds(history, part, p) && forall k :: 0 <= k < |o| ==> o[k] < |p|
    ensures RespectsRealTime(part, o) == RespectsRealTime(history, Globally(p, o))
  {
    assert forall k :: 0 <= k < |o| ==> part[o[k]] == history[Globally(p, o)[k]];
  }

  lemma InGlobally(history: seq<Op<Value>>, part: seq<Op<Value>>, p: seq<nat>, o: seq<nat>, j: nat)
    requires Embeds(history, part, p) && (forall k :: 0 <= k < |o| ==> o[k] < |p|) && j < |p|
    ensures j in o <==> p[j] in Globally(p, o)
  {
    var g := Globally(p, o);
    if j in o {
      var k :| 0 <= k < |o| && o[k] == j;
      assert g[k] == p[j];
    }
    if p[j] in g {
      var k :| 0 <= k < |g| && g[k] == p[j];
      DistinctIndex(p, o[k], j);
    }
  }

  lemma CoversGlobally(history: seq<Op<Value>>, part: seq<Op<Value>>, p: seq<nat>, o: seq<nat>)
    requires Embeds(history, part, p) && forall k :: 0 <= k < |o| ==> o[k] < |p|
    ensures (forall i: nat :: i in o <==> i < |p|) <==> (forall i: nat :: i in Globally(p, o) <==> i in p)
  {
    var g := Globally(p, o);
    forall j: nat | j < |p| ensures j in o <==> p[j] in g {
      InGlobally(history, part, p, o, j);
    }
    hide Embeds;
    forall i: nat | i in g ensures i in p {
      var k :| 0 <= k < |g| && g[k] == i;
      assert p[o[k]] in p;
    }
    forall i: nat | i in o ensures i < |p| {
      var k :| 0 <= k < |o| && o[k] == i;
    }
    if forall i: nat :: i in o <==> i < |p| {
      forall i: nat | i in p ensures i in g {
        var j :| 0 <= j < |p| && p[j] == i;
        assert j in o;
      }
    }
    if forall i: nat :: i in g <==> i in p {
      forall i: nat | i < |p| ensures i in o {
        assert p[i] in p;
      }
    }
  }

  lemma PartIsKeyOrder(history: seq<Op<Value>>, key: string, o: seq<nat>)
    requires forall k :: 0 <= k < |o| ==> o[k] < |OfKey(history, key)|
    ensures Completes(SINGLE_KEY, OfKey(history, key), {}, "", o) <==>
            KeyOrder(history, key, Globally(Positions(history, key), o))
  {
    hide Accepted, Globally, RespectsRealTime, Positions, OfKey, Embeds;
    var part, p := OfKey(history, key), Positions(history, key);
    PositionsAre(history, key);
    AcceptedGlobally(history, part, p, o, "");
    OrderlyGlobally(history, part, p, o);
    CoversGlobally(history, part, p, o);
  }

  lemma {:induction false} Locally(history: seq<Op<Value>>, key: string, g: seq<nat>) returns (o: seq<nat>)
    requires forall k :: 0 <= k < |g| ==> g[k] in Positions(history, key)
    ensures forall k :: 0 <= k < |o| ==> o[k] < |OfKey(history, key)|
    ensures g == Globally(Positions(history, key), o)
  {
    hide Positions, OfKey;
    var p := Positions(history, key);
    if g == [] {
      o := [];
    } else {
      var n := |g| - 1;
      var j: nat :| j < |p| && p[j] == g[n];
      o := Locally(history, key, g[..n]);
      o := o + [j];
    }
  }

  ghost predicate HasOrder(history: seq<Op<Value>>, key: string) {
    exists g :: KeyOrder(history, key, g)
  }

  /** A key's part is linearizable exactly when the key has an order in the whole history. */
  lemma PartLinearizable(history: seq<Op<Value>>, key: string)
    ensures Linearizable(SINGLE_KEY, OfKey(history, key)) <==> HasOrder(history, key)
  {
    hide OfKey, Positions, Globally;
    if Linearizable(SINGLE_KEY, OfKey(history, key)) {
      var o: seq<nat> :| Completes(SINGLE_KEY, OfKey(history, key), {}, "", o);
      assert forall k :: 0 <= k < |o| ==> o[k] in o && o[k] < |OfKey(history, key)|;
      PartIsKeyOrder(history, key, o);
    }
    if HasOrder(history, key) {
      var g :| KeyOrder(history, key, g);
      PositionsAre(history, key);
      assert forall k :: 0 <= k < |g| ==> g[k] in g;
      var o := Locally(history, key, g);
      PartIsKeyOrder(history, key, o);
    }
  }

  // ---- locality

  lemma WholeToKey(history: seq<Op<Value>>, key: string)
    requires Linearizable(STORE, history)
    ensures HasOrder(history, key)
  {
    var order: seq<nat> :| Completes(STORE, history, {}, map[], order);
    OnKeyOrderly(history, order, key);
    OnKeyMembers(history, order, key);
    StoreToKey(history, order, key);
    assert KeyOrder(history, key, OnKey(history, order, key));
  }

  ghost function KeysOf(history: seq<Op<Value>>): (r: set<string>) {
    set op | op in history :: KeyOf(op)
  }

  lemma KeysToWhole(history: seq<Op<Value>>)
    requires forall i :: 0 <= i < |history| ==> history[i].call <= history[i].ret
    requires forall key :: key in KeysOf(history) ==> HasOrder(history, key)
    ensures Linearizable(STORE, history)
  {
    var f := map key | key in KeysOf(history) :: (var g :| KeyOrder(history, key, g); g);
    var order := Merge(history, f);
    forall i: nat ensures i in order <==> i < |history| {
      if i < |history| {
        var key := KeyOf(history[i]);
        OnKeyMembers(history, order, key);
        assert key in f && i in f[key] && i in OnKey(history, order, key);
      }
    }
    forall key ensures Accepted(SINGLE_KEY, history, OnKey(history, order, key), "") {
      if key in f {
        assert KeyOrder(history, key, f[key]);
      }
    }
    KeysToStore(history, order);
    assert Completes(STORE, history, {}, map[], order);
  }

  /** Linearizability is local: the whole history against the store, or each part against one value. */
  lemma Locality(history: seq<Op<Value>>)
    requires forall i :: 0 <= i < |history| ==> history[i].call <= history[i].ret
    ensures Linearizable(STORE, history) <==>
            forall key :: key in KeysOf(history) ==> Linearizable(SINGLE_KEY, OfKey(history, key))
  {
    forall key ensures Linearizable(SINGLE_KEY, OfKey(history, key)) <==> HasOrder(history, key) {
      PartLinearizable(history, key);
    }
    hide Linearizable, HasOrder, OfKey;
    if Linearizable(STORE, history) {
      forall key ensures HasOrder(history, key) {
        WholeToKey(history, key);
      }
    }
    if forall key :: key in KeysOf(history) ==> Linearizable(SINGLE_KEY, OfKey(history, key)) {
      KeysToWhole(history);
    }
  }
}
