/**
  The question the checker answers: is a history of overlapping operations
  explained by some sequential order of the same operations?
 */
module Linearizability {

  /** A sequential specification: an initial state and a step that says whether
      an input may produce an output, and which state follows. */
  datatype Model<!S, !V> = Model(init: S, step: (S, V, V) -> (bool, S))

  /** One completed operation; `call` and `ret` are its invocation and response times. */
  datatype Op<+V> = Op(input: V, output: V, call: int, ret: int)

  /** Event times are pairwise distinct and every call precedes its return. */
  ghost predicate DistinctTimes<V>(ops: seq<Op<V>>) {
    && (forall i: nat, j: nat :: i < |ops| && j < |ops| ==> ops[i].call != ops[j].ret)
    && (forall i: nat, j: nat :: i < j < |ops| ==> ops[i].call != ops[j].call && ops[i].ret != ops[j].ret)
    && (forall i: nat :: i < |ops| ==> ops[i].call < ops[i].ret)
  }

  /** `order` lists distinct operations, and exactly those outside `done`. */
  ghost predicate Covers(n: nat, done: set<nat>, order: seq<nat>) {
    && (forall j, k :: 0 <= j < k < |order| ==> order[j] != order[k])
    && (forall i: nat :: i in order <==> i < n && i !in done)
  }

  /** No operation is placed before one that had returned when it was called. */
  ghost predicate RespectsRealTime<V>(ops: seq<Op<V>>, order: seq<nat>) {
    && (forall k :: 0 <= k < |order| ==> order[k] < |ops|)
    && (forall j, k :: 0 <= j < k < |order| ==> ops[order[j]].call <= ops[order[k]].ret)
  }

  /** Running the operations of `order` in turn from `s` is allowed by the model. */
  ghost predicate Accepted<S, V>(m: Model<S, V>, ops: seq<Op<V>>, order: seq<nat>, s: S) {
    order == [] ||
    (order[0] < |ops| &&
     var (ok, s') := m.step(s, ops[order[0]].input, ops[order[0]].output);
     ok && Accepted(m, ops, order[1..], s'))
  }

  /** `order` linearizes what remains after `done`, starting from state `s`. */
  ghost predicate Completes<S, V>(m: Model<S, V>, ops: seq<Op<V>>, done: set<nat>, s: S, order: seq<nat>) {
    Covers(|ops|, done, order) && RespectsRealTime(ops, order) && Accepted(m, ops, order, s)
  }

  ghost predicate Completable<S, V>(m: Model<S, V>, ops: seq<Op<V>>, done: set<nat>, s: S) {
    exists order: seq<nat> :: Completes(m, ops, done, s, order)
  }

  ghost predicate Linearizable<S, V>(m: Model<S, V>, ops: seq<Op<V>>) {
    Completable(m, ops, {}, m.init)
  }
}

/**
  The backtracking search, on values: which operations are linearized, in which
  states, what is cached, and how far each level has scanned its entry list.
 */
module Search {
  import opened Linearizability

  /** Operation `i` may come next: it is open, and nothing open returned before its call. */
  ghost predicate Minimal<V>(ops: seq<Op<V>>, done: set<nat>, i: nat) {
    && i < |ops| && i !in done
    && (forall j: nat :: j < |ops| && j !in done ==> ops[i].call <= ops[j].ret)
  }

  ghost function Next<S, V>(m: Model<S, V>, ops: seq<Op<V>>, s: S, i: nat): (r: (bool, S))
    requires i < |ops|
  {
    m.step(s, ops[i].input, ops[i].output)
  }

  /** Choosing `i` first leads nowhere. */
  ghost predicate Failed<S, V>(m: Model<S, V>, ops: seq<Op<V>>, done: set<nat>, s: S, i: nat)
    requires i < |ops|
  {
    Next(m, ops, s, i).0 ==> !Completable(m, ops, done + {i}, Next(m, ops, s, i).1)
  }

  lemma CompleteWhenAllDone<S, V>(m: Model<S, V>, ops: seq<Op<V>>, done: set<nat>, s: S)
    requires forall i: nat :: i < |ops| ==> i in done
    ensures Completable(m, ops, done, s)
  {
    assert Completes(m, ops, done, s, []);
  }

  lemma CompleteByStep<S, V>(m: Model<S, V>, ops: seq<Op<V>>, done: set<nat>, s: S, i: nat)
    requires Minimal(ops, done, i)
    requires Next(m, ops, s, i).0
    requires Completable(m, ops, done + {i}, Next(m, ops, s, i).1)
    ensures Completable(m, ops, done, s)
  {
    hide Covers;
    var rest :| Completes(m, ops, done + {i}, Next(m, ops, s, i).1, rest);
    var order := [i] + rest;
    assert order[1..] == rest;
    CoversCons(|ops|, done, i, rest);
    CoveredAreOpen(|ops|, done + {i}, rest);
    assert Completes(m, ops, done, s, order);
  }

  /** Conversely some minimal operation has to come first. */
  lemma CompletionHasFirst<S, V>(m: Model<S, V>, ops: seq<Op<V>>, done: set<nat>, s: S) returns (i: nat)
    requires Completable(m, ops, done, s)
    requires exists j: nat :: j < |ops| && j !in done
    requires forall j: nat :: j < |ops| ==> ops[j].call <= ops[j].ret
    ensures Minimal(ops, done, i) && !Failed(m, ops, done, s, i)
  {
    var order :| Completes(m, ops, done, s, order);
    var j: nat :| j < |ops| && j !in done;
    assert j in order;
    i := order[0];
    forall j: nat | j < |ops| && j !in done ensures ops[i].call <= ops[j].ret {
      assert j in order;
      var k :| 0 <= k < |order| && order[k] == j;
    }
    CoversTail(|ops|, done, order);
    assert Completes(m, ops, done + {i}, Next(m, ops, s, i).1, order[1..]);
  }

  lemma CoveredAreOpen(n: nat, done: set<nat>, order: seq<nat>)
    requires Covers(n, done, order)
    ensures forall k :: 0 <= k < |order| ==> order[k] < n && order[k] !in done
  {
    assert forall k :: 0 <= k < |order| ==> order[k] in order;
  }

  lemma CoversCons(n: nat, done: set<nat>, i: nat, rest: seq<nat>)
    requires Covers(n, done + {i}, rest) && i < n && i !in done
    ensures Covers(n, done, [i] + rest)
  {
    forall j: nat ensures j in [i] + rest <==> j < n && j !in done {
      assert j in [i] + rest <==> j == i || j in rest;
    }
    assert i !in rest;
  }

  lemma CoversTail(n: nat, done: set<nat>, order: seq<nat>)
    requires Covers(n, done, order) && order != []
    ensures order[0] in order && Covers(n, done + {order[0]}, order[1..])
  {
    forall j: nat ensures j in order[1..] <==> j < n && j !in done + {order[0]} {
      assert j in order <==> j == order[0] || j in order[1..];
    }
  }

  ghost function Elems(ids: seq<nat>): (r: set<nat>) { set i | i in ids }

  /** A level whose scan has reached time `bound`: no open return lies before it,
      and every open call before it has been tried in vain. */
  ghost predicate Scanned<S, V>(m: Model<S, V>, ops: seq<Op<V>>, done: set<nat>, s: S, bound: int) {
    forall i: nat :: i < |ops| && i !in done ==>
      bound <= ops[i].ret && (ops[i].call < bound ==> Failed(m, ops, done, s, i))
  }

  /** Every pair of a linearized set and a state reachable in at most `k` steps. */
  ghost function Universe<S, V>(m: Model<S, V>, ops: seq<Op<V>>, k: nat): (u: set<(set<nat>, S)>) {
    if k == 0 then {({}, m.init)} else Universe(m, ops, k - 1) + Successors(m, ops, Universe(m, ops, k - 1))
  }

  ghost function Successors<S, V>(m: Model<S, V>, ops: seq<Op<V>>, u: set<(set<nat>, S)>): (r: set<(set<nat>, S)>) {
    set p, i: nat | p in u && i < |ops| && Next(m, ops, p.1, i).0 :: (p.0 + {i}, Next(m, ops, p.1, i).1)
  }

  /** Level `k` of the stack: what is linearized there. */
  ghost function Done(ids: seq<nat>, k: nat): (r: set<nat>)
    requires k <= |ids|
  {
    Elems(ids[..k])
  }

  /** The stack is a legal partial linearization, each level scanned up to its choice. */
  ghost predicate Path<S, V>(m: Model<S, V>, ops: seq<Op<V>>, ids: seq<nat>, states: seq<S>) {
    && |states| == |ids| + 1 && states[0] == m.init
    && (forall k :: 0 <= k < |ids| ==> Level(m, ops, ids, states, k))
  }

  /** The choice made at level `k` was open to it, and everything before it had failed. */
  ghost predicate Level<S, V>(m: Model<S, V>, ops: seq<Op<V>>, ids: seq<nat>, states: seq<S>, k: nat)
    requires k < |ids| && |states| == |ids| + 1
  {
    && Minimal(ops, Done(ids, k), ids[k])
    && Next(m, ops, states[k], ids[k]) == (true, states[k + 1])
    && Scanned(m, ops, Done(ids, k), states[k], ops[ids[k]].call)
  }

  ghost predicate OnStack<S>(ids: seq<nat>, states: seq<S>, p: (set<nat>, S))
    requires |states| == |ids| + 1
  {
    exists k :: 1 <= k <= |ids| && p == (Done(ids, k), states[k])
  }

  /** A cached pair is either being explored right now or hopeless. */
  ghost predicate CacheSound<S, V>(m: Model<S, V>, ops: seq<Op<V>>, ids: seq<nat>, states: seq<S>,
                                   cache: set<(set<nat>, S)>)
    requires |states| == |ids| + 1
  {
    forall p :: p in cache ==> OnStack(ids, states, p) || !Completable(m, ops, p.0, p.1)
  }

  /** The invariant of the search loop, with `bound` the time of the current entry. */
  ghost predicate Searching<S, V>(m: Model<S, V>, ops: seq<Op<V>>, ids: seq<nat>, states: seq<S>,
                                  cache: set<(set<nat>, S)>, bound: int) {
    && Path(m, ops, ids, states)
    && CacheSound(m, ops, ids, states, cache)
    && Scanned(m, ops, Elems(ids), states[|ids|], bound)
    && cache <= Universe(m, ops, |ops|)
  }

  // ---- what each move of the loop keeps

  lemma DonePrefix(ids: seq<nat>, i: nat, k: nat)
    requires k <= |ids|
    ensures Done(ids + [i], k) == Done(ids, k)
    ensures Done(ids + [i], |ids| + 1) == Elems(ids) + {i}
    ensures Done(ids, |ids|) == Elems(ids)
  {
    assert (ids + [i])[..k] == ids[..k];
    assert (ids + [i])[..|ids| + 1] == ids + [i];
    assert ids[..|ids|] == ids;
  }

  /** Distinct choices: the linearized set grows by one at every level. */
  lemma {:induction false} DoneSize<S, V>(m: Model<S, V>, ops: seq<Op<V>>, ids: seq<nat>, states: seq<S>, k: nat)
    requires Path(m, ops, ids, states) && k <= |ids|
    ensures |Done(ids, k)| == k
    decreases k
  {
    if k > 0 {
      DoneSize(m, ops, ids, states, k - 1);
      assert ids[..k] == ids[..k - 1] + [ids[k - 1]];
      assert Done(ids, k) == Done(ids, k - 1) + {ids[k - 1]};
      assert Level(m, ops, ids, states, k - 1);
    }
  }

  /** A set of distinct operation numbers cannot outnumber the operations. */
  lemma DepthBound<S, V>(m: Model<S, V>, ops: seq<Op<V>>, ids: seq<nat>, states: seq<S>)
    requires Path(m, ops, ids, states)
    ensures |ids| <= |ops|
  {
    DoneSize(m, ops, ids, states, |ids|);
    assert ids[..|ids|] == ids;
    var all := Upto(|ops|);
    forall i | i in Elems(ids) ensures i in all {
      var k :| 0 <= k < |ids| && ids[k] == i;
      assert Level(m, ops, ids, states, k);
    }
    SubsetSize(Elems(ids), all);
  }

  ghost function Upto(n: nat): (r: set<nat>)
    ensures |r| == n && forall i: nat :: i in r <==> i < n
  {
    if n == 0 then {} else Upto(n - 1) + {n - 1}
  }

  lemma {:induction false} SubsetSize<T>(a: set<T>, b: set<T>)
    requires a <= b
    ensures |a| <= |b|
  {
    if a != {} {
      var x :| x in a;
      SubsetSize(a - {x}, b - {x});
    }
  }

  lemma {:induction false} UniverseGrows<S, V>(m: Model<S, V>, ops: seq<Op<V>>, j: nat, k: nat)
    requires j <= k
    ensures Universe(m, ops, j) <= Universe(m, ops, k)
    decreases k
  {
    hide Successors;
    if j < k {
      UniverseGrows(m, ops, j, k - 1);
    }
  }

  lemma UniverseStep<S, V>(m: Model<S, V>, ops: seq<Op<V>>, k: nat, done: set<nat>, s: S, i: nat)
    requires (done, s) in Universe(m, ops, k)
    requires i < |ops| && Next(m, ops, s, i).0
    ensures (done + {i}, Next(m, ops, s, i).1) in Universe(m, ops, k + 1)
  {
    var p := (done, s);
    assert (p.0 + {i}, Next(m, ops, p.1, i).1) in Successors(m, ops, Universe(m, ops, k));
  }

  ghost predicate StepAt<S, V>(m: Model<S, V>, ops: seq<Op<V>>, ids: seq<nat>, states: seq<S>, k: nat)
    requires k < |ids| && |states| == |ids| + 1
  {
    ids[k] < |ops| && Next(m, ops, states[k], ids[k]) == (true, states[k + 1])
  }

  lemma {:induction false} PathInUniverse<S, V>(m: Model<S, V>, ops: seq<Op<V>>, ids: seq<nat>, states: seq<S>, k: nat)
    requires |states| == |ids| + 1 && states[0] == m.init && k <= |ids|
    requires forall j :: 0 <= j < |ids| ==> StepAt(m, ops, ids, states, j)
    ensures (Done(ids, k), states[k]) in Universe(m, ops, k)
    decreases k
  {
    hide Universe, Done, Next;
    DoneStep(ids, k);
    if k == 0 {
      InitialInUniverse(m, ops);
    } else {
      PathInUniverse(m, ops, ids, states, k - 1);
      assert StepAt(m, ops, ids, states, k - 1);
      UniverseStep(m, ops, k - 1, Done(ids, k - 1), states[k - 1], ids[k - 1]);
    }
  }

  lemma InitialInUniverse<S, V>(m: Model<S, V>, ops: seq<Op<V>>)
    ensures ({}, m.init) in Universe(m, ops, 0)
  {
  }

  lemma DoneStep(ids: seq<nat>, k: nat)
    requires k <= |ids|
    ensures Done(ids, k) == if k == 0 then {} else Done(ids, k - 1) + {ids[k - 1]}
  {
    if k > 0 {
      assert ids[..k] == ids[..k - 1] + [ids[k - 1]];
    }
  }

  /** At an open return the level is exhausted. */
  lemma Exhausted<S, V>(m: Model<S, V>, ops: seq<Op<V>>, done: set<nat>, s: S, r: nat)
    requires DistinctTimes(ops)
    requires r < |ops| && r !in done
    requires Scanned(m, ops, done, s, ops[r].ret)
    ensures !Completable(m, ops, done, s)
  {
    if Completable(m, ops, done, s) {
      var i := CompletionHasFirst(m, ops, done, s);
    }
  }

  /** A cached successor of the current level is hopeless: it is too large to be on the stack. */
  lemma CachedIsHopeless<S, V>(m: Model<S, V>, ops: seq<Op<V>>, ids: seq<nat>, states: seq<S>,
                               cache: set<(set<nat>, S)>, bound: int, i: nat)
    requires Searching(m, ops, ids, states, cache, bound)
    requires i < |ops| && i !in ids
    requires (Elems(ids) + {i}, Next(m, ops, states[|ids|], i).1) in cache
    ensures Failed(m, ops, Elems(ids), states[|ids|], i)
  {
    var p := (Elems(ids) + {i}, Next(m, ops, states[|ids|], i).1);
    assert i in p.0;
    assert !OnStack(ids, states, p);
  }

  /** Moving past a failed call to the next open entry. */
  lemma Advance<S, V>(m: Model<S, V>, ops: seq<Op<V>>, ids: seq<nat>, states: seq<S>,
                      cache: set<(set<nat>, S)>, i: nat, bound': int)
    requires DistinctTimes(ops)
    requires i < |ops| && i !in ids
    requires Searching(m, ops, ids, states, cache, ops[i].call)
    requires Failed(m, ops, Elems(ids), states[|ids|], i)
    requires forall j: nat :: j < |ops| && j !in ids ==>
      (ops[j].call <= ops[i].call || bound' <= ops[j].call) && (ops[j].ret <= ops[i].call || bound' <= ops[j].ret)
    ensures Searching(m, ops, ids, states, cache, bound')
  {
  }

  /** Choosing the current call: a new level, scanned up to its first open entry. */
  lemma Push<S, V>(m: Model<S, V>, ops: seq<Op<V>>, ids: seq<nat>, states: seq<S>,
                   cache: set<(set<nat>, S)>, i: nat, bound': int)
    requires i < |ops| && i !in ids
    requires Searching(m, ops, ids, states, cache, ops[i].call)
    requires Next(m, ops, states[|ids|], i).0
    requires forall j: nat :: j < |ops| && j !in ids && j != i ==> bound' <= ops[j].call && bound' <= ops[j].ret
    ensures var s' := Next(m, ops, states[|ids|], i).1;
      Searching(m, ops, ids + [i], states + [s'], cache + {(Elems(ids) + {i}, s')}, bound')
  {
    var s' := Next(m, ops, states[|ids|], i).1;
    var ids', states' := ids + [i], states + [s'];
    forall k: nat | k <= |ids| ensures Done(ids', k) == Done(ids, k) && states'[k] == states[k] {
      DonePrefix(ids, i, k);
    }
    DonePrefix(ids, i, |ids|);
    forall k: nat | k < |ids'| ensures Level(m, ops, ids', states', k) {
      assert k < |ids| ==> Level(m, ops, ids, states, k);
    }
    assert Elems(ids') == Elems(ids) + {i};
    forall p | p in cache + {(Elems(ids) + {i}, s')}
      ensures OnStack(ids', states', p) || !Completable(m, ops, p.0, p.1)
    {
      if p == (Elems(ids) + {i}, s') {
        assert p == (Done(ids', |ids'|), states'[|ids'|]);
      } else if OnStack(ids, states, p) {
        var k :| 1 <= k <= |ids| && p == (Done(ids, k), states[k]);
        assert p == (Done(ids', k), states'[k]);
      }
    }
    DepthBound(m, ops, ids', states');
    forall k | 0 <= k < |ids'| ensures StepAt(m, ops, ids', states', k) {
      assert Level(m, ops, ids', states', k);
    }
    PathInUniverse(m, ops, ids', states', |ids'|);
    UniverseGrows(m, ops, |ids'|, |ops|);
  }

  /** Giving up the last choice: the level below learns that it failed. */
  lemma Pop<S, V>(m: Model<S, V>, ops: seq<Op<V>>, ids: seq<nat>, states: seq<S>,
                  cache: set<(set<nat>, S)>, bound: int)
    requires Searching(m, ops, ids, states, cache, bound)
    requires |ids| > 0
    requires !Completable(m, ops, Elems(ids), states[|ids|])
    ensures ids[|ids| - 1] < |ops| && ids[|ids| - 1] !in ids[..|ids| - 1]
    ensures Searching(m, ops, ids[..|ids| - 1], states[..|ids|], cache, ops[ids[|ids| - 1]].call)
    ensures Failed(m, ops, Elems(ids[..|ids| - 1]), states[|ids| - 1], ids[|ids| - 1])
  {
    var d := |ids| - 1;
    var ids', states', i := ids[..d], states[..|ids|], ids[d];
    assert ids == ids' + [i];
    forall k: nat | k <= d ensures Done(ids', k) == Done(ids, k) && states'[k] == states[k] {
      DonePrefix(ids', i, k);
    }
    DonePrefix(ids', i, d);
    DonePrefix(ids, i, |ids|);
    hide Completable, Minimal, Done;
    assert Level(m, ops, ids, states, d);
    forall k: nat | k < d ensures Level(m, ops, ids', states', k) {
      assert Level(m, ops, ids, states, k);
    }
    forall p | p in cache
      ensures OnStack(ids', states', p) || !Completable(m, ops, p.0, p.1)
    {
      if OnStack(ids, states, p) {
        var k :| 1 <= k <= |ids| && p == (Done(ids, k), states[k]);
        if k <= d {
          assert p == (Done(ids', k), states'[k]);
        }
      }
    }
  }

  /** With everything linearized, the stack is a linearization of the whole history. */
  lemma {:induction false} Success<S, V>(m: Model<S, V>, ops: seq<Op<V>>, ids: seq<nat>, states: seq<S>, k: nat)
    requires Path(m, ops, ids, states) && k <= |ids|
    requires forall i: nat :: i < |ops| ==> i in ids
    ensures Completable(m, ops, Done(ids, k), states[k])
    decreases |ids| - k
  {
    if k == |ids| {
      assert ids[..k] == ids;
      CompleteWhenAllDone(m, ops, Done(ids, k), states[k]);
    } else {
      Success(m, ops, ids, states, k + 1);
      assert ids[..k + 1] == ids[..k] + [ids[k]];
      assert Done(ids, k + 1) == Done(ids, k) + {ids[k]};
      assert Level(m, ops, ids, states, k);
      CompleteByStep(m, ops, Done(ids, k), states[k], ids[k]);
    }
  }
}
