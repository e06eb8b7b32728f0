/**
  The linearizability checker: a backtracking search over the entry list, with a
  bitset of linearized operations and a cache of visited configurations.
 */
module Checker {
  import opened Linearizability
  import opened Search
  import opened EntryList
  import opened Bitset

  datatype CallsEntry<V, S> = CallsEntry(entry: Node<V>, state: S)

  datatype CacheEntry<S> = CacheEntry(linearized: array<Word>, state: S)

  // ---- entries and operations

  /** `n` is the call entry of operation `i`, and its partner the return entry. */
  ghost predicate EntryOf<V>(n: Node<V>, i: nat, op: Op<V>) {
    && n.id == i && n.value == op.input && n.pos == op.call
    && n.partner != null && n.partner.partner == null
    && n.partner.id == i && n.partner.value == op.output && n.partner.pos == op.ret
  }

  ghost predicate Entries<V>(c: seq<Node<V>>, ops: seq<Op<V>>) {
    |c| == |ops| && forall i :: 0 <= i < |c| ==> EntryOf(c[i], i, ops[i])
  }

  /** `n` is an entry of an operation outside `done`. */
  ghost predicate Open<V>(n: Node<V>, c: seq<Node<V>>, done: set<nat>) {
    n.id < |c| && n.id !in done && (n == c[n.id] || n == c[n.id].partner)
  }

  /** The list `l` holds, after its head, exactly the entries of the open operations, in order. */
  ghost predicate Holds<V>(l: seq<Node<V>>, head: Node<V>, c: seq<Node<V>>, done: set<nat>) {
    && |l| > 0 && l[0] == head
    && (forall k :: 1 <= k < |l| ==> Open(l[k], c, done) && l[k] != head)
    && (forall j, k :: 1 <= j < k < |l| ==> l[j].pos < l[k].pos)
    && (forall i: nat :: i < |c| && i !in done ==>
      c[i] in l && c[i] != head && c[i].partner in l && c[i].partner != head)
  }

  /** The list `xs` holds exactly the entries of all operations, in order. */
  ghost predicate Lists<V>(xs: seq<Node<V>>, c: seq<Node<V>>) {
    && (forall k :: 0 <= k < |xs| ==> Open(xs[k], c, {}))
    && (forall j, k :: 0 <= j < k < |xs| ==> xs[j].pos < xs[k].pos)
    && (forall i: nat :: i < |c| ==> c[i] in xs && c[i].partner in xs)
  }

  lemma HeadOn<V>(xs: seq<Node<V>>, head: Node<V>, c: seq<Node<V>>, nodes: set<Node<V>>)
    requires Lists(xs, c) && head !in xs && nodes == (set x | x in xs) + {head}
    ensures Holds([head] + xs, head, c, {}) && Apart(head, c) && Owned(head, c, nodes)
  {
    var l := [head] + xs;
    forall k | 1 <= k < |l| ensures Open(l[k], c, {}) && l[k] != head {
      assert Open(xs[k - 1], c, {}) && xs[k - 1] in xs;
    }
  }

  lemma HoldsDistinct<V>(l: seq<Node<V>>, head: Node<V>, c: seq<Node<V>>, done: set<nat>)
    requires Holds(l, head, c, done)
    ensures forall j, k :: 0 <= j < k < |l| ==> l[j] != l[k]
  {
  }

  /** A call entry's partner stands behind it. */
  lemma PartnerBehind<V>(l: seq<Node<V>>, head: Node<V>, c: seq<Node<V>>, ops: seq<Op<V>>, done: set<nat>, a: nat)
    returns (b: nat)
    requires Entries(c, ops) && DistinctTimes(ops) && Holds(l, head, c, done)
    requires 1 <= a < |l| && l[a].partner != null
    ensures a < b < |l| && l[b] == l[a].partner
    ensures l[a] == c[l[a].id] && l[a].id < |ops| && l[a].id !in done
  {
    assert Open(l[a], c, done);
    var i := l[a].id;
    assert EntryOf(c[i], i, ops[i]);
    b :| 0 <= b < |l| && l[b] == c[i].partner;
  }

  lemma ReturnIsOpen<V>(l: seq<Node<V>>, head: Node<V>, c: seq<Node<V>>, ops: seq<Op<V>>, done: set<nat>, a: nat)
    requires Entries(c, ops) && Holds(l, head, c, done)
    requires 1 <= a < |l| && l[a].partner == null
    ensures l[a].id < |ops| && l[a].id !in done && l[a].pos == ops[l[a].id].ret
  {
    assert Open(l[a], c, done);
    assert EntryOf(c[l[a].id], l[a].id, ops[l[a].id]);
  }

  /** Between two neighbours of the list lies no open entry. */
  lemma NothingBetween<V>(l: seq<Node<V>>, head: Node<V>, c: seq<Node<V>>, ops: seq<Op<V>>, done: set<nat>, k: nat)
    requires Entries(c, ops) && Holds(l, head, c, done) && 1 <= k < |l|
    ensures forall j: nat :: j < |ops| && j !in done ==>
      && (l[k].pos <= ops[j].call || (k > 1 && ops[j].call <= l[k - 1].pos))
      && (l[k].pos <= ops[j].ret || (k > 1 && ops[j].ret <= l[k - 1].pos))
  {
    forall j: nat | j < |ops| && j !in done
      ensures l[k].pos <= ops[j].call || (k > 1 && ops[j].call <= l[k - 1].pos)
      ensures l[k].pos <= ops[j].ret || (k > 1 && ops[j].ret <= l[k - 1].pos)
    {
      assert EntryOf(c[j], j, ops[j]);
      var p :| 0 <= p < |l| && l[p] == c[j];
      var q :| 0 <= q < |l| && l[q] == c[j].partner;
    }
  }

  lemma EmptyMeansDone<V>(l: seq<Node<V>>, head: Node<V>, c: seq<Node<V>>, done: set<nat>)
    requires Holds(l, head, c, done) && |l| == 1
    ensures forall j: nat :: j < |c| ==> j in done
  {
  }

  /** Dropping one entry keeps the others, in order. */
  lemma DropKeeps<V>(l: seq<Node<V>>, a: nat)
    requires 1 <= a < |l|
    requires forall j, k :: 1 <= j < k < |l| ==> l[j].pos < l[k].pos
    ensures |Drop(l, a)| == |l| - 1 && Drop(l, a)[0] == l[0]
    ensures forall j, k :: 1 <= j < k < |l| - 1 ==> Drop(l, a)[j].pos < Drop(l, a)[k].pos
    ensures forall n :: n in Drop(l, a) ==> n in l
    ensures forall k :: 1 <= k < |l| - 1 ==> Drop(l, a)[k].pos != l[a].pos
    ensures forall n :: n in l && n != l[a] ==> n in Drop(l, a)
  {
    DropIndex(l, a);
    forall n | n in l && n != l[a] ensures n in Drop(l, a) {
      var k :| 0 <= k < |l| && l[k] == n;
      assert Drop(l, a)[if k < a then k else k - 1] == n;
    }
  }

  /** Lifting a pair closes its operation. */
  lemma HoldsWithout<V>(l: seq<Node<V>>, head: Node<V>, c: seq<Node<V>>, ops: seq<Op<V>>, done: set<nat>, a: nat,
                        b: nat)
    requires Entries(c, ops) && Holds(l, head, c, done)
    requires 1 <= a < b < |l| && l[a].id < |c| && l[a] == c[l[a].id] && l[b] == l[a].partner
    ensures Holds(Without(l, a, b), head, c, done + {l[a].id})
  {
    hide Drop, Open;
    var i := l[a].id;
    var l2 := Without(l, a, b);
    DropKeeps(l, a);
    DropIndex(l, a);
    DropKeeps(Drop(l, a), b - 1);
    forall k | 1 <= k < |l2| ensures Open(l2[k], c, done + {i}) && l2[k] != head {
      StillOpen(l, head, c, done, a, b, k);
    }
    forall j: nat | j < |c| && j !in done + {i}
      ensures c[j] in l2 && c[j] != head && c[j].partner in l2 && c[j].partner != head
    {
      StillPresent(l, head, c, ops, done, a, b, j);
    }
  }

  lemma StillPresent<V>(l: seq<Node<V>>, head: Node<V>, c: seq<Node<V>>, ops: seq<Op<V>>, done: set<nat>, a: nat,
                        b: nat, j: nat)
    requires Entries(c, ops) && Holds(l, head, c, done)
    requires 1 <= a < b < |l| && l[a].id < |c| && l[a] == c[l[a].id] && l[b] == l[a].partner
    requires j < |c| && j !in done && j != l[a].id
    ensures c[j] in Without(l, a, b) && c[j] != head && c[j].partner in Without(l, a, b) && c[j].partner != head
  {
    hide Drop;
    assert EntryOf(c[j], j, ops[j]) && EntryOf(c[l[a].id], l[a].id, ops[l[a].id]);
    DropKeeps(l, a);
    DropIndex(l, a);
    DropKeeps(Drop(l, a), b - 1);
  }

  lemma StillOpen<V>(l: seq<Node<V>>, head: Node<V>, c: seq<Node<V>>, done: set<nat>, a: nat, b: nat, k: nat)
    requires Holds(l, head, c, done)
    requires 1 <= a < b < |l| && l[a].id < |c| && l[a] == c[l[a].id] && l[b] == l[a].partner
    requires 1 <= k < |l| - 2 && |Without(l, a, b)| == |l| - 2
    ensures Open(Without(l, a, b)[k], c, done + {l[a].id}) && Without(l, a, b)[k] != head
  {
    hide Without;
    WithoutIndex(l, a, b, k);
    HoldsDistinct(l, head, c, done);
    var at := if k < a then k else if k < b - 1 then k + 1 else k + 2;
    assert Open(l[at], c, done) && l[at] != l[a] && l[at] != l[b];
  }

  // ---- the cache

  /** The pair a cache entry stands for, filed under the hash of its words. */
  ghost predicate Filed<S>(e: CacheEntry<S>, h: int, hash: seq<Word> -> int, owned: set<array<Word>>, width: nat,
                           seen: set<(set<nat>, S)>)
    reads owned
  {
    && e.linearized in owned && e.linearized.Length == width
    && h == hash(e.linearized[..])
    && (Members(e.linearized[..]), e.state) in seen
  }

  ghost predicate At<S>(cache: map<int, seq<CacheEntry<S>>>, owned: set<array<Word>>, h: int, i: nat, p: (set<nat>, S))
    reads owned
  {
    && h in cache && i < |cache[h]| && cache[h][i].linearized in owned
    && p == (Members(cache[h][i].linearized[..]), cache[h][i].state)
  }

  /** The hash buckets hold exactly the pairs of `seen`, in word arrays nobody else uses. */
  ghost predicate CacheOf<S>(cache: map<int, seq<CacheEntry<S>>>, hash: seq<Word> -> int, owned: set<array<Word>>,
                             width: nat, seen: set<(set<nat>, S)>)
    reads owned
  {
    && (forall h, i :: h in cache && 0 <= i < |cache[h]| ==> Filed(cache[h][i], h, hash, owned, width, seen))
    && (forall p :: p in seen ==> exists h, i: nat :: At(cache, owned, h, i, p))
  }

  function Bucket<S>(cache: map<int, seq<CacheEntry<S>>>, h: int): (r: seq<CacheEntry<S>>) {
    if h in cache then cache[h] else []
  }

  method CacheContains<S(==)>(cache: map<int, seq<CacheEntry<S>>>, hash: seq<Word> -> int, entry: CacheEntry<S>,
                              ghost owned: set<array<Word>>, ghost width: nat, ghost seen: set<(set<nat>, S)>)
    returns (found: bool)
    requires CacheOf(cache, hash, owned, width, seen)
    requires entry.linearized.Length == width
    ensures found <==> (Members(entry.linearized[..]), entry.state) in seen
  {
    hide Members;
    ghost var p := (Members(entry.linearized[..]), entry.state);
    var h := hash(entry.linearized[..]);
    var bucket := Bucket(cache, h);
    for n := 0 to |bucket|
      invariant forall i: nat :: i < n ==> !At(cache, owned, h, i, p)
    {
      assert Filed(bucket[n], h, hash, owned, width, seen);
      var same := Equals(entry.linearized, bucket[n].linearized);
      if same && entry.state == bucket[n].state {
        return true;
      }
    }
    NotInBucket(cache, hash, entry, owned, width, seen);
    return false;
  }

  /** A pair missing from its bucket is missing from the cache, whatever the hash function. */
  lemma NotInBucket<S>(cache: map<int, seq<CacheEntry<S>>>, hash: seq<Word> -> int, entry: CacheEntry<S>,
                       owned: set<array<Word>>, width: nat, seen: set<(set<nat>, S)>)
    requires CacheOf(cache, hash, owned, width, seen)
    requires entry.linearized.Length == width
    requires var h := hash(entry.linearized[..]);
      forall i: nat :: i < |Bucket(cache, h)| ==>
        !At(cache, owned, h, i, (Members(entry.linearized[..]), entry.state))
    ensures (Members(entry.linearized[..]), entry.state) !in seen
  {
    var p := (Members(entry.linearized[..]), entry.state);
    if p in seen {
      var h, i: nat :| At(cache, owned, h, i, p);
      assert Filed(cache[h][i], h, hash, owned, width, seen);
      SameMembers(cache[h][i].linearized[..], entry.linearized[..]);
      assert false;
    }
  }

  lemma CacheInsert<S>(cache: map<int, seq<CacheEntry<S>>>, hash: seq<Word> -> int, entry: CacheEntry<S>,
                       owned: set<array<Word>>, width: nat, seen: set<(set<nat>, S)>)
    requires CacheOf(cache, hash, owned, width, seen)
    requires entry.linearized.Length == width
    ensures var h := hash(entry.linearized[..]);
      CacheOf(cache[h := Bucket(cache, h) + [entry]], hash, owned + {entry.linearized}, width,
              seen + {(Members(entry.linearized[..]), entry.state)})
  {
    var h := hash(entry.linearized[..]);
    var cache' := cache[h := Bucket(cache, h) + [entry]];
    var owned' := owned + {entry.linearized};
    var p' := (Members(entry.linearized[..]), entry.state);
    forall g, i | g in cache' && 0 <= i < |cache'[g]|
      ensures Filed(cache'[g][i], g, hash, owned', width, seen + {p'})
    {
      if !(g == h && i == |Bucket(cache, h)|) {
        assert Filed(cache[g][i], g, hash, owned, width, seen);
      }
    }
    forall p | p in seen + {p'} ensures exists g, i: nat :: At(cache', owned', g, i, p) {
      if p == p' {
        assert At(cache', owned', h, |Bucket(cache, h)|, p);
      } else {
        var g, i: nat :| At(cache, owned, g, i, p);
        assert At(cache', owned', g, i, p);
      }
    }
  }

  // ---- the stack of lifted calls

  /** What the search has lifted so far: per level the choice, the state before it,
      the list before it and the two positions taken out of that list. */
  datatype Trail<V, S> = Trail(ids: seq<nat>, states: seq<S>, lists: seq<seq<Node<V>>>, at: seq<nat>, ret: seq<nat>) {

    ghost predicate Shaped(head: Node<V>, c: seq<Node<V>>) {
      && |at| == |ret| == |ids| && |states| == |lists| == |ids| + 1
      && (forall k :: 0 <= k < |ids| ==> LevelShaped(head, c, k))
      && Holds(lists[|ids|], head, c, Elems(ids))
    }

    ghost predicate LevelShaped(head: Node<V>, c: seq<Node<V>>, k: nat)
      requires |at| == |ret| == |ids| && |states| == |lists| == |ids| + 1 && k < |ids|
    {
      && ids[k] < |c| && ids[k] in ids && 0 < at[k] < ret[k] < |lists[k]|
      && lists[k][at[k]] == c[ids[k]] && lists[k][ret[k]] == c[ids[k]].partner
      && Holds(lists[k], head, c, Elems(ids[..k]))
      && lists[k + 1] == Without(lists[k], at[k], ret[k])
    }

    ghost function Push(i: nat, s: S, a: nat, b: nat): (t: Trail<V, S>)
      requires |lists| > 0 && a < b < |lists[|lists| - 1]|
    {
      Trail(ids + [i], states + [s], lists + [Without(lists[|lists| - 1], a, b)], at + [a], ret + [b])
    }

    ghost function Pop(): (t: Trail<V, S>)
      requires |at| == |ret| == |ids| && |states| == |lists| == |ids| + 1 && |ids| > 0
    {
      var d := |ids| - 1;
      Trail(ids[..d], states[..d + 1], lists[..d + 1], at[..d], ret[..d])
    }
  }

  lemma PushShaped<V, S>(t: Trail<V, S>, head: Node<V>, c: seq<Node<V>>, ops: seq<Op<V>>, i: nat, s: S, a: nat, b: nat)
    requires Entries(c, ops) && t.Shaped(head, c)
    requires i < |c| && 0 < a < b < |t.lists[|t.ids|]|
    requires t.lists[|t.ids|][a] == c[i] && t.lists[|t.ids|][b] == c[i].partner
    ensures t.Push(i, s, a, b).Shaped(head, c)
  {
    var t' := t.Push(i, s, a, b);
    assert EntryOf(c[i], i, ops[i]);
    HoldsWithout(t.lists[|t.ids|], head, c, ops, Elems(t.ids), a, b);
    assert Elems(t'.ids) == Elems(t.ids) + {i};
    forall k: nat | k < |t'.ids| ensures t'.LevelShaped(head, c, k) {
      assert t'.ids[..k] == t.ids[..k];
      if k < |t.ids| {
        assert t.LevelShaped(head, c, k);
      } else {
        assert t.ids[..k] == t.ids;
      }
    }
  }

  lemma PopShaped<V, S>(t: Trail<V, S>, head: Node<V>, c: seq<Node<V>>)
    requires t.Shaped(head, c) && |t.ids| > 0
    ensures t.Pop().Shaped(head, c)
  {
    hide Holds, Without;
    var t', d := t.Pop(), |t.ids| - 1;
    assert t.LevelShaped(head, c, d);
    forall k: nat | k < d ensures t'.LevelShaped(head, c, k) {
      assert t.LevelShaped(head, c, k);
      assert t'.ids[..k] == t.ids[..k];
      assert t'.ids[k] in t'.ids;
    }
  }

  /** The head is no entry of the history. */
  ghost predicate Apart<V>(head: Node<V>, c: seq<Node<V>>) {
    forall i :: 0 <= i < |c| ==> c[i] != head && c[i].partner != head
  }

  ghost predicate Owned<V>(head: Node<V>, c: seq<Node<V>>, nodes: set<Node<V>>) {
    && head in nodes
    && (forall i :: 0 <= i < |c| ==> c[i] in nodes && (c[i].partner != null ==> c[i].partner in nodes))
  }

  lemma ListOwned<V>(l: seq<Node<V>>, head: Node<V>, c: seq<Node<V>>, done: set<nat>, nodes: set<Node<V>>)
    requires Holds(l, head, c, done) && Owned(head, c, nodes)
    ensures forall n :: n in l ==> n in nodes
  {
    forall k | 0 <= k < |l| ensures l[k] in nodes {
      assert k > 0 ==> Open(l[k], c, done);
    }
  }

  /** Lifted entries are not in the current list. */
  lemma LiftedAreAbsent<V, S>(t: Trail<V, S>, head: Node<V>, c: seq<Node<V>>, ops: seq<Op<V>>, k: nat)
    requires Entries(c, ops) && t.Shaped(head, c) && k < |t.ids|
    requires Apart(head, c)
    ensures t.ids[k] < |c| && c[t.ids[k]] !in t.lists[|t.ids|] && c[t.ids[k]].partner !in t.lists[|t.ids|]
  {
    assert t.LevelShaped(head, c, k);
    var i := t.ids[k];
    assert EntryOf(c[i], i, ops[i]);
    var l := t.lists[|t.ids|];
    forall j | 0 <= j < |l| ensures l[j] != c[i] && l[j] != c[i].partner {
      assert j > 0 ==> Open(l[j], c, Elems(t.ids));
    }
  }

  // ---- the search

  /** The time of the entry under the cursor. */
  ghost function Bound<V>(l: seq<Node<V>>, cur: nat): (b: int) {
    if cur < |l| then l[cur].pos else 0
  }

  /** The cursor stands on an entry behind the head, if there is one. */
  ghost predicate Cursor<V>(l: seq<Node<V>>, cur: nat, entry: Node?<V>) {
    && 1 <= cur
    && (if |l| == 1 then cur == 1 && entry == null else cur < |l| && entry == l[cur])
  }

  /** Everything the loop keeps, apart from the pointers. */
  ghost predicate Running<V, S>(m: Model<S, V>, ops: seq<Op<V>>, head: Node<V>, c: seq<Node<V>>,
                                t: Trail<V, S>, seen: set<(set<nat>, S)>, cur: nat) {
    && t.Shaped(head, c)
    && Searching(m, ops, t.ids, t.states, seen, Bound(t.lists[|t.ids|], cur))
  }

  /** The calls stack the code keeps is the trail's. */
  ghost predicate Recorded<V, S>(t: Trail<V, S>, c: seq<Node<V>>, calls: seq<CallsEntry<V, S>>) {
    && |calls| == |t.ids| == |t.states| - 1
    && (forall k :: 0 <= k < |calls| ==> t.ids[k] < |c| && calls[k] == CallsEntry(c[t.ids[k]], t.states[k]))
  }

  lemma AdvanceCursor<V, S>(m: Model<S, V>, ops: seq<Op<V>>, head: Node<V>, c: seq<Node<V>>,
                            t: Trail<V, S>, seen: set<(set<nat>, S)>, cur: nat, i: nat)
    requires DistinctTimes(ops) && Entries(c, ops) && Running(m, ops, head, c, t, seen, cur)
    requires i < |ops| && i !in t.ids
    requires 1 <= cur < |t.lists[|t.ids|]| - 1 && t.lists[|t.ids|][cur] == c[i]
    requires Failed(m, ops, Elems(t.ids), t.states[|t.ids|], i)
    ensures Running(m, ops, head, c, t, seen, cur + 1)
  {
    var l := t.lists[|t.ids|];
    assert EntryOf(c[i], i, ops[i]);
    NothingBetween(l, head, c, ops, Elems(t.ids), cur + 1);
    hide Searching, Holds, Failed, DistinctTimes;
    Advance(m, ops, t.ids, t.states, seen, i, l[cur + 1].pos);
  }

  lemma PushRunning<V, S>(m: Model<S, V>, ops: seq<Op<V>>, head: Node<V>, c: seq<Node<V>>,
                          t: Trail<V, S>, seen: set<(set<nat>, S)>, cur: nat, i: nat, b: nat)
    requires DistinctTimes(ops) && Entries(c, ops) && Running(m, ops, head, c, t, seen, cur)
    requires i < |ops| && i !in t.ids
    requires 1 <= cur < b < |t.lists[|t.ids|]| && t.lists[|t.ids|][cur] == c[i] && t.lists[|t.ids|][b] == c[i].partner
    requires Next(m, ops, t.states[|t.ids|], i).0
    ensures var s' := Next(m, ops, t.states[|t.ids|], i).1;
      Running(m, ops, head, c, t.Push(i, s', cur, b), seen + {(Elems(t.ids) + {i}, s')}, 1)
  {
    var s' := Next(m, ops, t.states[|t.ids|], i).1;
    var t' := t.Push(i, s', cur, b);
    PushShaped(t, head, c, ops, i, s', cur, b);
    var l' := t'.lists[|t'.ids|];
    assert Elems(t'.ids) == Elems(t.ids) + {i};
    assert EntryOf(c[i], i, ops[i]);
    if |l'| > 1 {
      NothingBetween(l', head, c, ops, Elems(t'.ids), 1);
    } else {
      EmptyMeansDone(l', head, c, Elems(t'.ids));
    }
    hide Searching, Holds, DistinctTimes;
    Search.Push(m, ops, t.ids, t.states, seen, i, Bound(l', 1));
  }

  lemma TopExhausted<V, S>(m: Model<S, V>, ops: seq<Op<V>>, head: Node<V>, c: seq<Node<V>>,
                           t: Trail<V, S>, seen: set<(set<nat>, S)>, cur: nat)
    requires DistinctTimes(ops) && Entries(c, ops) && Running(m, ops, head, c, t, seen, cur)
    requires 1 <= cur < |t.lists[|t.ids|]| && t.lists[|t.ids|][cur].partner == null
    ensures !Completable(m, ops, Elems(t.ids), t.states[|t.ids|])
  {
    var l := t.lists[|t.ids|];
    ReturnIsOpen(l, head, c, ops, Elems(t.ids), cur);
    hide Holds, Completable, Failed, DistinctTimes;
    Exhausted(m, ops, Elems(t.ids), t.states[|t.ids|], l[cur].id);
  }

  lemma PopRunning<V, S>(m: Model<S, V>, ops: seq<Op<V>>, head: Node<V>, c: seq<Node<V>>,
                         t: Trail<V, S>, seen: set<(set<nat>, S)>, cur: nat)
    requires DistinctTimes(ops) && Entries(c, ops) && Running(m, ops, head, c, t, seen, cur)
    requires |t.ids| > 0 && !Completable(m, ops, Elems(t.ids), t.states[|t.ids|])
    ensures Running(m, ops, head, c, t.Pop(), seen, t.at[|t.ids| - 1] + 1)
  {
    hide Searching, Holds, Failed, Completable, DistinctTimes;
    var d := |t.ids| - 1;
    var i := t.ids[d];
    Search.Pop(m, ops, t.ids, t.states, seen, Bound(t.lists[|t.ids|], cur));
    assert t.LevelShaped(head, c, d);
    PopShaped(t, head, c);
    assert EntryOf(c[i], i, ops[i]);
    AdvanceCursor(m, ops, head, c, t.Pop(), seen, t.at[d], i);
  }

  /** Termination: a newly cached configuration shrinks what is left to visit. */
  lemma FewerLeft<T>(universe: set<T>, seen: set<T>, p: T)
    requires p in universe && p !in seen
    ensures |universe - (seen + {p})| < |universe - seen|
  {
    assert universe - (seen + {p}) == (universe - seen) - {p};
  }

  lemma InitRunning<V, S>(m: Model<S, V>, ops: seq<Op<V>>, head: Node<V>, c: seq<Node<V>>, l: seq<Node<V>>)
    requires Entries(c, ops) && Holds(l, head, c, {})
    ensures Running(m, ops, head, c, Trail([], [m.init], [l], [], []), {}, 1)
  {
    assert Elems([]) == {};
    if |l| > 1 {
      NothingBetween(l, head, c, ops, {}, 1);
    } else {
      EmptyMeansDone(l, head, c, {});
    }
  }

  /** The operation whose call entry is under the cursor. */
  lemma AtCall<V, S>(m: Model<S, V>, ops: seq<Op<V>>, head: Node<V>, c: seq<Node<V>>,
                     t: Trail<V, S>, seen: set<(set<nat>, S)>, cur: nat) returns (b: nat)
    requires DistinctTimes(ops) && Entries(c, ops) && Running(m, ops, head, c, t, seen, cur)
    requires 1 <= cur < |t.lists[|t.ids|]| && t.lists[|t.ids|][cur].partner != null
    ensures var n := t.lists[|t.ids|][cur];
      && n.id < |ops| && n.id !in t.ids && n == c[n.id] && EntryOf(n, n.id, ops[n.id])
      && cur < b < |t.lists[|t.ids|]| && t.lists[|t.ids|][b] == n.partner
  {
    b := PartnerBehind(t.lists[|t.ids|], head, c, ops, Elems(t.ids), cur);
    var i := t.lists[|t.ids|][cur].id;
    assert i !in Elems(t.ids);
    assert EntryOf(c[i], i, ops[i]);
  }

  /** What the code reads off the trail before backtracking. */
  lemma AtPop<V, S>(t: Trail<V, S>, head: Node<V>, c: seq<Node<V>>, ops: seq<Op<V>>)
    requires Entries(c, ops) && t.Shaped(head, c) && |t.ids| > 0
    ensures var d := |t.ids| - 1; var i := t.ids[d]; var l := t.lists[d];
      && i < |ops| && EntryOf(c[i], i, ops[i]) && Elems(t.ids) == Elems(t.ids[..d]) + {i} && i !in Elems(t.ids[..d])
      && 0 < t.at[d] < t.ret[d] < |l| && l[t.at[d]] == c[i] && l[t.ret[d]] == c[i].partner
      && t.lists[d + 1] == Without(l, t.at[d], t.ret[d])
      && (forall j, k :: 0 <= j < k < |l| ==> l[j] != l[k])
  {
    var d := |t.ids| - 1;
    assert t.LevelShaped(head, c, d);
    assert t.ids == t.ids[..d] + [t.ids[d]];
    HoldsDistinct(t.lists[d], head, c, Elems(t.ids[..d]));
    assert EntryOf(c[t.ids[d]], t.ids[d], ops[t.ids[d]]);
    assert Open(t.lists[d][t.at[d]], c, Elems(t.ids[..d]));
  }

  lemma FirstNext<V>(l: seq<Node<V>>)
    requires Linked(l) && |l| > 0
    ensures l[0].next == if |l| > 1 then l[1] else null
  {
  }

  /** An emptied list answers yes. */
  lemma AllLifted<V, S>(m: Model<S, V>, ops: seq<Op<V>>, head: Node<V>, c: seq<Node<V>>,
                        t: Trail<V, S>, seen: set<(set<nat>, S)>, cur: nat)
    requires Entries(c, ops) && Running(m, ops, head, c, t, seen, cur) && |t.lists[|t.ids|]| == 1
    ensures Linearizable(m, ops)
  {
    EmptyMeansDone(t.lists[|t.ids|], head, c, Elems(t.ids));
    assert forall i: nat :: i in Elems(t.ids) ==> i in t.ids;
    Success(m, ops, t.ids, t.states, 0);
    assert Done(t.ids, 0) == {};
  }

  /** A freshly cached configuration was among those still to visit. */
  lemma PushMeasure<V, S>(m: Model<S, V>, ops: seq<Op<V>>, head: Node<V>, c: seq<Node<V>>,
                          t: Trail<V, S>, seen: set<(set<nat>, S)>, p: (set<nat>, S), cur: nat)
    requires Running(m, ops, head, c, t, seen + {p}, cur) && p !in seen
    ensures |Universe(m, ops, |ops|) - (seen + {p})| < |Universe(m, ops, |ops|) - seen|
  {
    FewerLeft(Universe(m, ops, |ops|), seen, p);
  }

  /** The pointers agree with the trail: the current list is linked, lifted pairs are parked. */
  ghost predicate Pointers<V, S>(t: Trail<V, S>, head: Node<V>, c: seq<Node<V>>, nodes: set<Node<V>>)
    reads nodes
  {
    && t.Shaped(head, c)
    && (forall n :: n in t.lists[|t.ids|] ==> n in nodes) && Linked(t.lists[|t.ids|])
    && (forall k :: 0 <= k < |t.ids| ==> ParkedAt(t, c, nodes, k))
  }

  ghost predicate ParkedAt<V, S>(t: Trail<V, S>, c: seq<Node<V>>, nodes: set<Node<V>>, k: nat)
    requires k < |t.ids| == |t.at| == |t.ret| == |t.lists| - 1
    reads nodes
  {
    && t.ids[k] < |c| && c[t.ids[k]] in nodes && c[t.ids[k]].partner in nodes
    && Parked(c[t.ids[k]], t.lists[k], t.at[k], t.ret[k])
  }

  method LiftChoice<V, S>(entry: Node<V>, ghost t: Trail<V, S>, ghost head: Node<V>, ghost c: seq<Node<V>>,
                          ghost ops: seq<Op<V>>, ghost nodes: set<Node<V>>, ghost s: S, ghost a: nat, ghost b: nat)
    requires Entries(c, ops) && Pointers(t, head, c, nodes)
    requires Apart(head, c)
    requires entry.id < |c| && entry == c[entry.id]
    requires 0 < a < b < |t.lists[|t.ids|]| && t.lists[|t.ids|][a] == entry && t.lists[|t.ids|][b] == entry.partner
    modifies nodes
    ensures Pointers(t.Push(entry.id, s, a, b), head, c, nodes)
  {
    hide Linked, Holds, Parked, Entries, Open;
    ghost var l, i := t.lists[|t.ids|], entry.id;
    ghost var t' := t.Push(i, s, a, b);
    PushShaped(t, head, c, ops, i, s, a, b);
    forall k: nat | k < |t.ids| ensures ParkedAt(t, c, nodes, k) && c[t.ids[k]] !in l && c[t.ids[k]].partner !in l {
      LiftedAreAbsent(t, head, c, ops, k);
    }
    assert entry in l && entry.partner in l;
    WithoutSubset(l, a, b);
    Lift(entry, l, a, b);
    forall k: nat | k < |t'.ids| ensures ParkedAt(t', c, nodes, k) {
      if k < |t.ids| {
        assert ParkedAt(t, c, nodes, k);
      }
    }
  }

  method UnliftChoice<V, S>(entry: Node<V>, ghost t: Trail<V, S>, ghost head: Node<V>, ghost c: seq<Node<V>>,
                            ghost ops: seq<Op<V>>, ghost nodes: set<Node<V>>)
    requires Entries(c, ops) && Pointers(t, head, c, nodes) && |t.ids| > 0
    requires Apart(head, c) && Owned(head, c, nodes)
    requires t.ids[|t.ids| - 1] < |c| && entry == c[t.ids[|t.ids| - 1]]
    modifies nodes
    ensures Pointers(t.Pop(), head, c, nodes)
  {
    hide Linked, Holds, Parked, Entries, Open, Without, Owned;
    ghost var d := |t.ids| - 1;
    ghost var l, t' := t.lists[d], t.Pop();
    PopShaped(t, head, c);
    AtPop(t, head, c, ops);
    forall k: nat | k < d ensures ParkedAt(t, c, nodes, k) && c[t.ids[k]] !in l && c[t.ids[k]].partner !in l {
      LiftedAreAbsent(t', head, c, ops, k);
    }
    assert ParkedAt(t, c, nodes, d);
    ListOwned(l, head, c, Elems(t'.ids), nodes);
    Unlift(entry, l, t.at[d], t.ret[d]);
    forall k: nat | k < d ensures ParkedAt(t', c, nodes, k) {
      assert ParkedAt(t, c, nodes, k);
    }
  }

  lemma WithoutSubset<T>(l: seq<T>, a: nat, b: nat)
    requires a < b < |l|
    ensures forall x :: x in Without(l, a, b) ==> x in l
  {
  }

  /**
    Decides linearizability of one history, given as a linked list of its entries.
    `xs`, `c` and `ops` are what the list means: its entries, the call entry of
    each operation, and the operations with their positions as times.
   */
  method CheckSingle<S(==), V(0)>(model: Model<S, V>, subhistory: Node?<V>, hash: seq<Word> -> int,
                                  ghost xs: seq<Node<V>>, ghost c: seq<Node<V>>, ghost ops: seq<Op<V>>)
    returns (ok: bool)
    requires DistinctTimes(ops) && Entries(c, ops) && |xs| == 2 * |ops|
    requires Linked(xs) && subhistory == if xs == [] then null else xs[0]
    requires Lists(xs, c)
    modifies xs
    ensures ok <==> Linearizable(model, ops)
    ensures !ok ==> forall k :: 0 <= k < |xs| ==>
      xs[k].next == old(xs[k].next) && (k > 0 ==> xs[k].prev == old(xs[k].prev))
  {
    hide Linked, Holds, Apart, Owned, Lists, DistinctTimes, Entries, Linearizable;
    LinkedAt(xs);
    var l := Length(subhistory, xs);
    var n := l / 2;
    var head, list, nodes := AddHead(subhistory, xs, c);
    ok := Explore(model, head, subhistory, n, hash, list, nodes, c, ops);
    if !ok {
      LinkedBehind(head, xs);
      forall k | 0 <= k < |xs| ensures xs[k].next == old(xs[k].next) && (k > 0 ==> xs[k].prev == old(xs[k].prev)) {
        assert NextAt(xs, k) && old(NextAt(xs, k));
      }
    }
  }

  /** Puts a head before the list. */
  method AddHead<V(0)>(subhistory: Node?<V>, ghost xs: seq<Node<V>>, ghost c: seq<Node<V>>)
    returns (head: Node<V>, ghost list: seq<Node<V>>, ghost nodes: set<Node<V>>)
    requires Linked(xs) && subhistory == (if xs == [] then null else xs[0]) && Lists(xs, c)
    modifies xs
    ensures fresh(head) && list == [head] + xs && nodes == (set x | x in xs) + {head}
    ensures Holds(list, head, c, {}) && Apart(head, c) && Owned(head, c, nodes) && Linked(list) &&
      head.next == subhistory
  {
    hide Holds, Apart, Owned, Lists;
    var nil: V := *;
    head := new Node(nil, null, 0, 0);
    list, nodes := [head] + xs, (set x | x in xs) + {head};
    InsertBefore(head, subhistory, xs, 0);
    assert xs[..0] + [head] + xs[0..] == list;
    hide Linked;
    HeadOn(xs, head, c, nodes);
    FirstNext(list);
  }

  ghost predicate NextAt<V>(xs: seq<Node<V>>, k: nat)
    requires k < |xs|
    reads xs
  {
    && xs[k].next == (if k + 1 < |xs| then xs[k + 1] else null)
    && (k > 0 ==> xs[k].prev == xs[k - 1])
  }

  lemma LinkedAt<V>(xs: seq<Node<V>>)
    requires Linked(xs)
    ensures forall k: nat :: k < |xs| ==> NextAt(xs, k)
  {
  }

  lemma LinkedBehind<V>(head: Node<V>, xs: seq<Node<V>>)
    requires Linked([head] + xs)
    ensures forall k: nat :: k < |xs| ==> NextAt(xs, k)
  {
    var list := [head] + xs;
    forall k: nat | k < |xs| ensures NextAt(xs, k) {
      assert list[k + 1] == xs[k] && (k > 0 ==> list[k] == xs[k - 1]) && (k + 1 < |xs| ==> list[k + 2] == xs[k + 1]);
    }
  }

  lemma Start<V, S>(m: Model<S, V>, ops: seq<Op<V>>, head: Node<V>, c: seq<Node<V>>, list: seq<Node<V>>,
                    nodes: set<Node<V>>, hash: seq<Word> -> int, width: nat)
    requires Entries(c, ops) && Apart(head, c) && Owned(head, c, nodes) && Holds(list, head, c, {}) && Linked(list)
    ensures var t: Trail<V, S> := Trail([], [m.init], [list], [], []);
      && Running(m, ops, head, c, t, {}, 1) && Recorded(t, c, []) && Pointers(t, head, c, nodes)
      && Elems(t.ids) == {} && Cursor(list, 1, head.next)
    ensures CacheOf<S>(map[], hash, {}, width, {})
  {
    InitRunning(m, ops, head, c, list);
    ListOwned(list, head, c, {}, nodes);
    FirstNext(list);
  }

  /** Asks the cache about linearizing operation `id` next. */
  method Visited<S(==)>(linearized: array<Word>, id: nat, newState: S, hash: seq<Word> -> int,
                        cache: map<int, seq<CacheEntry<S>>>, ghost owned: set<array<Word>>,
                        ghost seen: set<(set<nat>, S)>)
    returns (newLinearized: array<Word>, found: bool)
    requires id < 64 * linearized.Length && CacheOf(cache, hash, owned, linearized.Length, seen)
    ensures fresh(newLinearized) && newLinearized.Length == linearized.Length
    ensures Members(newLinearized[..]) == Members(linearized[..]) + {id}
    ensures found <==> (Members(linearized[..]) + {id}, newState) in seen
  {
    hide *;
    newLinearized := Clone(linearized);
    Set(newLinearized, id);
    found := CacheContains(cache, hash, CacheEntry(newLinearized, newState), owned, linearized.Length, seen);
  }

  /** Linearizes the call under the cursor: cache, calls stack, bitset and list follow. */
  method Choose<S, V>(model: Model<S, V>, head: Node<V>, entry: Node<V>, state: S, newState: S,
                      linearized: array<Word>, newLinearized: array<Word>, hash: seq<Word> -> int,
                      cache: map<int, seq<CacheEntry<S>>>, calls: seq<CallsEntry<V, S>>,
                      ghost t: Trail<V, S>, ghost seen: set<(set<nat>, S)>, ghost owned: set<array<Word>>,
                      ghost nodes: set<Node<V>>, ghost c: seq<Node<V>>, ghost ops: seq<Op<V>>, ghost cur: nat,
                      ghost b: nat)
    returns (cache': map<int, seq<CacheEntry<S>>>, calls': seq<CallsEntry<V, S>>,
             ghost t': Trail<V, S>, ghost seen': set<(set<nat>, S)>, ghost owned': set<array<Word>>)
    requires DistinctTimes(ops) && Entries(c, ops) && Apart(head, c) && Pointers(t, head, c, nodes)
    requires |t.at| == |t.ret| == |t.ids| && |t.states| == |t.lists| == |t.ids| + 1
    requires Running(model, ops, head, c, t, seen, cur) && Recorded(t, c, calls) && state == t.states[|t.ids|]
    requires 1 <= cur < b < |t.lists[|t.ids|]| && t.lists[|t.ids|][cur] == entry && t.lists[|t.ids|][b] == entry.partner
    requires entry.id < |c| == |ops| && entry.id !in t.ids && entry == c[entry.id] &&
      EntryOf(entry, entry.id, ops[entry.id])
    requires model.step(state, entry.value, entry.partner.value) == (true, newState)
    requires entry.id < 64 * linearized.Length && linearized.Length == newLinearized.Length
    requires Members(linearized[..]) == Elems(t.ids) && Members(newLinearized[..]) == Elems(t.ids) + {entry.id}
    requires (Members(newLinearized[..]), newState) !in seen
    requires CacheOf(cache, hash, owned, linearized.Length, seen) && linearized !in owned && linearized != newLinearized
    modifies nodes, linearized
    ensures |t'.at| == |t'.ret| == |t'.ids| && |t'.states| == |t'.lists| == |t'.ids| + 1 && t'.lists[0] == t.lists[0]
    ensures Running(model, ops, head, c, t', seen', 1) && Recorded(t', c, calls') && newState == t'.states[|t'.ids|]
    ensures Pointers(t', head, c, nodes)
    ensures Members(linearized[..]) == Elems(t'.ids)
    ensures CacheOf(cache', hash, owned', linearized.Length, seen') && owned' == owned + {newLinearized}
    ensures |Universe(model, ops, |ops|) - seen'| < |Universe(model, ops, |ops|) - seen|
  {
    hide *;
    var i := entry.id;
    TakeCall(model, ops, head, c, t, seen, cur, i, b, newState);
    PushRecorded(t, c, calls, i, newState, cur, b);
    CacheInsert(cache, hash, CacheEntry(newLinearized, newState), owned, linearized.Length, seen);
    var h := hash(newLinearized[..]);
    cache' := cache[h := Bucket(cache, h) + [CacheEntry(newLinearized, newState)]];
    calls' := calls + [CallsEntry(entry, state)];
    seen', owned' := seen + {(Elems(t.ids) + {i}, newState)}, owned + {newLinearized};
    t' := t.Push(i, newState, cur, b);
    Set(linearized, i);
    LiftChoice(entry, t, head, c, ops, nodes, newState, cur, b);
  }

  /** Takes back the latest choice and moves on behind it. */
  method Backtrack<S, V>(model: Model<S, V>, head: Node<V>, linearized: array<Word>, calls: seq<CallsEntry<V, S>>,
                         ghost t: Trail<V, S>, ghost seen: set<(set<nat>, S)>, ghost nodes: set<Node<V>>,
                         ghost c: seq<Node<V>>, ghost ops: seq<Op<V>>, ghost cur: nat)
    returns (entry: Node?<V>, state: S, calls': seq<CallsEntry<V, S>>, ghost t': Trail<V, S>, ghost cur': nat)
    requires DistinctTimes(ops) && Entries(c, ops) && Apart(head, c) && Owned(head, c, nodes) &&
      Pointers(t, head, c, nodes)
    requires |calls| == |t.ids| > 0 && |t.at| == |t.ret| == |t.ids| && |t.states| == |t.lists| == |t.ids| + 1
    requires Running(model, ops, head, c, t, seen, cur) && Recorded(t, c, calls)
    requires !Completable(model, ops, Elems(t.ids), t.states[|t.ids|])
    requires |ops| <= 64 * linearized.Length && Members(linearized[..]) == Elems(t.ids)
    modifies nodes, linearized
    ensures |t'.at| == |t'.ret| == |t'.ids| && |t'.states| == |t'.lists| == |t'.ids| + 1 && |t'.ids| < |t.ids|
    ensures t'.lists[0] == t.lists[0]
    ensures Running(model, ops, head, c, t', seen, cur') && Recorded(t', c, calls') && state == t'.states[|t'.ids|]
    ensures Pointers(t', head, c, nodes) && Cursor(t'.lists[|t'.ids|], cur', entry)
    ensures Members(linearized[..]) == Elems(t'.ids)
  {
    hide *;
    Facts(model, ops, head, c, t, seen, cur, calls);
    PopRunning(model, ops, head, c, t, seen, cur);
    PopRecorded(t, head, c, ops, calls);
    var callsTop := calls[|calls| - 1];
    var entry' := callsTop.entry;
    state := callsTop.state;
    Clear(linearized, entry'.id);
    calls' := calls[..|calls| - 1];
    UnliftChoice(entry', t, head, c, ops, nodes);
    t', cur' := t.Pop(), t.at[|t.ids| - 1] + 1;
    CursorBehind(t', head, c, nodes, cur' - 1);
    entry := entry'.next;
  }

  /** The loop of the check, on the list with its head in place. */
  method Explore<S(==), V>(model: Model<S, V>, head: Node<V>, first: Node?<V>, n: nat, hash: seq<Word> -> int,
                           ghost list: seq<Node<V>>, ghost nodes: set<Node<V>>, ghost c: seq<Node<V>>,
                           ghost ops: seq<Op<V>>)
    returns (ok: bool)
    requires DistinctTimes(ops) && Entries(c, ops) && n == |ops|
    requires Apart(head, c) && Owned(head, c, nodes)
    requires Holds(list, head, c, {}) && Linked(list) && first == head.next
    modifies nodes
    ensures ok <==> Linearizable(model, ops)
    ensures !ok ==> Linked(list)
  {
    hide *;
    var linearized := NewBitset(n);
    var cache: map<int, seq<CacheEntry<S>>> := map[];
    var calls: seq<CallsEntry<V, S>> := [];
    var state := model.init;
    var entry := first;

    ghost var t := Trail([], [state], [list], [], []);
    ghost var seen: set<(set<nat>, S)> := {};
    ghost var owned: set<array<Word>> := {};
    ghost var cur := 1;
    Start(model, ops, head, c, list, nodes, hash, linearized.Length);

    while head.next != null
      invariant |t.at| == |t.ret| == |t.ids| && |t.states| == |t.lists| == |t.ids| + 1
      invariant Running(model, ops, head, c, t, seen, cur)
      invariant Recorded(t, c, calls) && state == t.states[|t.ids|]
      invariant Pointers(t, head, c, nodes) && t.lists[0] == list
      invariant Cursor(t.lists[|t.ids|], cur, entry)
      invariant fresh(linearized) && n <= 64 * linearized.Length && Members(linearized[..]) == Elems(t.ids)
      invariant CacheOf(cache, hash, owned, linearized.Length, seen)
      invariant linearized !in owned
      decreases |Universe(model, ops, |ops|) - seen|, |t.ids|, |t.lists[|t.ids|]| - cur
    {
      CursorOnEntry(t, head, c, nodes, cur, entry);
      Facts(model, ops, head, c, t, seen, cur, calls);
      if entry.partner != null {
        ghost var b := AtCall(model, ops, head, c, t, seen, cur);
        var (ok, newState) := model.step(state, entry.value, entry.partner.value);
        if ok {
          var newLinearized, found := Visited(linearized, entry.id, newState, hash, cache, owned, seen);
          if !found {
            cache, calls, t, seen, owned := Choose(model, head, entry, state, newState, linearized, newLinearized, hash,
                                                   cache, calls, t, seen, owned, nodes, c, ops, cur, b);
            state, cur := newState, 1;
            CursorAtFront(t, head, c, nodes);
            entry := head.next;
          } else {
            SkipCall(model, ops, head, c, t, seen, cur);
            entry := entry.next;
            cur := cur + 1;
          }
        } else {
          SkipCall(model, ops, head, c, t, seen, cur);
          entry := entry.next;
          cur := cur + 1;
        }
      } else {
        TopExhausted(model, ops, head, c, t, seen, cur);
        if |calls| == 0 {
          BottomExhausted(model, ops, t, head, c, nodes);
          return false;
        }
        entry, state, calls, t, cur := Backtrack(model, head, linearized, calls, t, seen, nodes, c, ops, cur);
      }
    }
    CursorOnEntry(t, head, c, nodes, cur, entry);
    AllLifted(model, ops, head, c, t, seen, cur);
    return true;
  }

  lemma CursorAtFront<V, S>(t: Trail<V, S>, head: Node<V>, c: seq<Node<V>>, nodes: set<Node<V>>)
    requires Pointers(t, head, c, nodes)
    ensures Cursor(t.lists[|t.ids|], 1, head.next)
  {
    FirstNext(t.lists[|t.ids|]);
  }

  lemma CursorBehind<V, S>(t: Trail<V, S>, head: Node<V>, c: seq<Node<V>>, nodes: set<Node<V>>, k: nat)
    requires Pointers(t, head, c, nodes) && 1 <= k < |t.lists[|t.ids|]| - 1
    ensures Cursor(t.lists[|t.ids|], k + 1, t.lists[|t.ids|][k].next)
  {
    Ends(t.lists[|t.ids|], k);
  }

  lemma Facts<V, S>(m: Model<S, V>, ops: seq<Op<V>>, head: Node<V>, c: seq<Node<V>>,
                    t: Trail<V, S>, seen: set<(set<nat>, S)>, cur: nat, calls: seq<CallsEntry<V, S>>)
    requires Running(m, ops, head, c, t, seen, cur) && Recorded(t, c, calls) && Entries(c, ops)
    ensures t.Shaped(head, c) && |calls| == |t.ids| && |c| == |ops|
    ensures t.states[0] == m.init
  {
  }

  lemma PushRecorded<V, S>(t: Trail<V, S>, c: seq<Node<V>>, calls: seq<CallsEntry<V, S>>, i: nat, s: S, a: nat, b: nat)
    requires |t.at| == |t.ret| == |t.ids| && |t.states| == |t.lists| == |t.ids| + 1
    requires Recorded(t, c, calls) && i < |c| && a < b < |t.lists[|t.ids|]|
    ensures var t' := t.Push(i, s, a, b);
      && |t'.at| == |t'.ret| == |t'.ids| && |t'.states| == |t'.lists| == |t'.ids| + 1 && t'.lists[0] == t.lists[0]
      && Recorded(t', c, calls + [CallsEntry(c[i], t.states[|t.ids|])])
      && t'.states[|t'.ids|] == s && Elems(t'.ids) == Elems(t.ids) + {i}
  {
  }

  /** A call that the model rejects, or whose outcome is cached, is passed over. */
  lemma SkipCall<V, S>(m: Model<S, V>, ops: seq<Op<V>>, head: Node<V>, c: seq<Node<V>>,
                       t: Trail<V, S>, seen: set<(set<nat>, S)>, cur: nat)
    requires DistinctTimes(ops) && Entries(c, ops) && Running(m, ops, head, c, t, seen, cur)
    requires 1 <= cur < |t.lists[|t.ids|]| && t.lists[|t.ids|][cur].partner != null
    requires var n := t.lists[|t.ids|][cur];
      var (ok, s') := m.step(t.states[|t.ids|], n.value, n.partner.value);
      ok ==> (Elems(t.ids) + {n.id}, s') in seen
    ensures cur + 1 < |t.lists[|t.ids|]| && Running(m, ops, head, c, t, seen, cur + 1)
  {
    var b := AtCall(m, ops, head, c, t, seen, cur);
    var i := t.lists[|t.ids|][cur].id;
    hide Holds, Searching, Completable, Entries, DistinctTimes;
    if Next(m, ops, t.states[|t.ids|], i).0 {
      CachedIsHopeless(m, ops, t.ids, t.states, seen, Bound(t.lists[|t.ids|], cur), i);
    }
    AdvanceCursor(m, ops, head, c, t, seen, cur, i);
  }

  /** A call with an allowed and new outcome opens the next level. */
  lemma TakeCall<V, S>(m: Model<S, V>, ops: seq<Op<V>>, head: Node<V>, c: seq<Node<V>>,
                       t: Trail<V, S>, seen: set<(set<nat>, S)>, cur: nat, i: nat, b: nat, s': S)
    requires DistinctTimes(ops) && Entries(c, ops) && Running(m, ops, head, c, t, seen, cur)
    requires 1 <= cur < b < |t.lists[|t.ids|]| && i < |c| == |ops| && i !in t.ids
    requires t.lists[|t.ids|][cur] == c[i] && t.lists[|t.ids|][b] == c[i].partner && EntryOf(c[i], i, ops[i])
    requires m.step(t.states[|t.ids|], c[i].value, c[i].partner.value) == (true, s')
    requires (Elems(t.ids) + {i}, s') !in seen
    ensures Running(m, ops, head, c, t.Push(i, s', cur, b), seen + {(Elems(t.ids) + {i}, s')}, 1)
    ensures |Universe(m, ops, |ops|) - (seen + {(Elems(t.ids) + {i}, s')})| < |Universe(m, ops, |ops|) - seen|
  {
    assert Next(m, ops, t.states[|t.ids|], i) == (true, s');
    assert t.Shaped(head, c);
    hide *;
    PushRunning(m, ops, head, c, t, seen, cur, i, b);
    PushMeasure(m, ops, head, c, t.Push(i, s', cur, b), seen, (Elems(t.ids) + {i}, s'), 1);
  }

  /** What backtracking reads off the calls stack. */
  lemma PopRecorded<V, S>(t: Trail<V, S>, head: Node<V>, c: seq<Node<V>>, ops: seq<Op<V>>, calls: seq<CallsEntry<V, S>>)
    requires Entries(c, ops) && t.Shaped(head, c) && Recorded(t, c, calls) && |t.ids| > 0
    ensures var d := |t.ids| - 1; var t' := t.Pop(); var i := t.ids[d];
      && |t'.at| == |t'.ret| == |t'.ids| && |t'.states| == |t'.lists| == |t'.ids| + 1 && t'.lists[0] == t.lists[0]
      && |calls| == d + 1 && i < |c| == |ops| && calls[d] == CallsEntry(c[i], t.states[d]) && c[i].id == i
      && Recorded(t', c, calls[..d]) && t'.states[|t'.ids|] == t.states[d] && |t'.ids| == d
      && Elems(t'.ids) == Elems(t.ids) - {i}
      && 1 <= t.at[d] < |t'.lists[|t'.ids|]| - 1 && t'.lists[|t'.ids|][t.at[d]] == c[i]
  {
    hide Holds, Without;
    AtPop(t, head, c, ops);
  }

  /** With nothing left to take back the answer is no, and the list is as it was. */
  lemma BottomExhausted<V, S>(m: Model<S, V>, ops: seq<Op<V>>, t: Trail<V, S>, head: Node<V>, c: seq<Node<V>>,
                              nodes: set<Node<V>>)
    requires |t.ids| == 0 && |t.states| == 1 && t.states[0] == m.init && Pointers(t, head, c, nodes)
    requires !Completable(m, ops, Elems(t.ids), t.states[|t.ids|])
    ensures !Linearizable(m, ops) && Linked(t.lists[0])
  {
    assert Elems(t.ids) == {};
  }

  lemma CursorOnEntry<V, S>(t: Trail<V, S>, head: Node<V>, c: seq<Node<V>>, nodes: set<Node<V>>, cur: nat,
                            entry: Node?<V>)
    requires Pointers(t, head, c, nodes) && Cursor(t.lists[|t.ids|], cur, entry)
    ensures head.next == null <==> |t.lists[|t.ids|]| == 1
    ensures head.next != null ==> 1 <= cur < |t.lists[|t.ids|]| && entry == t.lists[|t.ids|][cur]
    ensures head.next != null ==> Cursor(t.lists[|t.ids|], 1, head.next)
    ensures head.next != null && cur + 1 < |t.lists[|t.ids|]| ==> Cursor(t.lists[|t.ids|], cur + 1, entry.next)
  {
    FirstNext(t.lists[|t.ids|]);
    if head.next != null {
      Ends(t.lists[|t.ids|], cur);
    }
  }
}
