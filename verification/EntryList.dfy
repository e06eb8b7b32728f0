/**
  The doubly linked list of call and return entries, and the two operations
  that take an operation's pair of entries out and put it back.
 */
module EntryList {

  class Node<V> {
    const value: V
    /** The return entry, on a call entry; null on a return entry. */
    const partner: Node?<V>
    const id: nat
    /** Where the entry stands in the original history. */
    ghost const pos: int
    var next: Node?<V>
    var prev: Node?<V>

    constructor (value: V, partner: Node?<V>, id: nat, ghost pos: int)
      ensures this.value == value && this.partner == partner && this.id == id && this.pos == pos
      ensures next == null && prev == null
    {
      this.value, this.partner, this.id, this.pos := value, partner, id, pos;
      next, prev := null, null;
    }
  }

  /** `xs` is a proper doubly linked list, front to back. */
  ghost predicate Linked<V>(xs: seq<Node<V>>)
    reads xs
  {
    && (forall i, j :: 0 <= i < j < |xs| ==> xs[i] != xs[j])
    && (forall i {:trigger xs[i].next} :: 0 <= i < |xs| ==> xs[i].next == if i + 1 < |xs| then xs[i + 1] else null)
    && (forall i {:trigger xs[i].prev} :: 0 <= i < |xs| ==> xs[i].prev == if i > 0 then xs[i - 1] else null)
  }

  ghost function Drop<T>(xs: seq<T>, a: nat): (ys: seq<T>)
    requires a < |xs|
  {
    xs[..a] + xs[a + 1..]
  }

  /** `xs` without positions `a` and `b`. */
  ghost function Without<T>(xs: seq<T>, a: nat, b: nat): (ys: seq<T>)
    requires a < b < |xs|
  {
    Drop(Drop(xs, a), b - 1)
  }

  /** What the pointers of a lifted pair remember of the list `xs` it was lifted from. */
  ghost predicate Parked<V>(entry: Node<V>, xs: seq<Node<V>>, a: nat, b: nat)
    reads entry, entry.partner
  {
    && 0 < a < b < |xs| && xs[a] == entry && entry.partner != null && xs[b] == entry.partner
    && entry.prev == xs[a - 1] && entry.next == xs[a + 1]
    && entry.partner.prev == (if b == a + 1 then xs[a - 1] else xs[b - 1])
    && entry.partner.next == (if b + 1 < |xs| then xs[b + 1] else null)
  }

  /** Inserts `n` before the entry `mark`; with no mark, `n` stays alone. */
  method InsertBefore<V>(n: Node<V>, mark: Node?<V>, ghost xs: seq<Node<V>>, ghost i: nat)
    requires Linked(xs) && n !in xs && n.next == null && n.prev == null
    requires if mark == null then xs == [] && i == 0 else i < |xs| && xs[i] == mark
    modifies n, xs
    ensures Linked(xs[..i] + [n] + xs[i..])
  {
    if mark != null {
      var beforeMark := mark.prev;
      mark.prev := n;
      n.next := mark;
      if beforeMark != null {
        n.prev := beforeMark;
        beforeMark.next := n;
      }
    }
  }

  method Length<V>(n: Node?<V>, ghost xs: seq<Node<V>>) returns (l: nat)
    requires Linked(xs)
    requires n == if xs == [] then null else xs[0]
    ensures l == |xs|
  {
    l := 0;
    var n := n;
    while n != null
      invariant l <= |xs| && n == if l < |xs| then xs[l] else null
      decreases |xs| - l
    {
      n := n.next;
      l := l + 1;
    }
  }

  /** Takes `xs[i]` out of the list; its own pointers are left as they were. */
  method Unlink<V>(n: Node<V>, ghost xs: seq<Node<V>>, ghost i: nat)
    requires Linked(xs) && 0 < i < |xs| && xs[i] == n
    modifies n.prev, n.next
    ensures Linked(Drop(xs, i))
  {
    n.prev.next := n.next;
    if n.next != null {
      n.next.prev := n.prev;
    }
    ghost var ys := Drop(xs, i);
    assert forall k :: 0 <= k < |ys| ==> ys[k] == if k < i then xs[k] else xs[k + 1];
  }

  /** Puts `n` back where its pointers say it was. */
  method Relink<V>(n: Node<V>, ghost xs: seq<Node<V>>, ghost i: nat)
    requires 0 < i < |xs| && xs[i] == n && n !in Drop(xs, i)
    requires Linked(Drop(xs, i))
    requires n.prev == xs[i - 1] && n.next == if i + 1 < |xs| then xs[i + 1] else null
    modifies n.prev, n.next
    ensures Linked(xs)
  {
    ghost var ys := Drop(xs, i);
    assert forall k :: 0 <= k < i ==> xs[k] == ys[k] && xs[k] != n;
    assert forall k :: i < k < |xs| ==> xs[k] == ys[k - 1] && xs[k] != n;
    n.prev.next := n;
    if n.next != null {
      n.next.prev := n;
    }
    forall k | 0 <= k < |xs|
      ensures xs[k].next == if k + 1 < |xs| then xs[k + 1] else null
      ensures xs[k].prev == if k > 0 then xs[k - 1] else null
    {
    }
  }

  lemma DropIndex<T>(xs: seq<T>, a: nat)
    requires a < |xs|
    ensures |Drop(xs, a)| == |xs| - 1
    ensures forall k :: 0 <= k < |xs| - 1 ==> Drop(xs, a)[k] == xs[if k < a then k else k + 1]
  {
  }

  lemma WithoutIndex<T>(xs: seq<T>, a: nat, b: nat, k: nat)
    requires a < b < |xs| && k < |xs| - 2
    ensures |Without(xs, a, b)| == |xs| - 2
    ensures Without(xs, a, b)[k] == xs[if k < a then k else if k < b - 1 then k + 1 else k + 2]
  {
    hide Drop;
    DropIndex(xs, a);
    DropIndex(Drop(xs, a), b - 1);
  }

  lemma Ends<V>(xs: seq<Node<V>>, a: nat)
    requires Linked(xs) && 0 < a < |xs|
    ensures xs[a].prev == xs[a - 1] && xs[a].next == if a + 1 < |xs| then xs[a + 1] else null
    ensures forall k :: 0 <= k < |xs| && k != a ==> xs[k] != xs[a]
  {
  }

  method LiftReturn<V>(entry: Node<V>, ghost xs: seq<Node<V>>, ghost a: nat, ghost b: nat)
    requires 0 < a < b < |xs| && xs[a] == entry && xs[b] == entry.partner
    requires Linked(Drop(xs, a)) && entry !in Drop(xs, a)
    requires entry.prev == xs[a - 1] && entry.next == xs[a + 1]
    modifies entry.partner.prev, entry.partner.next
    ensures Linked(Without(xs, a, b))
    ensures Parked(entry, xs, a, b)
  {
    hide Linked, Drop;
    DropIndex(xs, a);
    Ends(Drop(xs, a), b - 1);
    Unlink(entry.partner, Drop(xs, a), b - 1);
  }

  /** Takes a call entry and its return entry out of the list. */
  method Lift<V>(entry: Node<V>, ghost xs: seq<Node<V>>, ghost a: nat, ghost b: nat)
    requires Linked(xs)
    requires 0 < a < b < |xs| && xs[a] == entry && xs[b] == entry.partner
    modifies xs
    ensures Linked(Without(xs, a, b))
    ensures Parked(entry, xs, a, b)
  {
    DropIndex(xs, a);
    Ends(xs, a);
    Unlink(entry, xs, a);
    Ends(Drop(xs, a), b - 1);
    LiftReturn(entry, xs, a, b);
  }

  /** Undoes the latest Lift not yet undone. */
  method Unlift<V>(entry: Node<V>, ghost xs: seq<Node<V>>, ghost a: nat, ghost b: nat)
    requires Parked(entry, xs, a, b)
    requires Linked(Without(xs, a, b))
    requires forall i, j :: 0 <= i < j < |xs| ==> xs[i] != xs[j]
    modifies xs
    ensures Linked(xs)
  {
    Relink(entry.partner, Drop(xs, a), b - 1);
    Relink(entry, xs, a);
  }
}
