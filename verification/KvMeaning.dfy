/**
  What the key/value model accepts, said of a history and an order alone: every get
  returns the value last put under its key, followed by what was appended since.
 */
module KvMeaning {
  import opened Linearizability
  import opened KvModel

  ghost predicate IsGet(op: Op<Value>) { op.input.KvInput? && op.input.op == 0 }

  ghost predicate Puts(op: Op<Value>, key: string) { op.input.KvInput? && op.input.op == 1 && op.input.key == key }

  ghost predicate Appends(op: Op<Value>, key: string) { op.input.KvInput? && op.input.op >= 2 && op.input.key == key }

  ghost predicate InRange(history: seq<Op<Value>>, order: seq<nat>) {
    forall i :: 0 <= i < |order| ==> order[i] < |history|
  }

  /** Place `j` of the order is the last of the first `n` that puts `key`, or -1 if none does. */
  ghost predicate LastPut(history: seq<Op<Value>>, order: seq<nat>, n: nat, key: string, j: int)
    requires InRange(history, order) && n <= |order|
  {
    && -1 <= j < n && (j >= 0 ==> Puts(history[order[j]], key))
    && forall i :: j < i < n ==> !Puts(history[order[i]], key)
  }

  /** What the places `lo` to `hi` of the order append to `key`, in order. */
  ghost function Appended(history: seq<Op<Value>>, order: seq<nat>, lo: nat, hi: nat, key: string): (v: string)
    requires InRange(history, order) && lo <= hi <= |order|
  {
    if lo == hi then "" else
    Appended(history, order, lo, hi - 1, key)
    + if Appends(history[order[hi - 1]], key) then history[order[hi - 1]].input.value else ""
  }

  /** The value under `key` after the first `n` places, the last put being at `j`. */
  ghost function Stored(history: seq<Op<Value>>, order: seq<nat>, n: nat, key: string, j: int): (v: string)
    requires InRange(history, order) && n <= |order| && LastPut(history, order, n, key, j)
  {
    (if j < 0 then "" else history[order[j]].input.value) + Appended(history, order, j + 1, n, key)
  }

  ghost predicate Returns(history: seq<Op<Value>>, order: seq<nat>, n: nat, key: string, v: string)
    requires InRange(history, order) && n <= |order|
  {
    exists j :: LastPut(history, order, n, key, j) && v == Stored(history, order, n, key, j)
  }

  /** A get returns what is stored under its key; every operation is a key/value operation. */
  ghost predicate Explains(history: seq<Op<Value>>, order: seq<nat>, n: nat)
    requires InRange(history, order) && n < |order|
  {
    var op := history[order[n]];
    && op.input.KvInput? && op.output.KvOutput?
    && (IsGet(op) ==> Returns(history, order, n, op.input.key, op.output.value))
  }

  ghost predicate ReadsLatest(history: seq<Op<Value>>, order: seq<nat>) {
    InRange(history, order) && forall n :: 0 <= n < |order| ==> Explains(history, order, n)
  }

  lemma {:induction false} SomeLastPut(history: seq<Op<Value>>, order: seq<nat>, n: nat, key: string) returns (j: int)
    requires InRange(history, order) && n <= |order|
    ensures LastPut(history, order, n, key, j)
    decreases n
  {
    if n == 0 {
      j := -1;
    } else if Puts(history[order[n - 1]], key) {
      j := n - 1;
    } else {
      j := SomeLastPut(history, order, n - 1, key);
    }
  }

  // ---- the store holds what is stored

  ghost function Changed(v: string, op: Op<Value>, key: string): (v': string) {
    if Puts(op, key) then op.input.value else if Appends(op, key) then v + op.input.value else v
  }

  lemma StoreStepMeans(store: map<string, string>, op: Op<Value>, key: string)
    ensures var (ok, store') := StoreStep(store, op.input, op.output);
      && (ok <==> op.input.KvInput? && op.output.KvOutput?
                  && (IsGet(op) ==> op.output.value == Lookup(store, op.input.key)))
      && (ok ==> Lookup(store', key) == Changed(Lookup(store, key), op, key))
  {
  }

  /** One more place: where the last put is then, and what is stored then. */
  lemma StoredNext(history: seq<Op<Value>>, order: seq<nat>, n: nat, key: string, j: int) returns (i: int)
    requires InRange(history, order) && n < |order| && LastPut(history, order, n + 1, key, j)
    ensures LastPut(history, order, n, key, i)
    ensures Stored(history, order, n + 1, key, j) == Changed(Stored(history, order, n, key, i), history[order[n]], key)
  {
    if j == n {
      i := SomeLastPut(history, order, n, key);
      assert Appended(history, order, n + 1, n + 1, key) == "";
    } else {
      i := j;
    }
  }

  /** After an accepted order the store holds, key by key, what is stored. */
  lemma {:induction false} StoreHolds(history: seq<Op<Value>>, order: seq<nat>, n: nat, key: string, j: int)
    requires InRange(history, order) && n <= |order| && LastPut(history, order, n, key, j)
    requires Accepted(STORE, history, order[..n], map[])
    ensures Lookup(After(STORE, history, order[..n], map[]), key) == Stored(history, order, n, key, j)
    decreases n
  {
    if n > 0 {
      var front, x := order[..n - 1], order[n - 1];
      assert order[..n] == front + [x];
      AcceptedAppend(STORE, history, front, x, map[]);
      var i := StoredNext(history, order, n - 1, key, j);
      StoreStepMeans(After(STORE, history, front, map[]), history[x], key);
      hide Accepted, After, LastPut, Stored, StoreStep;
      StoreHolds(history, order, n - 1, key, i);
    }
  }

  lemma NextExplained(history: seq<Op<Value>>, order: seq<nat>, n: nat)
    requires InRange(history, order) && n < |order| && Accepted(STORE, history, order[..n], map[])
    ensures Accepted(STORE, history, order[..n + 1], map[]) <==> Explains(history, order, n)
  {
    var op := history[order[n]];
    assert order[..n + 1] == order[..n] + [order[n]];
    AcceptedAppend(STORE, history, order[..n], order[n], map[]);
    hide Accepted, After, LastPut, Stored, StoreStep;
    StoreStepMeans(After(STORE, history, order[..n], map[]), op, KeyOf(op));
    forall j | LastPut(history, order, n, KeyOf(op), j)
      ensures Lookup(After(STORE, history, order[..n], map[]), KeyOf(op)) == Stored(history, order, n, KeyOf(op), j)
    {
      StoreHolds(history, order, n, KeyOf(op), j);
    }
    var j := SomeLastPut(history, order, n, KeyOf(op));
  }

  lemma NothingAccepted(history: seq<Op<Value>>)
    ensures Accepted(STORE, history, [], map[])
  {
  }

  lemma PrefixAccepted(history: seq<Op<Value>>, order: seq<nat>, n: nat)
    requires 0 < n <= |order| && Accepted(STORE, history, order[..n], map[])
    ensures Accepted(STORE, history, order[..n - 1], map[])
  {
    hide Accepted;
    assert order[..n] == order[..n - 1] + [order[n - 1]];
    AcceptedAppend(STORE, history, order[..n - 1], order[n - 1], map[]);
  }

  lemma {:induction false} PrefixMeans(history: seq<Op<Value>>, order: seq<nat>, n: nat)
    requires InRange(history, order) && n <= |order|
    ensures Accepted(STORE, history, order[..n], map[]) <==> forall i: nat :: i < n ==> Explains(history, order, i)
    decreases n
  {
    hide Explains, Accepted;
    if n == 0 {
      NothingAccepted(history);
    } else {
      PrefixMeans(history, order, n - 1);
      if Accepted(STORE, history, order[..n], map[]) {
        PrefixAccepted(history, order, n);
      }
      if Accepted(STORE, history, order[..n - 1], map[]) {
        NextExplained(history, order, n - 1);
      }
    }
  }

  lemma {:induction false} AcceptedInRange<S, V>(m: Model<S, V>, ops: seq<Op<V>>, order: seq<nat>, s: S)
    requires Accepted(m, ops, order, s)
    ensures forall i :: 0 <= i < |order| ==> order[i] < |ops|
  {
    if order != [] {
      AcceptedInRange(m, ops, order[1..], m.step(s, ops[order[0]].input, ops[order[0]].output).1);
    }
  }

  /** An order is accepted by the store if and only if every get in it returns the value last put under its key,
      or nothing if there is none, followed by the values appended since. */
  lemma AcceptedMeans(history: seq<Op<Value>>, order: seq<nat>)
    ensures Accepted(STORE, history, order, map[]) <==> ReadsLatest(history, order)
  {
    assert order[..|order|] == order;
    hide Explains;
    if Accepted(STORE, history, order, map[]) {
      AcceptedInRange(STORE, history, order, map[]);
    }
    if InRange(history, order) {
      PrefixMeans(history, order, |order|);
    }
  }

  /** Some order of all operations respects real time and lets every get return the latest value. */
  ghost predicate Serializable(history: seq<Op<Value>>) {
    exists order: seq<nat> ::
      Covers(|history|, {}, order) && RespectsRealTime(history, order) && ReadsLatest(history, order)
  }

  lemma LinearizableMeans(history: seq<Op<Value>>)
    ensures Linearizable(STORE, history) <==> Serializable(history)
  {
    hide Accepted, ReadsLatest, Covers, RespectsRealTime;
    forall order: seq<nat> ensures Accepted(STORE, history, order, map[]) <==> ReadsLatest(history, order) {
      AcceptedMeans(history, order);
    }
    if Linearizable(STORE, history) {
      var order: seq<nat> :| Completes(STORE, history, {}, map[], order);
      assert Covers(|history|, {}, order) && RespectsRealTime(history, order) && ReadsLatest(history, order);
    }
    if Serializable(history) {
      var order: seq<nat> :|
        Covers(|history|, {}, order) && RespectsRealTime(history, order) && ReadsLatest(history, order);
      assert Completes(STORE, history, {}, map[], order);
    }
  }
}
