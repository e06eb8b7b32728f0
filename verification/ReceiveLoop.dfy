/**
  How the whole check waits for its parts. Every part is checked in a goroutine of its
  own, so the verdicts arrive in any order; the loop looks at whether it is done only
  after it has received something.
 */
module ReceiveLoop {
  import opened Linearizability
  import Kv = KvModel
  import opened CheckOperations

  /** `running` are the parts whose verdict was not received yet. */
  datatype Loop = Loop(running: set<nat>, count: nat, ok: bool, ended: bool)

  datatype Event = Result(part: nat) | Timeout

  ghost function Below(n: nat): (r: set<nat>)
    ensures |r| == n && forall i: nat :: i in r <==> i < n
  {
    if n == 0 then {} else Below(n - 1) + {n - 1}
  }

  ghost function Start(verdicts: seq<bool>): (s: Loop) { Loop(Below(|verdicts|), 0, true, false) }

  /** A verdict comes from a running part, a timeout only if one was asked for. */
  ghost predicate Possible(verdicts: seq<bool>, timed: bool, s: Loop, e: Event) {
    !s.ended && match e
    case Result(part) => part < |verdicts| && part in s.running
    case Timeout => timed
  }

  ghost function Apply(verdicts: seq<bool>, timed: bool, s: Loop, e: Event): (s': Loop)
    requires Possible(verdicts, timed, s, e)
  {
    match e
    case Result(part) =>
      var running, ok := s.running - {part}, s.ok && verdicts[part];
      if !ok then Loop(running, s.count, false, true)
      else Loop(running, s.count + 1, true, s.count + 1 >= |verdicts|)
    case Timeout => s.(ended := true)
  }

  ghost predicate Leads(verdicts: seq<bool>, timed: bool, s: Loop, es: seq<Event>, s': Loop)
    decreases |es|
  {
    if es == [] then s == s' else
    Possible(verdicts, timed, s, es[0]) && Leads(verdicts, timed, Apply(verdicts, timed, s, es[0]), es[1..], s')
  }

  /** The answer so far is that of the verdicts received; the loop goes on while there are more to come. */
  ghost predicate Inv(verdicts: seq<bool>, s: Loop) {
    && (forall i :: i in s.running ==> i < |verdicts|)
    && (s.ok ==> s.count + |s.running| == |verdicts|)
    && (s.ok <==> forall i: nat :: i < |verdicts| && i !in s.running ==> verdicts[i])
    && (!s.ended ==> s.ok && (s.count < |verdicts| || verdicts == []))
  }

  lemma StartInv(verdicts: seq<bool>)
    ensures Inv(verdicts, Start(verdicts))
  {
  }

  lemma {:induction false} RunInv(verdicts: seq<bool>, timed: bool, s: Loop, es: seq<Event>, s': Loop)
    requires Inv(verdicts, s) && Leads(verdicts, timed, s, es, s')
    ensures Inv(verdicts, s') && |es| <= |s.running| + 1
    ensures s'.ended && !s.ended && Timeout !in es ==> !s'.ok || s'.running == {}
    ensures s'.ended && !s.ended && Timeout !in es ==> s.running != {}
    decreases |es|
  {
    if es != [] {
      var s1 := Apply(verdicts, timed, s, es[0]);
      assert Inv(verdicts, s1);
      if s1.ended {
        assert es[1..] == [];
      } else {
        RunInv(verdicts, timed, s1, es[1..], s');
      }
    }
  }

  /** A loop that has not ended can go on exactly if there are parts or a timeout. */
  lemma CanGoOn(verdicts: seq<bool>, timed: bool, s: Loop)
    requires Inv(verdicts, s) && !s.ended
    ensures (exists e :: Possible(verdicts, timed, s, e)) <==> verdicts != [] || timed
  {
    if timed {
      assert Possible(verdicts, timed, s, Timeout);
    } else if verdicts != [] {
      assert s.running != {};
      var part :| part in s.running;
      assert Possible(verdicts, timed, s, Result(part));
    }
  }

  /** As long as there are parts or a timeout, every run can be brought to an end. */
  lemma {:induction false} CanEnd(verdicts: seq<bool>, timed: bool, s: Loop) returns (es: seq<Event>, s': Loop)
    requires Inv(verdicts, s) && (verdicts != [] || timed)
    ensures Leads(verdicts, timed, s, es, s') && s'.ended
    decreases |s.running| + if s.ended then 0 else 1
  {
    if s.ended {
      return [], s;
    }
    CanGoOn(verdicts, timed, s);
    var e :| Possible(verdicts, timed, s, e);
    var s1 := Apply(verdicts, timed, s, e);
    RunInv(verdicts, timed, s, [e], s1);
    var rest;
    rest, s' := CanEnd(verdicts, timed, s1);
    es := [e] + rest;
    assert es[1..] == rest;
  }

  ghost predicate Returns(verdicts: seq<bool>, timed: bool) {
    exists es, s :: Leads(verdicts, timed, Start(verdicts), es, s) && s.ended
  }

  /** The loop comes to an end at all if and only if there is a part, or a timeout. */
  lemma Ends(verdicts: seq<bool>, timed: bool)
    ensures Returns(verdicts, timed) <==> verdicts != [] || timed
  {
    StartInv(verdicts);
    if verdicts != [] || timed {
      var es, s := CanEnd(verdicts, timed, Start(verdicts));
    } else {
      forall es, s | Leads(verdicts, timed, Start(verdicts), es, s) ensures !s.ended {
        if es != [] {
          CanGoOn(verdicts, timed, Start(verdicts));
        }
      }
    }
  }

  /** However the verdicts arrive: a no is right, and an answer that did not come from the timeout is theirs. */
  lemma AnyArrival(verdicts: seq<bool>, timed: bool, es: seq<Event>, s: Loop)
    requires Leads(verdicts, timed, Start(verdicts), es, s) && s.ended
    ensures !s.ok ==> false in verdicts
    ensures Timeout !in es ==> verdicts != [] && (s.ok <==> false !in verdicts)
    ensures |es| <= |verdicts| + 1
  {
    StartInv(verdicts);
    RunInv(verdicts, timed, Start(verdicts), es, s);
  }

  // ---- histories

  /** No operations, no keys, no parts. */
  lemma NoParts(history: seq<Op<Kv.Value>>, keys: seq<string>, parts: seq<seq<Op<Kv.Value>>>)
    requires Partitions(history, keys, parts)
    ensures parts == [] <==> history == []
  {
    assert history != [] ==> Kv.KeyOf(history[0]) in Kv.KeysOf(history);
    assert keys != [] ==> keys[0] in Kv.KeysOf(history);
  }

  /** The empty history: nothing ever happens. */
  lemma EmptyHistoryWaits()
    ensures Partitions([], [], []) && !Returns([], false) && forall e :: !Possible([], false, Start([]), e)
  {
    NoKeys();
    Ends([], false);
    StartInv([]);
    CanGoOn([], false, Start([]));
  }

  lemma NoKeys()
    ensures Partitions([], [], [])
  {
    assert Kv.KeysOf([]) == {};
  }

  /** The verdict of every part. */
  ghost predicate Verdicts(parts: seq<seq<Op<Kv.Value>>>, verdicts: seq<bool>) {
    |verdicts| == |parts| && forall i :: 0 <= i < |parts| ==> (verdicts[i] <==> Linearizable(Kv.SINGLE_KEY, parts[i]))
  }

  /** Without a timeout the check of a key/value history returns if and only if the history is not empty, and
      then says whether it is linearizable; with a timeout it always returns, and a no is right. */
  lemma WholeCheck(history: seq<Op<Kv.Value>>, keys: seq<string>, parts: seq<seq<Op<Kv.Value>>>,
                   verdicts: seq<bool>, timed: bool)
    requires DistinctTimes(history) && Partitions(history, keys, parts) && Verdicts(parts, verdicts)
    ensures Returns(verdicts, timed) <==> history != [] || timed
    ensures forall es, s :: Leads(verdicts, timed, Start(verdicts), es, s) && s.ended && !s.ok ==>
      !Linearizable(Kv.STORE, history)
    ensures forall es, s :: Leads(verdicts, timed, Start(verdicts), es, s) && s.ended && Timeout !in es ==>
      (s.ok <==> Linearizable(Kv.STORE, history))
  {
    hide Partitions, DistinctTimes, Linearizable, Leads, Start, Returns;
    NoParts(history, keys, parts);
    Ends(verdicts, timed);
    forall es, s | Leads(verdicts, timed, Start(verdicts), es, s) && s.ended
      ensures !s.ok ==> !Linearizable(Kv.STORE, history)
      ensures Timeout !in es ==> (s.ok <==> Linearizable(Kv.STORE, history))
    {
      AnyArrival(verdicts, timed, es, s);
      AllVerdicts(history, keys, parts, verdicts);
    }
  }

  lemma AllVerdicts(history: seq<Op<Kv.Value>>, keys: seq<string>, parts: seq<seq<Op<Kv.Value>>>, verdicts: seq<bool>)
    requires DistinctTimes(history) && Partitions(history, keys, parts) && Verdicts(parts, verdicts)
    ensures verdicts != [] ==> (false !in verdicts <==> Linearizable(Kv.STORE, history))
  {
    hide Partitions, DistinctTimes, Linearizable;
    NoParts(history, keys, parts);
    if history != [] {
      AllParts(history, keys, parts);
      assert false !in verdicts <==> forall i :: 0 <= i < |verdicts| ==> verdicts[i];
    }
  }
}
