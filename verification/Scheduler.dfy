/**
  The scheduler of one MapReduce phase: one goroutine per task, and a channel of
  idle workers that all of them take from and give back to.

  Receiving from the channel and sending to it are single steps, and so is the end of
  a call; between them anything may happen in other goroutines.
 */
module Scheduler {
  type Worker = string

  /** Where a task's goroutine is: waiting for a worker, in a call to one, about to return it, or gone. */
  datatype Task = Waiting | Calling(worker: Worker) | Returning(worker: Worker) | Gone

  /** `offered` is the channel, `lost` the workers whose call failed, `calls` the successful calls of
      each task, `pending` the count of the wait group. `toRegister` are workers yet to come. */
  datatype State = State(tasks: seq<Task>, toRegister: seq<Worker>, offered: multiset<Worker>, lost: multiset<Worker>,
                         calls: seq<nat>, pending: int, returned: bool)

  datatype Event =
    | Register                // a worker is sent into the channel
    | Take(task: nat, w: Worker)
    | Fail(task: nat)
    | Succeed(task: nat)      // the call returns true and the wait group is told
    | GiveBack(task: nat)
    | Return                  // the wait group is down to zero

  function Start(ntasks: nat, workers: seq<Worker>): (s: State) {
    State(seq(ntasks, _ => Waiting), workers, multiset{}, multiset{}, seq(ntasks, _ => 0), ntasks, false)
  }

  ghost predicate Possible(s: State, e: Event) {
    match e
    case Register => s.toRegister != []
    case Take(t, w) => t < |s.tasks| && s.tasks[t].Waiting? && w in s.offered
    case Fail(t) => t < |s.tasks| && s.tasks[t].Calling?
    case Succeed(t) => t < |s.tasks| == |s.calls| && s.tasks[t].Calling?
    case GiveBack(t) => t < |s.tasks| && s.tasks[t].Returning?
    case Return => s.pending == 0
  }

  ghost function Apply(s: State, e: Event): (s': State)
    requires Possible(s, e)
  {
    match e
    case Register => s.(toRegister := s.toRegister[1..], offered := s.offered + multiset{s.toRegister[0]})
    case Take(t, w) => s.(tasks := s.tasks[t := Calling(w)], offered := s.offered - multiset{w})
    case Fail(t) => s.(tasks := s.tasks[t := Waiting], lost := s.lost + multiset{s.tasks[t].worker})
    case Succeed(t) =>
      s.(tasks := s.tasks[t := Returning(s.tasks[t].worker)],
         calls := s.calls[t := s.calls[t] + 1], pending := s.pending - 1)
    case GiveBack(t) => s.(tasks := s.tasks[t := Gone], offered := s.offered + multiset{s.tasks[t].worker})
    case Return => s.(returned := true)
  }

  // ---- where the workers are

  ghost function HeldBy(t: Task, w: Worker): (n: nat) {
    if (t.Calling? || t.Returning?) && t.worker == w then 1 else 0
  }

  /** How many tasks hold the worker. */
  ghost function Held(tasks: seq<Task>, w: Worker): (n: nat) {
    if tasks == [] then 0 else Held(tasks[..|tasks| - 1], w) + HeldBy(tasks[|tasks| - 1], w)
  }

  /** In how many places the worker is. */
  ghost function Places(s: State, w: Worker): (n: nat) {
    multiset(s.toRegister)[w] + s.offered[w] + Held(s.tasks, w) + s.lost[w]
  }

  lemma {:induction false} HeldUpdate(tasks: seq<Task>, i: nat, t: Task, w: Worker)
    requires i < |tasks|
    ensures Held(tasks[i := t], w) + HeldBy(tasks[i], w) == Held(tasks, w) + HeldBy(t, w)
  {
    var n := |tasks| - 1;
    hide HeldBy;
    if i == n {
      assert tasks[i := t][..n] == tasks[..n];
    } else {
      HeldUpdate(tasks[..n], i, t, w);
      assert tasks[i := t][..n] == tasks[..n][i := t];
    }
  }

  lemma Registered(toRegister: seq<Worker>, offered: multiset<Worker>, w: Worker)
    requires toRegister != []
    ensures multiset(toRegister[1..])[w] + (offered + multiset{toRegister[0]})[w] ==
      multiset(toRegister)[w] + offered[w]
  {
    assert toRegister == [toRegister[0]] + toRegister[1..];
  }

  lemma Added(ws: multiset<Worker>, v: Worker, w: Worker)
    ensures (ws + multiset{v})[w] == ws[w] + (if v == w then 1 else 0)
    ensures v in ws ==> (ws - multiset{v})[w] == ws[w] - if v == w then 1 else 0
  {
  }

  /** A task changes; what it holds more, the channel and the lost ones have less. */
  lemma Moved(s: State, s': State, t: nat, task: Task, w: Worker)
    requires t < |s.tasks| && s'.tasks == s.tasks[t := task] && s'.toRegister == s.toRegister
    requires s'.offered[w] + s'.lost[w] + HeldBy(task, w) == s.offered[w] + s.lost[w] + HeldBy(s.tasks[t], w)
    ensures Places(s', w) == Places(s, w)
  {
    hide Held, HeldBy;
    HeldUpdate(s.tasks, t, task, w);
  }

  lemma RegisterConserved(s: State, w: Worker)
    requires Possible(s, Register)
    ensures Places(Apply(s, Register), w) == Places(s, w)
  {
    hide Held;
    Registered(s.toRegister, s.offered, w);
  }

  lemma TakeConserved(s: State, t: nat, v: Worker, w: Worker)
    requires Possible(s, Take(t, v))
    ensures Places(Apply(s, Take(t, v)), w) == Places(s, w)
  {
    hide Held, Places;
    Added(s.offered, v, w);
    Moved(s, Apply(s, Take(t, v)), t, Calling(v), w);
  }

  lemma FailConserved(s: State, t: nat, w: Worker)
    requires Possible(s, Fail(t))
    ensures Places(Apply(s, Fail(t)), w) == Places(s, w)
  {
    hide Held, Places;
    Added(s.lost, s.tasks[t].worker, w);
    Moved(s, Apply(s, Fail(t)), t, Waiting, w);
  }

  lemma SucceedConserved(s: State, t: nat, w: Worker)
    requires Possible(s, Succeed(t))
    ensures Places(Apply(s, Succeed(t)), w) == Places(s, w)
  {
    hide Held, Places;
    Moved(s, Apply(s, Succeed(t)), t, Returning(s.tasks[t].worker), w);
  }

  lemma GiveBackConserved(s: State, t: nat, w: Worker)
    requires Possible(s, GiveBack(t))
    ensures Places(Apply(s, GiveBack(t)), w) == Places(s, w)
  {
    hide Held, Places;
    Added(s.offered, s.tasks[t].worker, w);
    Moved(s, Apply(s, GiveBack(t)), t, Gone, w);
  }

  lemma ReturnConserved(s: State, w: Worker)
    requires Possible(s, Return)
    ensures Places(Apply(s, Return), w) == Places(s, w)
  {
    hide Held;
  }

  /** No step makes, loses or doubles a worker. */
  lemma Conserved(s: State, e: Event, w: Worker)
    requires Possible(s, e)
    ensures Places(Apply(s, e), w) == Places(s, w)
  {
    hide *;
    match e
    case Register => RegisterConserved(s, w);
    case Take(t, v) => TakeConserved(s, t, v, w);
    case Fail(t) => FailConserved(s, t, w);
    case Succeed(t) => SucceedConserved(s, t, w);
    case GiveBack(t) => GiveBackConserved(s, t, w);
    case Return => ReturnConserved(s, w);
  }

  // ---- the count of the wait group

  ghost predicate Ended(t: Task) { t.Returning? || t.Gone? }

  ghost function Open(tasks: seq<Task>): (n: nat) {
    if tasks == [] then 0 else Open(tasks[..|tasks| - 1]) + if Ended(tasks[|tasks| - 1]) then 0 else 1
  }

  lemma {:induction false} OpenUpdate(tasks: seq<Task>, i: nat, t: Task)
    requires i < |tasks|
    ensures Open(tasks[i := t]) + (if Ended(tasks[i]) then 0 else 1) == Open(tasks) + if Ended(t) then 0 else 1
  {
    var n := |tasks| - 1;
    if i == n {
      assert tasks[i := t][..n] == tasks[..n];
    } else {
      OpenUpdate(tasks[..n], i, t);
      assert tasks[i := t][..n] == tasks[..n][i := t];
    }
  }

  lemma {:induction false} NoneOpen(tasks: seq<Task>, i: nat)
    requires i < |tasks| && Open(tasks) == 0
    ensures Ended(tasks[i])
  {
    if i < |tasks| - 1 {
      NoneOpen(tasks[..|tasks| - 1], i);
    }
  }

  /** A task has one successful call once it has ended, and none before; the wait group counts the open tasks. */
  ghost predicate Counted(s: State, ntasks: nat) {
    && |s.tasks| == |s.calls| == ntasks && s.pending == Open(s.tasks)
    && (forall t :: 0 <= t < ntasks ==> s.calls[t] == if Ended(s.tasks[t]) then 1 else 0)
    && (s.returned ==> s.pending == 0)
  }

  lemma StepCounted(s: State, e: Event, ntasks: nat)
    requires Counted(s, ntasks) && Possible(s, e)
    ensures Counted(Apply(s, e), ntasks)
  {
    hide Open;
    match e
    case Register =>
    case Take(t, w) => OpenUpdate(s.tasks, t, Calling(w));
    case Fail(t) => OpenUpdate(s.tasks, t, Waiting);
    case Succeed(t) =>
      OpenUpdate(s.tasks, t, Returning(s.tasks[t].worker));
      NotReturned(s, t);
    case GiveBack(t) => OpenUpdate(s.tasks, t, Gone);
    case Return =>
  }

  lemma NotReturned(s: State, t: nat)
    requires t < |s.tasks| && !Ended(s.tasks[t])
    ensures Open(s.tasks) > 0
  {
    if Open(s.tasks) == 0 {
      NoneOpen(s.tasks, t);
    }
  }

  // ---- runs

  ghost predicate Leads(s: State, es: seq<Event>, s': State)
    decreases |es|
  {
    if es == [] then s == s' else Possible(s, es[0]) && Leads(Apply(s, es[0]), es[1..], s')
  }

  lemma {:induction false} RunCounted(s: State, es: seq<Event>, s': State, ntasks: nat)
    requires Counted(s, ntasks) && Leads(s, es, s')
    ensures Counted(s', ntasks)
    decreases |es|
  {
    if es != [] {
      hide Counted, Apply, Possible;
      StepCounted(s, es[0], ntasks);
      RunCounted(Apply(s, es[0]), es[1..], s', ntasks);
    }
  }

  lemma {:induction false} RunConserved(s: State, es: seq<Event>, s': State, w: Worker)
    requires Leads(s, es, s')
    ensures Places(s', w) == Places(s, w)
    decreases |es|
  {
    if es != [] {
      hide Places, Apply, Possible;
      Conserved(s, es[0], w);
      RunConserved(Apply(s, es[0]), es[1..], s', w);
    }
  }

  lemma {:induction false} StartTasks(n: nat, w: Worker)
    ensures var tasks: seq<Task> := seq(n, _ => Waiting); Open(tasks) == n && Held(tasks, w) == 0
  {
    if n > 0 {
      StartTasks(n - 1, w);
      var tasks: seq<Task> := seq(n, _ => Waiting);
      assert tasks[..n - 1] == seq(n - 1, _ => Waiting);
    }
  }

  lemma {:induction false} HeldOnce(tasks: seq<Task>, i: nat, w: Worker)
    requires i < |tasks|
    ensures HeldBy(tasks[i], w) <= Held(tasks, w)
  {
    hide HeldBy;
    if i < |tasks| - 1 {
      HeldOnce(tasks[..|tasks| - 1], i, w);
    }
  }

  lemma {:induction false} HeldTwice(tasks: seq<Task>, i: nat, j: nat, w: Worker)
    requires i < j < |tasks|
    ensures HeldBy(tasks[i], w) + HeldBy(tasks[j], w) <= Held(tasks, w)
  {
    var n := |tasks| - 1;
    hide HeldBy;
    if j == n {
      HeldOnce(tasks[..n], i, w);
    } else {
      HeldTwice(tasks[..n], i, j, w);
    }
  }

  lemma {:induction false} AtMostOnce(workers: seq<Worker>, w: Worker)
    requires forall i, j :: 0 <= i < j < |workers| ==> workers[i] != workers[j]
    ensures multiset(workers)[w] == if w in workers then 1 else 0
  {
    if workers != [] {
      var n := |workers| - 1;
      AtMostOnce(workers[..n], w);
      assert workers == workers[..n] + [workers[n]];
    }
  }

  /** In every run, a worker that registers once is always in exactly one place. */
  lemma OnePlace(ntasks: nat, workers: seq<Worker>, es: seq<Event>, s: State, w: Worker)
    requires (forall i, j :: 0 <= i < j < |workers| ==> workers[i] != workers[j])
    requires Leads(Start(ntasks, workers), es, s)
    ensures Places(s, w) == if w in workers then 1 else 0
  {
    StartTasks(ntasks, w);
    AtMostOnce(workers, w);
    RunConserved(Start(ntasks, workers), es, s, w);
  }

  /** So no worker is in two calls, none is offered while it is in a call, and one that was lost is not used again. */
  lemma OneCallEach(ntasks: nat, workers: seq<Worker>, es: seq<Event>, s: State, t: nat, u: nat)
    requires (forall i, j :: 0 <= i < j < |workers| ==> workers[i] != workers[j])
    requires Leads(Start(ntasks, workers), es, s)
    requires t < |s.tasks| && s.tasks[t].Calling?
    ensures var w := s.tasks[t].worker; w in workers && w !in s.offered && w !in s.lost
    ensures u < |s.tasks| && u != t && (s.tasks[u].Calling? || s.tasks[u].Returning?) ==>
      s.tasks[u].worker != s.tasks[t].worker
  {
    var w := s.tasks[t].worker;
    OnePlace(ntasks, workers, es, s, w);
    HeldOnce(s.tasks, t, w);
    hide Held, Leads;
    if u < |s.tasks| && u != t {
      HeldTwice(s.tasks, if u < t then u else t, if u < t then t else u, w);
    }
  }

  /** `schedule` returns only when every task has had exactly one successful call. */
  lemma AllDone(ntasks: nat, workers: seq<Worker>, es: seq<Event>, s: State)
    requires Leads(Start(ntasks, workers), es, s) && s.returned
    ensures |s.calls| == ntasks && forall t :: 0 <= t < ntasks ==> s.calls[t] == 1
  {
    StartTasks(ntasks, "");
    RunCounted(Start(ntasks, workers), es, s, ntasks);
    forall t | 0 <= t < ntasks ensures s.calls[t] == 1 {
      NoneOpen(s.tasks, t);
    }
  }

  // ---- a worker that failed, and workers that do not

  /** Nobody gets `w` any more. */
  ghost predicate OutOfUse(s: State, w: Worker) { w in s.lost && Places(s, w) == 1 }

  lemma StaysOutOfUse(s: State, e: Event, w: Worker)
    requires Possible(s, e) && OutOfUse(s, w)
    ensures OutOfUse(Apply(s, e), w) && !(e.Take? && e.w == w)
  {
    Conserved(s, e, w);
    hide Held;
  }

  lemma {:induction false} NeverTaken(s: State, es: seq<Event>, s': State, w: Worker)
    requires Leads(s, es, s') && OutOfUse(s, w)
    ensures forall e :: e in es ==> !(e.Take? && e.w == w)
    decreases |es|
  {
    if es != [] {
      hide OutOfUse, Apply, Possible;
      StaysOutOfUse(s, es[0], w);
      NeverTaken(Apply(s, es[0]), es[1..], s', w);
      assert es == [es[0]] + es[1..];
    }
  }

  /** In every run, a worker whose call has failed is never called again. */
  lemma FailedIsDropped(ntasks: nat, workers: seq<Worker>, es: seq<Event>, s: State, t: nat, fs: seq<Event>, s': State)
    requires (forall i, j :: 0 <= i < j < |workers| ==> workers[i] != workers[j])
    requires Leads(Start(ntasks, workers), es, s) && Possible(s, Fail(t)) && Leads(Apply(s, Fail(t)), fs, s')
    ensures forall e :: e in fs ==> !(e.Take? && e.w == s.tasks[t].worker)
  {
    var w := s.tasks[t].worker;
    OnePlace(ntasks, workers, es, s, w);
    HeldOnce(s.tasks, t, w);
    Conserved(s, Fail(t), w);
    hide Held, Leads;
    NeverTaken(Apply(s, Fail(t)), fs, s', w);
  }

  /** How many steps a task is from its end. */
  ghost function Rank(t: Task): (n: nat) {
    match t case Waiting => 3 case Calling(_) => 2 case Returning(_) => 1 case Gone => 0
  }

  ghost function Ranks(tasks: seq<Task>): (n: nat) {
    if tasks == [] then 0 else Ranks(tasks[..|tasks| - 1]) + Rank(tasks[|tasks| - 1])
  }

  lemma {:induction false} RankFalls(tasks: seq<Task>, i: nat, t: Task)
    requires i < |tasks|
    ensures Ranks(tasks[i := t]) == Ranks(tasks) - Rank(tasks[i]) + Rank(t)
  {
    hide Rank;
    var n := |tasks| - 1;
    if i == n {
      assert tasks[i := t][..n] == tasks[..n];
    } else {
      RankFalls(tasks[..n], i, t);
      assert tasks[i := t][..n] == tasks[..n][i := t];
    }
  }

  lemma {:induction false} NobodyHolds(tasks: seq<Task>, w: Worker)
    requires forall i :: 0 <= i < |tasks| ==> !tasks[i].Calling? && !tasks[i].Returning?
    ensures Held(tasks, w) == 0
  {
    if tasks != [] {
      NobodyHolds(tasks[..|tasks| - 1], w);
    }
  }

  /** `w` has come or will come, and was not lost. */
  ghost predicate Alive(s: State, w: Worker) { Places(s, w) > 0 && w !in s.lost }

  /** The next step towards the end, without a failure. */
  lemma NextStep(s: State, ntasks: nat, w: Worker) returns (e: Event)
    requires Counted(s, ntasks) && Alive(s, w) && s.pending != 0
    ensures Possible(s, e) && !e.Fail? && !e.Return?
  {
    hide Open, Held;
    if t: nat :| t < |s.tasks| && s.tasks[t].Calling? {
      e := Succeed(t);
    } else if t: nat :| t < |s.tasks| && s.tasks[t].Returning? {
      e := GiveBack(t);
    } else if s.toRegister != [] {
      e := Register;
    } else {
      NobodyHolds(s.tasks, w);
      assert w in s.offered;
      var t := SomeOpen(s.tasks);
      e := Take(t, w);
    }
  }

  lemma {:induction false} SomeOpen(tasks: seq<Task>) returns (t: nat)
    requires Open(tasks) > 0
    ensures t < |tasks| && !Ended(tasks[t])
  {
    var n := |tasks| - 1;
    if !Ended(tasks[n]) {
      t := n;
    } else {
      t := SomeOpen(tasks[..n]);
    }
  }

  lemma StepCloser(s: State, e: Event, w: Worker)
    requires Possible(s, e) && !e.Fail? && !e.Return? && Alive(s, w)
    ensures var s' := Apply(s, e); Alive(s', w) && Ranks(s'.tasks) + |s'.toRegister| < Ranks(s.tasks) + |s.toRegister|
  {
    Conserved(s, e, w);
    hide Held, Ranks;
    match e
    case Take(t, v) => RankFalls(s.tasks, t, Calling(v));
    case Succeed(t) => RankFalls(s.tasks, t, Returning(s.tasks[t].worker));
    case GiveBack(t) => RankFalls(s.tasks, t, Gone);
    case Register =>
  }

  lemma {:induction false} CanReturn(s: State, ntasks: nat, w: Worker) returns (es: seq<Event>, s': State)
    requires Counted(s, ntasks) && Alive(s, w)
    ensures Leads(s, es, s') && s'.returned && forall e :: e in es ==> !e.Fail?
    decreases Ranks(s.tasks) + |s.toRegister|
  {
    hide Counted, Alive, Ranks;
    if s.pending == 0 {
      es, s' := [Return], Apply(s, Return);
      assert [Return][1..] == [];
    } else {
      var e := NextStep(s, ntasks, w);
      StepCloser(s, e, w);
      StepCounted(s, e, ntasks);
      var rest;
      rest, s' := CanReturn(Apply(s, e), ntasks, w);
      es := [e] + rest;
      assert es[1..] == rest;
    }
  }

  /** As long as one worker is left, every run can be brought to its end by calls that succeed. */
  lemma CanFinish(ntasks: nat, workers: seq<Worker>, es: seq<Event>, s: State, w: Worker)
    returns (fs: seq<Event>, s': State)
    requires Leads(Start(ntasks, workers), es, s) && w in workers && w !in s.lost
    ensures Leads(s, fs, s') && s'.returned && forall e :: e in fs ==> !e.Fail?
  {
    StartTasks(ntasks, w);
    RunCounted(Start(ntasks, workers), es, s, ntasks);
    RunConserved(Start(ntasks, workers), es, s, w);
    assert w in multiset(workers);
    hide Leads, Counted, Held;
    fs, s' := CanReturn(s, ntasks, w);
  }
}
