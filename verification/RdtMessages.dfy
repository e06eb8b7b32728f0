/**
  Messages and the frames that carry them: what comes out of consuming any
  number of frames, one after the other.
 */
module RdtMessages {
  import opened Numbers
  import opened RdtChecksum
  import opened RdtFrames
  import S = RdtSender
  import R = RdtReceiver

  // ---- frames of messages, and what consuming them yields

  ghost predicate LaterFragments(m: Message, fs: seq<Packet>)
    decreases |m|
  {
    if m == [] then fs == [] else
    var n := Min(MAX_PKT_SIZE, |m|);
    fs != [] && LaterInfo(fs[0]) == m[..n] && LaterFragments(m[n..], fs[1..])
  }

  /** The packets `fs` carry the message `m`. */
  ghost predicate Fragments(m: Message, fs: seq<Packet>) {
    var n := Min(FIRST_SIZE, |m|);
    fs != [] && TotalOf(fs[0]) == |m| && FirstInfo(fs[0]) == m[..n] && LaterFragments(m[n..], fs[1..])
  }

  lemma {:induction false} LaterFramesFragment(pkt: Packet, m: Message, seqno: nat)
    requires seqno + S.LaterCount(m) <= TWO32
    ensures LaterFragments(m, S.LaterFrames(pkt, m, seqno))
    decreases |m|
  {
    if m != [] {
      hide FormData;
      var n := Min(MAX_PKT_SIZE, |m|);
      S.LaterStep(pkt, m, seqno);
      LaterFramesFragment(FormData(pkt, m[..n], seqno), m[n..], seqno + 1);
    }
  }

  /** What the sender queues for a message carries that message. */
  lemma MessageFramesFragment(pkt: Packet, m: Message, seqno: nat)
    requires |m| < TWO32 && seqno + S.FrameCount(m) <= TWO32
    ensures Fragments(m, S.MessageFrames(pkt, m, seqno))
  {
    var n := Min(FIRST_SIZE, |m|);
    var first := FormFirst(pkt, m[..n], |m|, seqno);
    assert S.MessageFrames(pkt, m, seqno)[1..] == S.LaterFrames(first, m[n..], seqno + 1);
    hide FormFirst, LaterFragments, S.LaterFrames;
    LaterFramesFragment(first, m[n..], seqno + 1);
  }

  /** Consuming `fs` in turn: the assembly afterwards and the messages handed over. */
  ghost function Run(a: R.Assembly, fs: seq<Packet>): (r: (R.Assembly, seq<Message>))
    decreases |fs|
  {
    if fs == [] then (a, []) else
    var n := |fs| - 1;
    var (a1, out1) := Run(a, fs[..n]);
    var (a2, out2) := a1.Take(fs[n]);
    (a2, out1 + out2)
  }

  lemma RunAppend(a: R.Assembly, fs: seq<Packet>, p: Packet)
    ensures Run(a, fs + [p]).0 == Run(a, fs).0.Take(p).0
    ensures Run(a, fs + [p]).1 == Run(a, fs).1 + Run(a, fs).0.Take(p).1
  {
    assert (fs + [p])[..|fs|] == fs;
  }

  lemma FirstOf(fs: seq<Packet>, k: nat)
    requires 0 < k <= |fs|
    ensures fs[..k] == [fs[0]] + fs[1..][..k - 1]
  {
  }

  lemma LastOf(fs: seq<Packet>, gs: seq<Packet>)
    requires gs != []
    ensures gs == gs[..|gs| - 1] + [gs[|gs| - 1]] && fs + gs == fs + gs[..|gs| - 1] + [gs[|gs| - 1]]
  {
  }

  lemma {:induction false} RunConcat(a: R.Assembly, fs: seq<Packet>, gs: seq<Packet>)
    ensures Run(a, fs + gs).0 == Run(Run(a, fs).0, gs).0
    ensures Run(a, fs + gs).1 == Run(a, fs).1 + Run(Run(a, fs).0, gs).1
    decreases |gs|
  {
    hide Run, R.Assembly.Take;
    if gs == [] {
      assert fs + gs == fs;
      RunNone(Run(a, fs).0);
    } else {
      var n := |gs| - 1;
      LastOf(fs, gs);
      RunConcat(a, fs, gs[..n]);
      RunAppend(a, fs + gs[..n], gs[n]);
      RunAppend(Run(a, fs).0, gs[..n], gs[n]);
    }
  }

  lemma RunFirst(a: R.Assembly, p: Packet, gs: seq<Packet>)
    ensures Run(a, [p] + gs).0 == Run(a.Take(p).0, gs).0
    ensures Run(a, [p] + gs).1 == a.Take(p).1 + Run(a.Take(p).0, gs).1
  {
    hide Run, R.Assembly.Take;
    RunNone(a);
    RunAppend(a, [], p);
    assert [] + [p] == [p];
    RunConcat(a, [p], gs);
  }

  /** A message some of whose bytes, but not all, have come in. */
  ghost predicate Underway(a: R.Assembly, m: Message) {
    a.size == |m| && 0 < |a.data| < |m| && a.data == m[..|a.data|]
  }

  /** A later frame either completes the message or leaves it underway. */
  lemma LaterTake(a: R.Assembly, m: Message, p: Packet)
    requires Underway(a, m)
    requires LaterInfo(p) == m[|a.data|..][..Min(MAX_PKT_SIZE, |m| - |a.data|)]
    ensures var n := |a.data| + Min(MAX_PKT_SIZE, |m| - |a.data|);
      if n < |m| then a.Take(p) == (R.Assembly(|m|, m[..n]), []) else a.Take(p) == (R.Assembly(|m|, []), [m])
  {
    hide LaterInfo, FirstInfo, TotalOf;
    var n := |a.data| + Min(MAX_PKT_SIZE, |m| - |a.data|);
    assert a.data + LaterInfo(p) == m[..n];
    assert m[..|m|] == m;
  }

  lemma FirstTake(a: R.Assembly, m: Message, p: Packet)
    requires a.data == [] && TotalOf(p) == |m| && FirstInfo(p) == m[..Min(FIRST_SIZE, |m|)]
    ensures var n := Min(FIRST_SIZE, |m|);
      if n < |m| then a.Take(p) == (R.Assembly(|m|, m[..n]), []) else a.Take(p) == (R.Assembly(|m|, []), [m])
  {
    hide LaterInfo, FirstInfo, TotalOf;
    assert m[..|m|] == m;
  }

  /** Frames after the first: a proper part hands nothing over, all of them the message. */
  lemma {:induction false} LaterRun(a: R.Assembly, m: Message, fs: seq<Packet>, k: nat)
    requires Underway(a, m) && LaterFragments(m[|a.data|..], fs) && k <= |fs|
    ensures k < |fs| ==> Run(a, fs[..k]).1 == [] && Underway(Run(a, fs[..k]).0, m)
    ensures k == |fs| ==> Run(a, fs[..k]).0 == R.Assembly(|m|, []) && Run(a, fs[..k]).1 == [m]
    decreases |fs|
  {
    if k == 0 {
      RunNone(a);
    } else {
      hide R.Assembly.Take, Run;
      var n := Min(MAX_PKT_SIZE, |m| - |a.data|);
      LaterTake(a, m, fs[0]);
      FirstOf(fs, k);
      RunFirst(a, fs[0], fs[1..][..k - 1]);
      assert m[|a.data|..][n..] == m[|a.data| + n..];
      if |a.data| + n < |m| {
        LaterRun(a.Take(fs[0]).0, m, fs[1..], k - 1);
      } else {
        RunNone(a.Take(fs[0]).0);
      }
    }
  }

  lemma RunNone(a: R.Assembly)
    ensures Run(a, []) == (a, [])
  {
  }

  /** One message's frames, from a clean assembly. */
  lemma MessageRun(a: R.Assembly, m: Message, fs: seq<Packet>, k: nat)
    requires a.data == [] && Fragments(m, fs) && k <= |fs|
    ensures k == 0 ==> Run(a, fs[..k]) == (a, [])
    ensures 0 < k < |fs| ==> Run(a, fs[..k]).1 == [] && Underway(Run(a, fs[..k]).0, m)
    ensures k == |fs| ==> Run(a, fs[..k]).0 == R.Assembly(|m|, []) && Run(a, fs[..k]).1 == [m]
  {
    if k == 0 {
      RunNone(a);
    } else {
      hide R.Assembly.Take, Run;
      FirstTake(a, m, fs[0]);
      FirstOf(fs, k);
      RunFirst(a, fs[0], fs[1..][..k - 1]);
      if Min(FIRST_SIZE, |m|) < |m| {
        LaterRun(a.Take(fs[0]).0, m, fs[1..], k - 1);
      } else {
        RunNone(a.Take(fs[0]).0);
      }
    }
  }

  // ---- all frames of all messages

  /** The frames of the first `n` messages, in order. */
  ghost function Flatten(groups: seq<seq<Packet>>, n: nat): (fs: seq<Packet>)
    requires n <= |groups|
  {
    if n == 0 then [] else Flatten(groups, n - 1) + groups[n - 1]
  }

  lemma {:induction false} FlattenAppend(groups: seq<seq<Packet>>, g: seq<Packet>, n: nat)
    requires n <= |groups|
    ensures Flatten(groups + [g], n) == Flatten(groups, n)
  {
    if n > 0 {
      FlattenAppend(groups, g, n - 1);
    }
  }

  ghost const CLEAN := R.Assembly(0, [])

  ghost predicate Carries(accepted: seq<Message>, groups: seq<seq<Packet>>) {
    |groups| == |accepted| && forall j :: 0 <= j < |groups| ==> Fragments(accepted[j], groups[j])
  }

  /** The outcome of consuming `fs` is a number of whole messages, and no overrun. */
  ghost predicate Outcome(accepted: seq<Message>, j: nat, fs: seq<Packet>) {
    var (a, out) := Run(CLEAN, fs);
    j <= |accepted| && out == accepted[..j] && (a.data != [] ==> |a.data| < a.size)
  }

  /** Whatever number of frames has been consumed, whole messages come out, in order. */
  lemma {:induction false} WholeMessages(accepted: seq<Message>, groups: seq<seq<Packet>>, n: nat, k: nat)
    returns (j: nat)
    requires Carries(accepted, groups) && n <= |groups| && k <= |Flatten(groups, n)|
    ensures Outcome(accepted, j, Flatten(groups, n)[..k])
    ensures k == |Flatten(groups, n)| ==> j == n && Run(CLEAN, Flatten(groups, n)[..k]).0.data == []
    ensures j <= n && |Flatten(groups, j)| <= k && (j < n ==> k < |Flatten(groups, j + 1)|)
    decreases n
  {
    hide *;
    if n == 0 {
      j := 0;
      NoMessages(accepted, groups, k);
    } else {
      var front, last := Flatten(groups, n - 1), groups[n - 1];
      SomeFrame(accepted, groups, n - 1);
      FlattenStep(groups, n);
      if k <= |front| {
        j := WholeMessages(accepted, groups, n - 1, k);
        assert (front + last)[..k] == front[..k];
      } else {
        j := WholeMessages(accepted, groups, n - 1, |front|);
        assert front[..|front|] == front;
        LastMessage(accepted, n - 1, front, last, k - |front|);
        assert (front + last)[..k] == front + last[..k - |front|];
        j := if k - |front| == |last| then n else n - 1;
      }
    }
  }

  lemma FlattenStep(groups: seq<seq<Packet>>, n: nat)
    requires 0 < n <= |groups|
    ensures Flatten(groups, n) == Flatten(groups, n - 1) + groups[n - 1]
  {
  }

  lemma LastMessage(accepted: seq<Message>, n: nat, front: seq<Packet>, last: seq<Packet>, k: nat)
    requires Outcome(accepted, n, front) && Run(CLEAN, front).0.data == []
    requires n < |accepted| && Fragments(accepted[n], last) && 0 < k <= |last|
    ensures Outcome(accepted, if k == |last| then n + 1 else n, front + last[..k])
    ensures k == |last| ==> Run(CLEAN, front + last[..k]).0.data == []
  {
    hide Run, Fragments;
    RunConcat(CLEAN, front, last[..k]);
    MessageRun(Run(CLEAN, front).0, accepted[n], last, k);
    assert accepted[..n + 1] == accepted[..n] + [accepted[n]];
  }

  lemma SomeFrame(accepted: seq<Message>, groups: seq<seq<Packet>>, n: nat)
    requires Carries(accepted, groups) && n < |groups|
    ensures |accepted| == |groups| && Fragments(accepted[n], groups[n]) && groups[n] != []
  {
  }

  lemma NoMessages(accepted: seq<Message>, groups: seq<seq<Packet>>, k: nat)
    requires k <= |Flatten(groups, 0)|
    ensures k == |Flatten(groups, 0)| && Outcome(accepted, 0, Flatten(groups, 0)[..k])
    ensures Run(CLEAN, Flatten(groups, 0)[..k]).0.data == []
  {
    RunNone(CLEAN);
  }
}
