/**
  What holds of every run of the protocol, and how any run can be brought to
  its end.
 */
module RdtRuns {
  import opened Numbers
  import opened RdtChecksum
  import opened RdtFrames
  import opened RdtMessages
  import opened RdtSystem
  import S = RdtSender
  import R = RdtReceiver

  /** The events `es`, each possible in its turn, lead from `s` to `s'`. */
  ghost predicate Leads(s: System, es: seq<Event>, s': System)
    decreases |es|
  {
    if es == [] then s == s' else
    && Enabled(s, es[0]) && s.sender.Valid() && s.receiver.expected < TWO32
    && Leads(Apply(s, es[0]), es[1..], s')
  }

  lemma {:induction false} RunInv(s: System, es: seq<Event>, s': System)
    requires Inv(s) && Leads(s, es, s')
    ensures Inv(s')
    decreases |es|
  {
    if es != [] {
      hide Inv, Enabled, Apply;
      StepInv(s, es[0]);
      RunInv(Apply(s, es[0]), es[1..], s');
    }
  }

  /** Safety: in every run, whatever the network does, the messages handed over are a
      prefix of the messages accepted, byte for byte. */
  lemma Safety(es: seq<Event>, s: System)
    requires Leads(START, es, s)
    ensures s.delivered <= s.accepted
  {
    hide *;
    StartInv();
    RunInv(START, es, s);
    DeliveredPrefix(s);
  }

  lemma DeliveredPrefix(s: System)
    requires Inv(s)
    ensures s.delivered <= s.accepted
    ensures s.receiver.expected == |s.Frames()| ==> s.delivered == s.accepted
    ensures s.receiver.assembly.data != [] ==> |s.receiver.assembly.data| < s.receiver.assembly.size
  {
    hide Run, NetworkInv, SenderInv, Carries;
    var j := WholeMessages(s.accepted, s.groups, |s.groups|, s.receiver.expected);
    AsMany(s.accepted, s.groups);
  }

  lemma AsMany(accepted: seq<Message>, groups: seq<seq<Packet>>)
    requires Carries(accepted, groups)
    ensures |accepted| == |groups|
  {
  }

  /** In every run: timer, window and queue agree, the receiver stands inside the window,
      nothing in flight is too far ahead, and an empty queue means all is delivered. */
  lemma Window(es: seq<Event>, s: System)
    requires Leads(START, es, s)
    ensures s.sender.timer <==> s.sender.nwindow > 0
    ensures s.sender.nwindow > 0 <==> s.sender.buffer != []
    ensures s.Base() <= s.receiver.expected <= s.Base() + s.sender.nwindow
    ensures forall p :: p in s.toReceiver ==> SeqOf(p) < s.receiver.expected + WINDOW_SIZE
    ensures s.sender.buffer == [] ==> s.delivered == s.accepted
  {
    StartInv();
    RunInv(START, es, s);
    DeliveredPrefix(s);
    hide Leads, Run, Carries, Flatten, Numbered;
    SizeOfFrames(s.sender, s.Frames());
    forall p | p in s.toReceiver ensures SeqOf(p) < s.receiver.expected + WINDOW_SIZE {
      assert Genuine(s.Frames(), p, s.Limit());
    }
  }

  /** No frame, taken in its turn, on arrival or out of a slot, writes past the end of the message it belongs to. */
  lemma NoOverrun(s: System, k: nat)
    requires Inv(s) && k < |s.Frames()|
    ensures var a := Run(CLEAN, s.Frames()[..k]).0.Add(s.Frames()[k]); |a.data| <= a.size
    ensures s.receiver.assembly == Run(CLEAN, s.Frames()[..s.receiver.expected]).0
  {
    hide NetworkInv, SenderInv, Carries, Run;
    var fs := s.Frames();
    assert fs[..k + 1] == fs[..k] + [fs[k]];
    RunAppend(CLEAN, fs[..k], fs[k]);
    var j := WholeMessages(s.accepted, s.groups, |s.groups|, k + 1);
    hide R.Assembly.Add;
    assert Run(CLEAN, fs[..k]).0.Take(fs[k]).0 == Run(CLEAN, fs[..k + 1]).0;
  }

  // ---- progress

  /** No loss, no repetition, no corruption, no new message. */
  ghost predicate Smooth(s: System, e: Event) {
    match e
    case DeliverData(p, again, _) => p in s.toReceiver && !again
    case DeliverAck(p, again) => p in s.toSender && !again
    case Timeout => true
    case _ => false
  }

  /** As Leads, over smooth events only. */
  ghost predicate LeadsSmoothly(s: System, es: seq<Event>, s': System)
    decreases |es|
  {
    if es == [] then s == s' else
    && Smooth(s, es[0]) && Enabled(s, es[0]) && s.sender.Valid() && s.receiver.expected < TWO32
    && LeadsSmoothly(Apply(s, es[0]), es[1..], s')
  }

  lemma {:induction false} Concatenate(s: System, es: seq<Event>, s1: System, fs: seq<Event>, s2: System)
    requires LeadsSmoothly(s, es, s1) && LeadsSmoothly(s1, fs, s2)
    ensures LeadsSmoothly(s, es + fs, s2)
    decreases |es|
  {
    hide Smooth, Enabled, Apply, S.State.Valid;
    if es == [] {
      assert es + fs == fs;
    } else {
      Concatenate(Apply(s, es[0]), es[1..], s1, fs, s2);
      assert (es + fs)[0] == es[0] && (es + fs)[1..] == es[1..] + fs;
    }
  }

  lemma OneStep(s: System, e: Event)
    requires Smooth(s, e) && Enabled(s, e) && s.sender.Valid() && s.receiver.expected < TWO32
    ensures LeadsSmoothly(s, [e], Apply(s, e))
  {
    hide Smooth, Enabled, Apply;
    assert [e][1..] == [];
  }

  const BLANK: Packet := seq(128, _ => 0)

  /** The window's frames from `i` on are in flight. */
  ghost predicate InFlight(s: System, i: nat) {
    forall k :: i <= k < s.sender.nwindow <= |s.sender.buffer| ==> s.sender.buffer[k] in s.toReceiver
  }

  lemma WaitsAbove(fs: seq<Packet>, r: R.State, delivered: seq<Message>, limit: int)
    requires ReceiverInv(fs, r, delivered, limit)
    ensures Draining(fs, r, delivered, limit) && r.expected !in r.early && r.expected <= limit <= |fs|
  {
    hide Run;
  }

  lemma AtLimit(fs: seq<Packet>, p: Packet, limit: int)
    requires Genuine(fs, p, limit)
    ensures SeqOf(p) < limit && SeqOf(p) < |fs| && p == fs[SeqOf(p)]
  {
  }

  /** A frame at or below the expected one brings the receiver past it and an answer. */
  lemma FrameTaken(fs: seq<Packet>, r: R.State, delivered: seq<Message>, limit: int, p: Packet)
    requires ReceiverInv(fs, r, delivered, limit) && Genuine(fs, p, limit) && Intact(p) && SeqOf(p) <= r.expected
    requires limit <= r.expected + WINDOW_SIZE && |fs| < TWO32
    ensures var (r', _, acks) := r.Receive(p); r'.expected > SeqOf(p) && acks == [r'.expected - 1]
  {
    hide Run, R.State.Drain, R.State.Consume, Intact, Draining, ReceiverInv, Genuine;
    WaitsAbove(fs, r, delivered, limit);
    if SeqOf(p) == r.expected {
      AtLimit(fs, p, limit);
      ConsumeInv(fs, r, delivered, limit, p);
      var (r1, out1) := r.Consume(p);
      DrainInv(fs, r1, delivered + out1, limit);
      var (r2, out2) := r1.Drain();
      WaitsAbove(fs, r2, delivered + out1 + out2, limit);
    }
  }

  /** Delivering window frame `i` to a receiver that has all before it. */
  lemma DeliverOne(s: System, i: nat) returns (s': System)
    requires Inv(s) && i < s.sender.nwindow && InFlight(s, i) && s.Base() + i <= s.receiver.expected
    ensures Inv(s') && LeadsSmoothly(s, [DeliverData(s.sender.buffer[i], false, BLANK)], s')
    ensures s'.sender == s.sender && s'.accepted == s.accepted && InFlight(s', i + 1)
    ensures s'.Base() == s.Base() && s'.Base() + i + 1 <= s'.receiver.expected <= s'.Limit()
    ensures FormAck(BLANK, s'.receiver.expected - 1) in s'.toSender
  {
    hide Run, Flatten, Carries, R.State.Receive, S.State.Valid, FormAck, NetworkInv, Apply, Genuine;
    Parts(s);
    SizeOfFrames(s.sender, s.Frames());
    var p := s.sender.buffer[i];
    QueuedGenuine(s.sender, s.Frames(), i);
    var e := DeliverData(p, false, BLANK);
    StepInv(s, e);
    s' := Apply(s, e);
    OneStep(s, e);
    RdtSystem.DataFields(s, p, false, BLANK);
    InWindowGenuine(s.Frames(), p, s.Base() + i + 1, s.Limit(), s.sender, i);
    FrameTaken(s.Frames(), s.receiver, s.delivered, s.Limit(), p);
    Parts(s');
    var acks := s.receiver.Receive(p).2;
    assert R.Acks(BLANK, acks)[0] == FormAck(BLANK, acks[0]);
    StillInFlight(s, s', i);
  }

  lemma InWindowGenuine(fs: seq<Packet>, p: Packet, low: int, limit: int, st: S.State, i: nat)
    requires Genuine(fs, p, low) && low <= limit && SenderInv(st, fs) && i < |st.buffer| && p == st.buffer[i]
    ensures Genuine(fs, p, limit) && Intact(p) && SeqOf(p) == st.nextSeq - |st.buffer| + i
  {
  }

  lemma StillInFlight(s: System, s': System, i: nat)
    requires InFlight(s, i) && i < s.sender.nwindow <= |s.sender.buffer| && s'.sender == s.sender
    requires s'.toReceiver == Left(s.toReceiver, s.sender.buffer[i], false)
    requires SenderInv(s.sender, s.Frames())
    ensures InFlight(s', i + 1)
  {
    forall k | i + 1 <= k < s.sender.nwindow ensures s.sender.buffer[k] in s'.toReceiver {
      assert SeqOf(s.sender.buffer[k]) != SeqOf(s.sender.buffer[i]);
    }
  }

  /** Delivering the whole window in order. */
  lemma {:induction false} DeliverAll(s: System, i: nat) returns (es: seq<Event>, s': System)
    requires Inv(s) && i < s.sender.nwindow && InFlight(s, i) && s.Base() + i <= s.receiver.expected
    ensures Inv(s') && LeadsSmoothly(s, es, s')
    ensures s'.sender == s.sender && s'.accepted == s.accepted
    ensures s'.receiver.expected == s'.Limit() && FormAck(BLANK, s'.receiver.expected - 1) in s'.toSender
    decreases s.sender.nwindow - i
  {
    hide *;
    Parts(s);
    s' := DeliverOne(s, i);
    es := [DeliverData(s.sender.buffer[i], false, BLANK)];
    Parts(s');
    if i + 1 < s.sender.nwindow {
      var s1 := s';
      var rest;
      rest, s' := DeliverAll(s1, i + 1);
      Concatenate(s, es, s1, rest, s');
      es := es + rest;
    }
  }

  /** Timeout, the whole window, one acknowledgement: the queue gets shorter. */
  lemma Round(s: System) returns (es: seq<Event>, s': System)
    requires Inv(s) && s.sender.buffer != []
    ensures Inv(s') && LeadsSmoothly(s, es, s') && s'.accepted == s.accepted
    ensures |s'.sender.buffer| < |s.sender.buffer|
  {
    var s1 := AfterTimeout(s);
    hide *;
    Parts(s1);
    var es2, s2 := DeliverAll(s1, 0);
    s' := AfterAck(s2);
    Concatenate(s, [Timeout], s1, es2, s2);
    Concatenate(s, [Timeout] + es2, s2, [DeliverAck(FormAck(BLANK, s2.receiver.expected - 1), false)], s');
    es := [Timeout] + es2 + [DeliverAck(FormAck(BLANK, s2.receiver.expected - 1), false)];
  }

  lemma AfterTimeout(s: System) returns (s': System)
    requires Inv(s) && s.sender.buffer != []
    ensures Inv(s') && LeadsSmoothly(s, [Timeout], s') && s'.accepted == s.accepted
    ensures s'.sender.buffer == s.sender.buffer && s'.sender.nwindow == s.sender.nwindow > 0 && InFlight(s', 0)
  {
    Parts(s);
    hide Run, Flatten, Carries, Inv, Apply;
    StepInv(s, Timeout);
    OneStep(s, Timeout);
    TimeoutFields(s);
    s' := Apply(s, Timeout);
    forall k | 0 <= k < s.sender.nwindow ensures s.sender.buffer[k] in s'.toReceiver {
      assert s.sender.Expire().1[k] == s.sender.buffer[k];
    }
  }

  lemma AfterAck(s: System) returns (s': System)
    requires Inv(s) && s.sender.nwindow > 0 && s.receiver.expected == s.Limit()
    requires FormAck(BLANK, s.receiver.expected - 1) in s.toSender
    ensures Inv(s') && LeadsSmoothly(s, [DeliverAck(FormAck(BLANK, s.receiver.expected - 1), false)], s')
    ensures s'.accepted == s.accepted && |s'.sender.buffer| < |s.sender.buffer|
  {
    Parts(s);
    hide Run, Flatten, Carries, Inv, Apply, FormAck, S.State.Valid;
    var q := FormAck(BLANK, s.receiver.expected - 1);
    var e := DeliverAck(q, false);
    StepInv(s, e);
    OneStep(s, e);
    AckFields(s, q, false);
    s' := Apply(s, e);
  }

  /** From every reachable state some smooth run delivers everything that was accepted. */
  lemma {:induction false} Progress(s: System) returns (es: seq<Event>, s': System)
    requires Inv(s)
    ensures Inv(s') && LeadsSmoothly(s, es, s') && s'.accepted == s.accepted
    ensures s'.sender.buffer == [] && s'.delivered == s'.accepted
    decreases |s.sender.buffer|
  {
    if s.sender.buffer == [] {
      es, s' := [], s;
      EmptyMeansDelivered(s);
    } else {
      hide *;
      var es1, s1 := Round(s);
      es, s' := Progress(s1);
      Concatenate(s, es1, s1, es, s');
      es := es1 + es;
    }
  }

  lemma EmptyMeansDelivered(s: System)
    requires Inv(s) && s.sender.buffer == []
    ensures s.delivered == s.accepted
  {
    Parts(s);
    hide SenderInv, NetworkInv, Run, Carries, Flatten;
    DeliveredPrefix(s);
    SizeOfFrames(s.sender, s.Frames());
  }

  /** Whatever has happened so far, all that was accepted can still be delivered. */
  lemma CanFinish(es: seq<Event>, s: System) returns (fs: seq<Event>, s': System)
    requires Leads(START, es, s)
    ensures LeadsSmoothly(s, fs, s') && s'.accepted == s.accepted && s'.delivered == s.accepted
  {
    hide *;
    StartInv();
    RunInv(START, es, s);
    fs, s' := Progress(s);
  }
}
