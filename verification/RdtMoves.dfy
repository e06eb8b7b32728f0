/**
  What each event does to the window of the sender and to the frames the receiver has,
  said of frame numbers alone, and what that comes to over whole runs.
 */
module RdtMoves {
  import opened Numbers
  import opened RdtChecksum
  import opened RdtFrames
  import opened RdtMessages
  import opened RdtSystem
  import opened RdtRuns
  import S = RdtSender
  import R = RdtReceiver

  // ---- the sender

  /** The queue holds the frames from `Base` on. */
  lemma QueueIs(s: System)
    requires Inv(s)
    ensures 0 <= s.Base() <= s.Limit() <= |s.Frames()| && s.sender.buffer == s.Frames()[s.Base()..]
    ensures forall i, j :: 0 <= i <= j <= |s.sender.buffer| ==>
      s.sender.buffer[i..j] == s.Frames()[s.Base() + i..s.Base() + j]
  {
    hide Carries, ReceiverInv, NetworkInv, Numbered, Flatten;
  }

  lemma SubmitOpens(st: S.State, junk: Packet, msg: Message)
    requires st.Valid() && (st.timer <==> st.nwindow > 0) && st.nwindow <= WINDOW_SIZE
    requires |msg| < TWO32 && st.nextSeq + S.FrameCount(msg) < TWO32
    ensures var (st', out) := st.Submit(junk, msg);
      && st'.nextSeq == st.nextSeq + S.FrameCount(msg) && |st'.buffer| == |st.buffer| + S.FrameCount(msg)
      && st'.nwindow == (if st.nwindow == 0 then Min(10, |st'.buffer|) else st.nwindow)
      && st.nwindow <= st'.nwindow <= |st'.buffer| && out == st'.buffer[st.nwindow..st'.nwindow]
  {
    hide SeqOf, Intact;
  }

  lemma AckOpens(st: S.State, p: Packet)
    requires st.Valid() && (st.timer <==> st.nwindow > 0) && st.nwindow <= WINDOW_SIZE
    ensures var (st', out) := st.Acknowledge(p); var n := Covered(st, p);
      && n <= st.nwindow && st'.nextSeq == st.nextSeq && st'.buffer == st.buffer[n..] && |st'.buffer| == |st.buffer| - n
      && st'.nwindow == (if n > 0 then Min(10, |st'.buffer|) else st.nwindow)
      && st.nwindow <= n + st'.nwindow <= |st.buffer| && out == st.buffer[st.nwindow..n + st'.nwindow]
  {
    hide SeqOf, Intact, AckOf;
  }

  lemma AckSizes(st: S.State, p: Packet)
    requires st.Valid() && (st.timer <==> st.nwindow > 0) && st.nwindow <= WINDOW_SIZE
    ensures var (st', out) := st.Acknowledge(p); var n := Covered(st, p);
      && n <= st.nwindow && st'.nextSeq == st.nextSeq && |st'.buffer| == |st.buffer| - n
      && st'.nwindow == (if n > 0 then Min(10, |st'.buffer|) else st.nwindow)
      && st.nwindow <= n + st'.nwindow <= |st.buffer| && out == st.buffer[st.nwindow..n + st'.nwindow]
  {
    hide *;
    AckOpens(st, p);
  }

  /** How many frames of the window an acknowledgement covers: none if it is damaged or outside the window. */
  ghost function Covered(st: S.State, p: Packet): (n: nat)
    requires st.Valid()
  {
    var base := st.nextSeq - |st.buffer|;
    if Intact(p) && base <= AckOf(p) < base + st.nwindow then AckOf(p) - base + 1 else 0
  }

  /** A message given to an idle sender opens the window to ten frames or all there are, and exactly these are
      sent; otherwise it waits. */
  lemma Submitted(s: System, msg: Message, junk: Packet)
    requires Inv(s) && Enabled(s, Submit(msg, junk))
    ensures s.sender.Valid() && s.receiver.expected < TWO32
    ensures var s' := Apply(s, Submit(msg, junk));
      && s'.Base() == s.Base() && |s'.Frames()| == |s.Frames()| + S.FrameCount(msg)
      && s'.sender.nwindow == (if s.sender.nwindow == 0 then Min(10, |s'.sender.buffer|) else s.sender.nwindow)
      && Sent(s, s', s.Limit(), s'.Limit())
  {
    hide *;
    Parts(s);
    SizeOfFrames(s.sender, s.Frames());
    SubmitFields(s, msg, junk);
    StepInv(s, Submit(msg, junk));
    SubmitOpens(s.sender, junk, msg);
    var s' := Apply(s, Submit(msg, junk));
    Parts(s');
    QueueSlice(s', s.sender.nwindow, s'.sender.nwindow);
    SentIs(s, s', s.sender.Submit(junk, msg).1, s.Limit(), s'.Limit());
  }

  /** Exactly the frames `from` to `to` are handed to the network. */
  ghost predicate Sent(s: System, s': System, from: int, to: int) {
    0 <= from <= to <= |s'.Frames()| && s'.toReceiver == s.toReceiver + multiset(s'.Frames()[from..to])
  }

  lemma SentIs(s: System, s': System, out: seq<Packet>, from: int, to: int)
    requires 0 <= from <= to <= |s'.Frames()| && out == s'.Frames()[from..to]
    requires s'.toReceiver == s.toReceiver + multiset(out)
    ensures Sent(s, s', from, to)
  {
  }

  lemma QueueSlice(s: System, i: nat, j: nat)
    requires Inv(s) && i <= j <= |s.sender.buffer|
    ensures 0 <= s.Base() && s.Base() + j <= |s.Frames()|
    ensures s.sender.buffer[i..j] == s.Frames()[s.Base() + i..s.Base() + j]
  {
    QueueIs(s);
  }

  lemma AckEffect(s: System, p: Packet, again: bool)
    requires Enabled(s, DeliverAck(p, again)) && s.sender.Valid() && s.receiver.expected < TWO32
    ensures var s' := Apply(s, DeliverAck(p, again)); var (st', out) := s.sender.Acknowledge(p);
      s'.sender == st' && s'.toReceiver == s.toReceiver + multiset(out) && s'.Frames() == s.Frames()
  {
    hide *;
    AckFields(s, p, again);
  }

  lemma TimeoutEffect(s: System)
    requires Enabled(s, Timeout) && s.sender.Valid() && s.receiver.expected < TWO32
    ensures var s' := Apply(s, Timeout);
      && s'.sender.nextSeq == s.sender.nextSeq && s'.sender.buffer == s.sender.buffer
      && s'.sender.nwindow == s.sender.nwindow <= |s.sender.buffer| && s'.Frames() == s.Frames()
      && s'.toReceiver == s.toReceiver + multiset(s.sender.buffer[0..s.sender.nwindow])
  {
    TimeoutFields(s);
    hide Flatten, Apply;
    assert s.sender.buffer[..s.sender.nwindow] == s.sender.buffer[0..s.sender.nwindow];
  }

  /** An acknowledgement inside the window removes the frames up to it and opens the window again to ten frames or
      all there are; exactly the frames that come in are sent. Any other acknowledgement changes nothing. */
  lemma Acknowledged(s: System, p: Packet, again: bool)
    requires Inv(s) && Enabled(s, DeliverAck(p, again))
    ensures s.sender.Valid() && s.receiver.expected < TWO32
    ensures var s' := Apply(s, DeliverAck(p, again)); var n := Covered(s.sender, p);
      && s'.Base() == s.Base() + n && s'.Frames() == s.Frames()
      && s'.sender.nwindow == (if n > 0 then Min(10, |s'.sender.buffer|) else s.sender.nwindow)
      && Sent(s, s', s.Limit(), s'.Limit())
  {
    hide *;
    Parts(s);
    SizeOfFrames(s.sender, s.Frames());
    AckEffect(s, p, again);
    StepInv(s, DeliverAck(p, again));
    AckSizes(s.sender, p);
    var s' := Apply(s, DeliverAck(p, again));
    Parts(s');
    QueueSlice(s, s.sender.nwindow, Covered(s.sender, p) + s'.sender.nwindow);
    SentIs(s, s', s.sender.Acknowledge(p).1, s.Limit(), s'.Limit());
  }

  /** When the timer goes off, exactly the window is sent again. */
  lemma Expired(s: System)
    requires Inv(s) && Enabled(s, Timeout)
    ensures s.sender.Valid() && s.receiver.expected < TWO32
    ensures var s' := Apply(s, Timeout);
      && s'.Base() == s.Base() && s'.Frames() == s.Frames() && s'.sender.nwindow == s.sender.nwindow
      && Sent(s, s', s.Base(), s.Limit())
  {
    hide *;
    Parts(s);
    TimeoutEffect(s);
    StepInv(s, Timeout);
    Parts(Apply(s, Timeout));
    QueueSlice(s, 0, s.sender.nwindow);
    SentIs(s, Apply(s, Timeout), s.sender.buffer[0..s.sender.nwindow], s.Base(), s.Limit());
  }

  // ---- the receiver

  /** Draining takes the waiting frames up to the first gap, and leaves the others waiting. */
  lemma {:induction false} DrainMeans(r: R.State)
    ensures var r' := r.Drain().0;
      && r.expected <= r'.expected && r'.expected !in r.early
      && (forall k :: r.expected <= k < r'.expected ==> k in r.early)
      && (forall k :: k in r'.early <==> k in r.early && !(r.expected <= k < r'.expected))
      && (forall k :: k in r'.early ==> r'.early[k] == r.early[k])
    decreases |r.early|
  {
    hide R.State.Drain, R.Assembly.Take;
    if r.expected !in r.early {
      R.DrainDone(r);
    } else {
      R.DrainStep(r);
      var r1 := R.State(r.expected, r.assembly, r.early - {r.expected}).Consume(r.early[r.expected]).0;
      assert forall k :: k in r.early <==> k in r1.early || k == r.expected;
      DrainMeans(r1);
    }
  }

  /** The new state of the receiver and the number it acknowledges, by the number of the frame that arrives: an old
      one is acknowledged again, an early one waits if the end of the window does not wrap around, and the expected
      one is taken with all that waited for it. */
  lemma ReceiveMeans(r: R.State, p: Packet)
    requires r.expected < TWO32 && Intact(p) && (forall k :: k in r.early ==> r.expected < k)
    ensures var (r', out, acks) := r.Receive(p); var n := SeqOf(p);
      && (n < r.expected ==> r' == r && out == [] && acks == [r.expected - 1])
      && (r.expected < n < r.expected + 10 < TWO32 ==>
            r' == r.(early := r.early[n := p]) && out == [] && acks == if r.expected > 0 then [r.expected - 1] else [])
      && (r.expected < n && !(n < r.expected + 10 < TWO32) ==>
            r' == r && out == [] && acks == [(r.expected + TWO32 - 1) % TWO32])
      && (n == r.expected ==>
            && r.expected < r'.expected && r'.expected !in r.early
            && (forall k :: r.expected < k < r'.expected ==> k in r.early)
            && (forall k :: k in r'.early <==> k in r.early && r'.expected < k)
            && (forall k :: k in r'.early ==> r'.early[k] == r.early[k])
            && (r'.expected <= TWO32 ==> acks == [r'.expected - 1]))
  {
    hide R.State.Drain, R.Assembly.Take, Intact, SeqOf;
    if SeqOf(p) == r.expected {
      DrainMeans(r.Consume(p).0);
    }
  }

  // ---- runs

  /** The number of the frame that arrives intact with an event, if any. */
  ghost function Arrival(e: Event): (r: set<nat>) {
    if e.DeliverData? && Intact(e.data) then {SeqOf(e.data)} else {}
  }

  ghost function Arrivals(es: seq<Event>): (r: set<nat>) {
    if es == [] then {} else Arrival(es[0]) + Arrivals(es[1..])
  }

  /** The receiver has consumed, or keeps waiting, exactly the frames of `got`. */
  ghost predicate Has(r: R.State, got: set<nat>) {
    forall k: nat :: k in got <==> k < r.expected || k in r.early
  }

  lemma WaitingAbove(s: System)
    requires Inv(s)
    ensures (forall k :: k in s.receiver.early ==> s.receiver.expected < k)
    ensures s.receiver.expected <= s.sender.nextSeq && s.receiver.expected < TWO32
    ensures forall p :: p in s.toReceiver ==> Intact(p) && SeqOf(p) < s.receiver.expected + WINDOW_SIZE
  {
    hide Carries, Run, Flatten;
    SizeOfFrames(s.sender, s.Frames());
    forall p | p in s.toReceiver ensures Intact(p) && SeqOf(p) < s.receiver.expected + WINDOW_SIZE {
      assert Genuine(s.Frames(), p, s.Limit());
    }
  }

  lemma ReceiveHas(r: R.State, p: Packet, got: set<nat>)
    requires r.expected + 10 < TWO32 && (forall k :: k in r.early ==> r.expected < k) && Has(r, got)
    requires Intact(p) && SeqOf(p) < r.expected + WINDOW_SIZE
    ensures Has(r.Receive(p).0, got + {SeqOf(p)})
  {
    ReceiveMeans(r, p);
    hide R.State.Receive, Intact, SeqOf;
  }

  lemma ArrivalHas(s: System, e: Event, got: set<nat>)
    requires Inv(s) && Enabled(s, e) && Has(s.receiver, got) && s.sender.nextSeq + WINDOW_SIZE < TWO32
    ensures s.sender.Valid() && s.receiver.expected < TWO32
    ensures Has(Apply(s, e).receiver, got + Arrival(e))
  {
    Parts(s);
    WaitingAbove(s);
    hide Inv, S.State.Valid, Has, R.State.Drain, S.State.Submit, S.State.Acknowledge, S.State.Expire;
    assert got + {} == got;
    if e.DeliverData? && Intact(e.data) {
      ReceiveHas(s.receiver, e.data, got);
    }
  }

  lemma NumbersGrow(s: System, e: Event)
    requires Enabled(s, e) && s.sender.Valid() && s.receiver.expected < TWO32
    ensures s.sender.nextSeq <= Apply(s, e).sender.nextSeq
  {
    hide Intact, AckOf, SeqOf, S.MessageFrames;
  }

  lemma {:induction false} RunGrows(s: System, es: seq<Event>, s': System)
    requires Leads(s, es, s')
    ensures s.sender.nextSeq <= s'.sender.nextSeq
    decreases |es|
  {
    if es != [] {
      hide Enabled, Apply, S.State.Valid;
      NumbersGrow(s, es[0]);
      RunGrows(Apply(s, es[0]), es[1..], s');
    }
  }

  lemma {:induction false} RunHas(s: System, es: seq<Event>, s': System, got: set<nat>)
    requires Inv(s) && Leads(s, es, s') && Has(s.receiver, got) && s'.sender.nextSeq + WINDOW_SIZE < TWO32
    ensures Has(s'.receiver, got + Arrivals(es))
    decreases |es|
  {
    if es == [] {
      assert got + {} == got;
    } else {
      hide Inv, Enabled, Apply, S.State.Valid, Has;
      RunGrows(s, es, s');
      StepInv(s, es[0]);
      ArrivalHas(s, es[0], got);
      RunHas(Apply(s, es[0]), es[1..], s', got + Arrival(es[0]));
      assert got + Arrival(es[0]) + Arrivals(es[1..]) == got + Arrivals(es);
    }
  }

  /** In every run, until frame numbers come near 2^32, the receiver expects the least frame that has not arrived
      intact, keeps all later ones that have, and has delivered exactly the messages all of whose frames lie
      below it. */
  lemma Received(es: seq<Event>, s: System) returns (j: nat)
    requires Leads(START, es, s) && s.sender.nextSeq + WINDOW_SIZE < TWO32
    ensures s.receiver.expected !in Arrivals(es) && forall k: nat :: k < s.receiver.expected ==> k in Arrivals(es)
    ensures forall k: nat :: k in s.receiver.early <==> k in Arrivals(es) && k > s.receiver.expected
    ensures j <= |s.accepted| == |s.groups| && s.delivered == s.accepted[..j]
    ensures |Flatten(s.groups, j)| <= s.receiver.expected
    ensures j < |s.groups| ==> s.receiver.expected < |Flatten(s.groups, j + 1)|
  {
    StartInv();
    RunInv(START, es, s);
    assert Has(START.receiver, {});
    RunHas(START, es, s, {});
    assert {} + Arrivals(es) == Arrivals(es);
    WaitingAbove(s);
    hide Leads, Arrivals;
    j := Delivered(s);
  }

  lemma Delivered(s: System) returns (j: nat)
    requires Inv(s)
    ensures j <= |s.accepted| == |s.groups| && s.delivered == s.accepted[..j]
    ensures |Flatten(s.groups, j)| <= s.receiver.expected
    ensures j < |s.groups| ==> s.receiver.expected < |Flatten(s.groups, j + 1)|
  {
    hide Run, NetworkInv, SenderInv, Carries;
    j := WholeMessages(s.accepted, s.groups, |s.groups|, s.receiver.expected);
    AsMany(s.accepted, s.groups);
  }
}
