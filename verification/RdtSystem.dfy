/**
  Sender, receiver and a network that may lose, delay, reorder, repeat and
  corrupt packets, as one step system.
 */
module RdtSystem {
  import opened Numbers
  import opened RdtChecksum
  import opened RdtFrames
  import opened RdtMessages
  import S = RdtSender
  import R = RdtReceiver

  /** `accepted` and `groups` record every message submitted and the frames made for it. */
  datatype System = System(sender: S.State, receiver: R.State,
                           toReceiver: multiset<Packet>, toSender: multiset<Packet>,
                           accepted: seq<Message>, groups: seq<seq<Packet>>, delivered: seq<Message>) {

    ghost function Frames(): (fs: seq<Packet>) { Flatten(groups, |groups|) }

    /** The number of the first frame not acknowledged, and of the first not yet sent. */
    ghost function Base(): (n: int) { sender.nextSeq - |sender.buffer| }

    ghost function Limit(): (n: int) { Base() + sender.nwindow }
  }

  datatype Event =
    | Submit(msg: Message, junk: Packet)
    | DeliverData(data: Packet, again: bool, junk: Packet)
    | DeliverAck(ack: Packet, again: bool)
    | Timeout
    | LoseData(data: Packet)
    | LoseAck(ack: Packet)

  const START := System(S.State(0, 0, [], false), R.State(0, R.Assembly(0, []), map[]),
                        multiset{}, multiset{}, [], [], [])

  /** Packets are delivered from the network, or arrive corrupted in a way the checksum shows. */
  ghost predicate Enabled(s: System, e: Event) {
    match e
    case Submit(msg, _) => |msg| <= 0x7fff_ffff && s.sender.nextSeq + S.FrameCount(msg) < TWO32
    case DeliverData(p, _, _) => p in s.toReceiver || !Intact(p)
    case DeliverAck(p, _) => p in s.toSender || !Intact(p)
    case Timeout => s.sender.timer
    case LoseData(p) => p in s.toReceiver
    case LoseAck(p) => p in s.toSender
  }

  ghost function Left(net: multiset<Packet>, p: Packet, again: bool): (r: multiset<Packet>) {
    if again then net else net - multiset{p}
  }

  ghost function Apply(s: System, e: Event): (s': System)
    requires Enabled(s, e) && s.sender.Valid() && s.receiver.expected < TWO32
  {
    match e
    case Submit(msg, junk) =>
      var (sender, out) := s.sender.Submit(junk, msg);
      s.(sender := sender, toReceiver := s.toReceiver + multiset(out), accepted := s.accepted + [msg],
         groups := s.groups + [S.MessageFrames(junk, msg, s.sender.nextSeq)])
    case DeliverData(p, again, junk) =>
      var (receiver, out, acks) := s.receiver.Receive(p);
      s.(receiver := receiver, delivered := s.delivered + out, toReceiver := Left(s.toReceiver, p, again),
         toSender := s.toSender + multiset(R.Acks(junk, acks)))
    case DeliverAck(p, again) =>
      var (sender, out) := s.sender.Acknowledge(p);
      s.(sender := sender, toReceiver := s.toReceiver + multiset(out), toSender := Left(s.toSender, p, again))
    case Timeout =>
      var (sender, out) := s.sender.Expire();
      s.(sender := sender, toReceiver := s.toReceiver + multiset(out))
    case LoseData(p) => s.(toReceiver := s.toReceiver - multiset{p})
    case LoseAck(p) => s.(toSender := s.toSender - multiset{p})
  }

  // ---- the invariant

  ghost predicate Numbered(fs: seq<Packet>) {
    forall i :: 0 <= i < |fs| ==> SeqOf(fs[i]) == i && Intact(fs[i])
  }

  /** The queue is the unacknowledged end of all frames, the window its beginning. */
  ghost predicate SenderInv(st: S.State, fs: seq<Packet>) {
    && st.Valid() && st.nwindow <= WINDOW_SIZE && (st.timer <==> st.nwindow > 0)
    && |fs| == st.nextSeq && fs[st.nextSeq - |st.buffer|..] == st.buffer
    && Numbered(fs)
  }

  /** `p` is a frame of the run, and numbered below `limit`. */
  ghost predicate Genuine(fs: seq<Packet>, p: Packet, limit: int) {
    SeqOf(p) < |fs| && SeqOf(p) < limit && p == fs[SeqOf(p)]
  }

  /** The receiver has consumed the frames below `expected`, and holds only genuine ones above. */
  ghost predicate ReceiverInv(fs: seq<Packet>, r: R.State, delivered: seq<Message>, limit: int) {
    && r.expected <= limit <= |fs|
    && (forall k :: k in r.early ==> r.expected < k < limit && r.early[k] == fs[k])
    && Run(CLEAN, fs[..r.expected]) == (r.assembly, delivered)
  }

  /** Data packets in flight are genuine, acknowledgements in flight are true. */
  ghost predicate NetworkInv(toReceiver: multiset<Packet>, toSender: multiset<Packet>, fs: seq<Packet>, limit: int,
                             expected: nat) {
    && (forall p :: p in toReceiver ==> Genuine(fs, p, limit))
    && (forall p :: p in toSender ==> Intact(p) && AckOf(p) < expected)
  }

  ghost predicate Inv(s: System) {
    && Carries(s.accepted, s.groups)
    && SenderInv(s.sender, s.Frames())
    && s.Base() <= s.receiver.expected && ReceiverInv(s.Frames(), s.receiver, s.delivered, s.Limit())
    && NetworkInv(s.toReceiver, s.toSender, s.Frames(), s.Limit(), s.receiver.expected)
  }

  lemma StartInv()
    ensures Inv(START)
  {
    hide Run;
    RunNone(CLEAN);
    assert START.Frames()[..0] == [];
  }

  // ---- the receiver's part

  /** As ReceiverInv, but the expected frame itself may be waiting too. */
  ghost predicate Draining(fs: seq<Packet>, r: R.State, delivered: seq<Message>, limit: int) {
    && r.expected <= limit <= |fs|
    && (forall k :: k in r.early ==> r.expected <= k < limit && r.early[k] == fs[k])
    && Run(CLEAN, fs[..r.expected]) == (r.assembly, delivered)
  }

  /** Consuming the expected frame takes one more frame into account. */
  lemma ConsumeInv(fs: seq<Packet>, r: R.State, delivered: seq<Message>, limit: int, p: Packet)
    requires Draining(fs, r, delivered, limit) && r.expected < limit && p == fs[r.expected] && r.expected !in r.early
    ensures var (r', out) := r.Consume(p); r'.expected == r.expected + 1 && Draining(fs, r', delivered + out, limit)
  {
    var (r', out) := r.Consume(p);
    hide Run, R.Assembly.Take;
    assert fs[..r.expected + 1] == fs[..r.expected] + [p];
    RunAppend(CLEAN, fs[..r.expected], p);
    PairUp(Run(CLEAN, fs[..r'.expected]), r'.assembly, delivered + out);
  }

  lemma PairUp<A, B>(p: (A, B), a: A, b: B)
    requires p.0 == a && p.1 == b
    ensures p == (a, b)
  {
  }

  lemma {:induction false} DrainInv(fs: seq<Packet>, r: R.State, delivered: seq<Message>, limit: int)
    requires Draining(fs, r, delivered, limit)
    ensures var (r', out) := r.Drain(); r.expected <= r'.expected && ReceiverInv(fs, r', delivered + out, limit)
    decreases |r.early|
  {
    hide Run, R.State.Drain, R.State.Consume;
    if r.expected !in r.early {
      R.DrainDone(r);
      assert delivered + [] == delivered;
    } else {
      var r0 := R.State(r.expected, r.assembly, r.early - {r.expected});
      var p := r.early[r.expected];
      ConsumeInv(fs, r0, delivered, limit, p);
      R.DrainStep(r);
      var (r1, out1) := r0.Consume(p);
      DrainInv(fs, r1, delivered + out1, limit);
      assert delivered + (out1 + r1.Drain().1) == delivered + out1 + r1.Drain().1;
    }
  }

  /** A genuine packet keeps the receiver right, and is acknowledged truthfully. */
  lemma ReceiveInv(fs: seq<Packet>, r: R.State, delivered: seq<Message>, limit: int, p: Packet)
    requires ReceiverInv(fs, r, delivered, limit) && Genuine(fs, p, limit)
    requires limit <= r.expected + WINDOW_SIZE && |fs| < TWO32
    ensures var (r', out, acks) := r.Receive(p);
      && r.expected <= r'.expected && ReceiverInv(fs, r', delivered + out, limit)
      && (forall i :: 0 <= i < |acks| ==> acks[i] < r'.expected)
  {
    hide Run, R.State.Drain, R.State.Consume, Intact;
    assert delivered + [] == delivered;
    if Intact(p) && SeqOf(p) == r.expected {
      ConsumeInv(fs, r, delivered, limit, p);
      var (r1, out1) := r.Consume(p);
      DrainInv(fs, r1, delivered + out1, limit);
      assert delivered + (out1 + r1.Drain().1) == delivered + out1 + r1.Drain().1;
    }
  }

  // ---- the sender's part

  lemma {:induction false} FramesAppend(groups: seq<seq<Packet>>, g: seq<Packet>)
    ensures Flatten(groups + [g], |groups| + 1) == Flatten(groups, |groups|) + g
  {
    FlattenAppend(groups, g, |groups|);
  }

  /** Every queued frame is a frame of the run at its number. */
  lemma QueuedGenuine(st: S.State, fs: seq<Packet>, i: nat)
    requires SenderInv(st, fs) && i < |st.buffer|
    ensures Genuine(fs, st.buffer[i], st.nextSeq - |st.buffer| + i + 1)
  {
    assert st.buffer[i] == fs[st.nextSeq - |st.buffer| + i];
  }

  /** Everything in `out` lies in the window. */
  ghost predicate InWindow(st: S.State, out: seq<Packet>) {
    st.nwindow <= |st.buffer| && forall p :: p in out ==> exists i :: 0 <= i < st.nwindow && st.buffer[i] == p
  }

  /** How the queue may change: frames go from the front, frames come at the end, the
      window never gets behind, and what is sent lies in the new window. */
  ghost predicate Moves(st: S.State, st': S.State, gone: nat, g: seq<Packet>, out: seq<Packet>) {
    && gone <= st.nwindow <= |st.buffer|
    && st'.buffer == (st.buffer + g)[gone..] && st'.nextSeq == st.nextSeq + |g| < TWO32
    && st.nwindow - gone <= st'.nwindow <= S.Max(st.nwindow, WINDOW_SIZE)
    && st'.nwindow <= |st'.buffer| && (st'.buffer != [] ==> st'.nwindow > 0)
    && (st'.timer <==> st'.nwindow > 0)
    && InWindow(st', out)
  }

  lemma Sliced(st: S.State, from: nat, to: nat)
    requires from <= to <= st.nwindow <= |st.buffer|
    ensures InWindow(st, st.buffer[from..to])
  {
    forall p | p in st.buffer[from..to] ensures exists i :: 0 <= i < st.nwindow && st.buffer[i] == p {
      var k :| 0 <= k < to - from && st.buffer[from..to][k] == p;
      assert st.buffer[from + k] == p;
    }
  }

  lemma SubmitMoves(st: S.State, junk: Packet, msg: Message)
    requires st.Valid() && (st.timer <==> st.nwindow > 0) && |msg| < TWO32 && st.nextSeq + S.FrameCount(msg) < TWO32
    ensures Moves(st, st.Submit(junk, msg).0, 0, S.MessageFrames(junk, msg, st.nextSeq), st.Submit(junk, msg).1)
  {
    hide S.MessageFrames, InWindow, SeqOf;
    var (st', out) := st.Submit(junk, msg);
    var g := S.MessageFrames(junk, msg, st.nextSeq);
    assert st'.buffer == st.buffer + g;
    Sliced(st', st.nwindow, st'.nwindow);
    Sliced(st', 0, 0);
  }

  lemma AckMoves(st: S.State, p: Packet) returns (gone: nat)
    requires st.Valid() && (st.timer <==> st.nwindow > 0)
    ensures Moves(st, st.Acknowledge(p).0, gone, [], st.Acknowledge(p).1)
    ensures gone > 0 ==> st.buffer != [] && Intact(p) && AckOf(p) == st.nextSeq - |st.buffer| + gone - 1
  {
    hide InWindow, SeqOf, AckOf, Intact;
    var (st', out) := st.Acknowledge(p);
    gone := |st.buffer| - |st'.buffer|;
    assert st.buffer + [] == st.buffer;
    Sliced(st', 0, 0);
    Sliced(st', Min(st'.nwindow, st.nwindow - gone), st'.nwindow);
  }

  lemma ExpireMoves(st: S.State)
    requires st.Valid()
    ensures Moves(st, st.Expire().0, 0, [], st.Expire().1)
  {
    hide InWindow, SeqOf;
    assert st.buffer + [] == st.buffer;
    Sliced(st.Expire().0, 0, st.nwindow);
  }

  /** The sender's half of the invariant survives any such move. */
  lemma MovedSender(st: S.State, st': S.State, fs: seq<Packet>, gone: nat, g: seq<Packet>, out: seq<Packet>)
    requires SenderInv(st, fs) && Moves(st, st', gone, g, out) && Numbered(fs + g)
    ensures SenderInv(st', fs + g)
  {
    hide InWindow, Numbered;
    var base := st.nextSeq - |st.buffer|;
    TailAfter(fs, g, base, gone);
    forall i | 0 <= i < |st'.buffer| ensures SeqOf(st'.buffer[i]) == base + gone + i {
      NumberedAt(fs + g, base + gone, i);
    }
  }

  lemma TailAfter<T>(fs: seq<T>, g: seq<T>, base: nat, gone: nat)
    requires base + gone <= |fs|
    ensures (fs + g)[base + gone..] == (fs[base..] + g)[gone..]
  {
  }

  lemma NumberedAt(fs: seq<Packet>, base: nat, i: nat)
    requires Numbered(fs) && base + i < |fs|
    ensures SeqOf(fs[base..][i]) == base + i
  {
  }

  /** The receiver is not disturbed by more frames and a wider window. */
  lemma MovedReceiver(fs: seq<Packet>, g: seq<Packet>, r: R.State, delivered: seq<Message>, limit: int, limit': int)
    requires ReceiverInv(fs, r, delivered, limit) && limit <= limit' <= |fs + g|
    ensures ReceiverInv(fs + g, r, delivered, limit')
  {
    hide Run;
    assert (fs + g)[..r.expected] == fs[..r.expected];
  }

  lemma MovedNetwork(st': S.State, fs: seq<Packet>, g: seq<Packet>, out: seq<Packet>, limit: int, expected: nat,
                     toReceiver: multiset<Packet>, toSender: multiset<Packet>, toSender': multiset<Packet>)
    requires NetworkInv(toReceiver, toSender, fs, limit, expected) && SenderInv(st', fs + g) && InWindow(st', out)
    requires limit <= st'.nextSeq - |st'.buffer| + st'.nwindow && toSender' <= toSender
    ensures NetworkInv(toReceiver + multiset(out), toSender', fs + g,
                       st'.nextSeq - |st'.buffer| + st'.nwindow, expected)
  {
    var limit' := st'.nextSeq - |st'.buffer| + st'.nwindow;
    hide SenderInv, SeqOf, Intact, AckOf;
    forall p | p in toReceiver + multiset(out) ensures Genuine(fs + g, p, limit') {
      if p in toReceiver {
        assert Genuine(fs, p, limit);
      } else {
        assert p in out;
        var i :| 0 <= i < st'.nwindow && st'.buffer[i] == p;
        QueuedGenuine(st', fs + g, i);
      }
    }
    forall p | p in toSender' ensures p in toSender {
    }
  }

  /** A move of the sender keeps the invariant. */
  lemma MovedInv(s: System, s': System, gone: nat, g: seq<Packet>, out: seq<Packet>)
    requires Inv(s) && Moves(s.sender, s'.sender, gone, g, out)
    requires Carries(s'.accepted, s'.groups) && Numbered(s'.Frames())
    requires s'.Frames() == s.Frames() + g && s.Base() + gone <= s.receiver.expected
    requires s'.receiver == s.receiver && s'.delivered == s.delivered
    requires s'.toReceiver == s.toReceiver + multiset(out) && s'.toSender <= s.toSender
    ensures Inv(s')
  {
    hide Carries, Numbered, SenderInv, ReceiverInv, NetworkInv, InWindow, Flatten;
    var fs := s.Frames();
    MovedSender(s.sender, s'.sender, fs, gone, g, out);
    SizeOfFrames(s'.sender, fs + g);
    MovedReceiver(fs, g, s.receiver, s.delivered, s.Limit(), s'.Limit());
    MovedNetwork(s'.sender, fs, g, out, s.Limit(), s.receiver.expected, s.toReceiver, s.toSender, s'.toSender);
  }

  lemma SizeOfFrames(st: S.State, fs: seq<Packet>)
    requires SenderInv(st, fs)
    ensures |fs| == st.nextSeq < TWO32 && st.nwindow <= |st.buffer| <= st.nextSeq && st.nwindow <= WINDOW_SIZE
    ensures st.Valid() && (st.timer <==> st.nwindow > 0) && Numbered(fs)
  {
  }

  // ---- every step keeps the invariant

  lemma Parts(s: System)
    requires Inv(s)
    ensures SenderInv(s.sender, s.Frames()) && s.sender.Valid() && (s.sender.timer <==> s.sender.nwindow > 0)
    ensures s.sender.nwindow <= |s.sender.buffer|
    ensures Carries(s.accepted, s.groups) && Numbered(s.Frames()) && s.receiver.expected < TWO32
    ensures |s.Frames()| == s.sender.nextSeq && s.Base() <= s.receiver.expected
    ensures s.Base() == s.sender.nextSeq - |s.sender.buffer| && s.Limit() == s.Base() + s.sender.nwindow
  {
    hide Carries, Numbered, SenderInv, NetworkInv, Flatten, Run;
    SizeOfFrames(s.sender, s.Frames());
  }

  lemma SubmitFields(s: System, msg: Message, junk: Packet)
    requires Enabled(s, Submit(msg, junk)) && s.sender.Valid() && s.receiver.expected < TWO32
    ensures |msg| < TWO32 && s.sender.nextSeq + S.FrameCount(msg) < TWO32 && s.sender.nwindow <= |s.sender.buffer|
    ensures var s' := Apply(s, Submit(msg, junk)); var (st', out) := s.sender.Submit(junk, msg);
      var g := S.MessageFrames(junk, msg, s.sender.nextSeq);
      && s'.sender == st' && s'.toReceiver == s.toReceiver + multiset(out) && s'.toSender == s.toSender
      && s'.receiver == s.receiver && s'.delivered == s.delivered
      && s'.accepted == s.accepted + [msg] && s'.groups == s.groups + [g] && s'.Frames() == s.Frames() + g
  {
    hide S.State.Submit, S.MessageFrames, S.FrameCount, Flatten;
    FramesAppend(s.groups, S.MessageFrames(junk, msg, s.sender.nextSeq));
  }

  lemma MoreFrames(accepted: seq<Message>, groups: seq<seq<Packet>>, fs: seq<Packet>, msg: Message, junk: Packet)
    requires Carries(accepted, groups) && Numbered(fs) && |msg| < TWO32 && |fs| + S.FrameCount(msg) < TWO32
    ensures var g := S.MessageFrames(junk, msg, |fs|);
      Carries(accepted + [msg], groups + [g]) && Numbered(fs + g)
  {
    hide Fragments, S.MessageFrames, S.FrameCount, SeqOf, Intact;
    MessageFramesFragment(junk, msg, |fs|);
  }

  lemma SubmitInv(s: System, msg: Message, junk: Packet)
    requires Inv(s) && Enabled(s, Submit(msg, junk)) && s.sender.Valid() && s.receiver.expected < TWO32
    ensures Inv(Apply(s, Submit(msg, junk)))
  {
    hide *;
    Parts(s);
    SubmitFields(s, msg, junk);
    var g := S.MessageFrames(junk, msg, s.sender.nextSeq);
    MoreFrames(s.accepted, s.groups, s.Frames(), msg, junk);
    SubmitMoves(s.sender, junk, msg);
    MovedInv(s, Apply(s, Submit(msg, junk)), 0, g, s.sender.Submit(junk, msg).1);
  }

  lemma AckFields(s: System, p: Packet, again: bool)
    requires Enabled(s, DeliverAck(p, again)) && s.sender.Valid() && s.receiver.expected < TWO32
    ensures var s' := Apply(s, DeliverAck(p, again)); var (st', out) := s.sender.Acknowledge(p);
      && s'.sender == st' && s'.toReceiver == s.toReceiver + multiset(out) && s'.toSender == Left(s.toSender, p, again)
      && s'.toSender <= s.toSender && s'.receiver == s.receiver && s'.delivered == s.delivered
      && s'.accepted == s.accepted && s'.groups == s.groups && s'.Frames() == s.Frames() == s.Frames() + []
    ensures p in s.toSender || !Intact(p)
  {
    hide S.State.Acknowledge, S.State.Valid, Flatten;
  }

  lemma AckTrue(s: System, p: Packet)
    requires Inv(s) && p in s.toSender
    ensures Intact(p) && AckOf(p) < s.receiver.expected
  {
    hide SenderInv, ReceiverInv, Carries, Flatten;
  }

  lemma AckInv(s: System, p: Packet, again: bool)
    requires Inv(s) && Enabled(s, DeliverAck(p, again)) && s.sender.Valid() && s.receiver.expected < TWO32
    ensures Inv(Apply(s, DeliverAck(p, again)))
  {
    hide *;
    Parts(s);
    AckFields(s, p, again);
    var gone := AckMoves(s.sender, p);
    if gone > 0 {
      AckTrue(s, p);
    }
    MovedInv(s, Apply(s, DeliverAck(p, again)), gone, [], s.sender.Acknowledge(p).1);
  }

  lemma TimeoutFields(s: System)
    requires Enabled(s, Timeout) && s.sender.Valid() && s.receiver.expected < TWO32
    ensures s.sender.timer
    ensures var s' := Apply(s, Timeout); var (st', out) := s.sender.Expire();
      && s'.sender == st' && s'.toReceiver == s.toReceiver + multiset(out) && s'.toSender == s.toSender
      && s'.receiver == s.receiver && s'.delivered == s.delivered
      && s'.accepted == s.accepted && s'.groups == s.groups && s'.Frames() == s.Frames() == s.Frames() + []
  {
    hide S.State.Expire, Flatten;
  }

  lemma TimeoutInv(s: System)
    requires Inv(s) && Enabled(s, Timeout) && s.sender.Valid() && s.receiver.expected < TWO32
    ensures Inv(Apply(s, Timeout))
  {
    hide *;
    Parts(s);
    TimeoutFields(s);
    ExpireMoves(s.sender);
    MovedInv(s, Apply(s, Timeout), 0, [], s.sender.Expire().1);
  }

  lemma DataFields(s: System, p: Packet, again: bool, junk: Packet)
    requires Enabled(s, DeliverData(p, again, junk)) && s.sender.Valid() && s.receiver.expected < TWO32
    ensures var s' := Apply(s, DeliverData(p, again, junk)); var (r', out, acks) := s.receiver.Receive(p);
      && s'.receiver == r' && s'.delivered == s.delivered + out && s'.toReceiver == Left(s.toReceiver, p, again)
      && s'.toReceiver <= s.toReceiver
      && s'.toSender == s.toSender + multiset(R.Acks(junk, acks)) && s'.sender == s.sender
      && s'.accepted == s.accepted && s'.groups == s.groups && s'.Frames() == s.Frames()
      && s'.Limit() == s.Limit() && s'.Base() == s.Base()
    ensures p in s.toReceiver || !Intact(p)
  {
    hide R.State.Receive, S.State.Valid, Flatten, R.Acks;
  }

  lemma DataReceiver(s: System, p: Packet)
    requires Inv(s) && (p in s.toReceiver || !Intact(p)) && s.receiver.expected < TWO32
    ensures var (r', out, acks) := s.receiver.Receive(p);
      && s.receiver.expected <= r'.expected && ReceiverInv(s.Frames(), r', s.delivered + out, s.Limit())
      && (forall i :: 0 <= i < |acks| ==> acks[i] < r'.expected)
  {
    hide Run, Flatten, Carries, Numbered, R.State.Drain, R.State.Consume;
    SizeOfFrames(s.sender, s.Frames());
    if p in s.toReceiver {
      assert Genuine(s.Frames(), p, s.Limit());
      ReceiveInv(s.Frames(), s.receiver, s.delivered, s.Limit(), p);
    } else {
      assert s.delivered + [] == s.delivered;
    }
  }

  lemma AckedNetwork(toReceiver: multiset<Packet>, toReceiver': multiset<Packet>, toSender: multiset<Packet>,
                     fs: seq<Packet>,
                     limit: int, expected: nat, expected': nat, junk: Packet, acks: seq<nat>)
    requires NetworkInv(toReceiver, toSender, fs, limit, expected)
    requires expected <= expected' <= TWO32 && toReceiver' <= toReceiver
    requires forall i :: 0 <= i < |acks| ==> acks[i] < expected' && acks[i] < TWO32
    ensures NetworkInv(toReceiver', toSender + multiset(R.Acks(junk, acks)), fs, limit, expected')
  {
    hide FormAck, Intact, AckOf, Genuine;
    forall q | q in toSender + multiset(R.Acks(junk, acks)) ensures Intact(q) && AckOf(q) < expected' {
      if q !in toSender {
        assert q in R.Acks(junk, acks);
      }
    }
    forall q | q in toReceiver' ensures q in toReceiver {
    }
  }

  lemma DataInv(s: System, p: Packet, again: bool, junk: Packet)
    requires Inv(s) && Enabled(s, DeliverData(p, again, junk)) && s.sender.Valid() && s.receiver.expected < TWO32
    ensures Inv(Apply(s, DeliverData(p, again, junk)))
  {
    Parts(s);
    hide Carries, SenderInv, NetworkInv, R.State.Receive, R.Acks, Flatten, Apply, Enabled, Run;
    DataFields(s, p, again, junk);
    DataReceiver(s, p);
    var (r', out, acks) := s.receiver.Receive(p);
    AckedNetwork(s.toReceiver, Left(s.toReceiver, p, again), s.toSender, s.Frames(), s.Limit(),
                 s.receiver.expected, r'.expected, junk, acks);
  }

  lemma LoseInv(s: System, e: Event)
    requires Inv(s) && Enabled(s, e) && (e.LoseData? || e.LoseAck?) && s.sender.Valid() && s.receiver.expected < TWO32
    ensures Inv(Apply(s, e))
  {
    hide Carries, SenderInv, ReceiverInv, Flatten, Genuine, S.State.Valid, Intact, AckOf;
  }

  /** Every step keeps the invariant. */
  lemma StepInv(s: System, e: Event)
    requires Inv(s) && Enabled(s, e)
    ensures s.sender.Valid() && s.receiver.expected < TWO32 && Inv(Apply(s, e))
  {
    hide *;
    Parts(s);
    match e
    case Submit(msg, junk) => SubmitInv(s, msg, junk);
    case DeliverData(p, again, junk) => DataInv(s, p, again, junk);
    case DeliverAck(p, again) => AckInv(s, p, again);
    case Timeout => TimeoutInv(s);
    case LoseData(p) => LoseInv(s, e);
    case LoseAck(p) => LoseInv(s, e);
  }
}
