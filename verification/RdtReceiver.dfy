/**
  The receiver: frames are consumed in order and put together into messages;
  frames that come early wait in a window of ten slots.
 */
module RdtReceiver {
  import opened Numbers
  import opened RdtChecksum
  import opened RdtFrames

  /** The message being put together; `|data|` is the cursor. */
  datatype Assembly = Assembly(size: nat, data: Message) {

    /** With the cursor at 0 a frame opens a message, otherwise it continues one. */
    function Add(p: Packet): (a: Assembly) {
      if data == [] then Assembly(TotalOf(p), FirstInfo(p)) else Assembly(size, data + LaterInfo(p))
    }

    /** Hands over a finished message. */
    function Finish(): (r: (Assembly, seq<Message>)) {
      if |data| == size then (Assembly(size, []), [data]) else (this, [])
    }

    function Take(p: Packet): (r: (Assembly, seq<Message>)) { Add(p).Finish() }
  }

  datatype State = State(expected: nat, assembly: Assembly, early: map<nat, Packet>) {

    function Consume(p: Packet): (r: (State, seq<Message>)) {
      var (a, out) := assembly.Take(p);
      (State(expected + 1, a, early), out)
    }

    /** Consumes waiting frames for as long as the next one is there. */
    function Drain(): (r: (State, seq<Message>))
      decreases |early|
    {
      if expected !in early then (this, []) else
      var (s1, out1) := State(expected, assembly, early - {expected}).Consume(early[expected]);
      Shrinks(early, expected);
      var (s2, out2) := s1.Drain();
      (s2, out1 + out2)
    }

    /** The new state, the messages delivered, and the number acknowledged, if any. */
    function Receive(p: Packet): (r: (State, seq<Message>, seq<nat>))
      requires expected < TWO32
      ensures |r.2| <= 1 && forall i :: 0 <= i < |r.2| ==> r.2[i] < TWO32
    {
      var s := SeqOf(p);
      if !Intact(p) then (this, [], [])
      else if expected < s && s < (expected + WINDOW_SIZE) % TWO32 then
        (this.(early := early[s := p]), [], if expected != 0 then [expected - 1] else [])
      else if s == expected then
        var (s1, out1) := Consume(p);
        var (s2, out2) := s1.Drain();
        (s2, out1 + out2, [(s2.expected + TWO32 - 1) % TWO32])
      else
        (this, [], [(expected + TWO32 - 1) % TWO32])
    }
  }

  lemma Shrinks(m: map<nat, Packet>, k: nat)
    requires k in m
    ensures |m - {k}| < |m|
  {
    assert (m - {k}).Keys == m.Keys - {k};
  }

  lemma DrainStep(s: State)
    requires s.expected in s.early
    ensures var (s1, out1) := State(s.expected, s.assembly, s.early - {s.expected}).Consume(s.early[s.expected]);
      && s.Drain() == (s1.Drain().0, out1 + s1.Drain().1)
      && |s1.early| < |s.early|
  {
    Shrinks(s.early, s.expected);
  }

  lemma DrainDone(s: State)
    requires s.expected !in s.early
    ensures s.Drain() == (s, [])
  {
  }

  /** The packets that carry the acknowledgements. */
  function Acks(junk: Packet, acks: seq<nat>): (ps: seq<Packet>)
    requires forall i :: 0 <= i < |acks| ==> acks[i] < TWO32
  {
    seq(|acks|, i requires 0 <= i < |acks| => FormAck(junk, acks[i]))
  }

  // ---- the slots

  predicate Occupied(valid: seq<bool>, first: nat, k: nat) {
    first <= k < first + |valid| && valid[k - first]
  }

  /** What waits in the slots when slot 0 stands for frame `first`. */
  ghost function Slots(window: seq<Packet>, valid: seq<bool>, first: nat): (m: map<nat, Packet>)
    requires |window| == |valid|
  {
    map k: nat | first <= k < first + |valid| && Occupied(valid, first, k) :: window[k - first]
  }

  /** Dropping the front slot and adding an empty one at the end: the others keep their frames. */
  lemma SlideSlots(window: seq<Packet>, valid: seq<bool>, junk: Packet, first: nat)
    requires |window| == |valid| > 0
    ensures Slots(window[1..] + [junk], valid[1..] + [false], first + 1) == Slots(window, valid, first) - {first}
  {
    var window', valid' := window[1..] + [junk], valid[1..] + [false];
    forall k: nat ensures Occupied(valid', first + 1, k) <==> Occupied(valid, first, k) && k != first {
    }
  }

  lemma FillSlot(window: seq<Packet>, valid: seq<bool>, first: nat, k: nat, p: Packet)
    requires |window| == |valid| && first <= k < first + |valid|
    ensures Slots(window[k - first := p], valid[k - first := true], first) == Slots(window, valid, first)[k := p]
  {
    forall j: nat ensures Occupied(valid[k - first := true], first, j) <==> Occupied(valid, first, j) || j == k {
    }
  }

  lemma Waiting(window: seq<Packet>, valid: seq<bool>, first: nat)
    requires |window| == |valid| > 0
    ensures first in Slots(window, valid, first) <==> valid[0]
  {
    assert Occupied(valid, first, first) <==> valid[0];
  }

  // ---- the receiver itself

  class Receiver {
    var expected: nat
    var size: nat
    var data: Message
    var window: seq<Packet>
    var valid: seq<bool>
    /** Everything handed to the upper layer, and every packet handed to the lower one. */
    var delivered: seq<Message>
    var sent: seq<Packet>

    ghost predicate Sized()
      reads this
    {
      |window| == |valid| == WINDOW_SIZE
    }

    /** The state when slot 0 stands for the frame `ahead` places after the expected one:
        1 between events, 0 while the window moves. */
    ghost function View(ahead: nat): (s: State)
      requires Sized()
      reads this
    {
      State(expected, Assembly(size, data), Slots(window, valid, expected + ahead))
    }

    constructor (junk: seq<Packet>)
      requires |junk| == WINDOW_SIZE
      ensures Sized() && View(1) == State(0, Assembly(0, []), map[]) && delivered == [] && sent == []
    {
      expected, size, data, window, valid := 0, 0, [], junk, seq(WINDOW_SIZE, _ => false);
      delivered, sent := [], [];
    }

    method FormAndSendAck(ack: nat, junk: Packet)
      requires ack < TWO32
      modifies this`sent
      ensures sent == old(sent) + [FormAck(junk, ack)]
    {
      var pkt := FormAck(junk, ack);
      sent := sent + [pkt];
    }

    method AddFrame(p: Packet)
      modifies this`size, this`data
      ensures Assembly(size, data) == old(Assembly(size, data)).Add(p)
    {
      if |data| == 0 {
        size := TotalOf(p);
        data := FirstInfo(p);
      } else {
        data := data + LaterInfo(p);
      }
    }

    method FinishMessage()
      modifies this`data, this`delivered
      ensures Assembly(size, data) == old(Assembly(size, data)).Finish().0
      ensures delivered == old(delivered) + old(Assembly(size, data)).Finish().1
    {
      if |data| == size {
        delivered := delivered + [data];
        data := [];
      }
    }

    method Slide(junk: Packet)
      requires Sized()
      modifies this`window, this`valid
      ensures Sized() && window == old(window)[1..] + [junk] && valid == old(valid)[1..] + [false]
    {
      window := window[1..] + [junk];
      valid := valid[1..] + [false];
    }

    /** One turn of the window: the frame in slot 0 is consumed. */
    method ConsumeFront(junk: Packet)
      requires Sized() && valid[0]
      modifies this`expected, this`size, this`data, this`window, this`valid, this`delivered
      ensures Sized()
      ensures old(View(0).expected in View(0).early)
      ensures var s := old(View(0));
        var (s1, out1) := State(s.expected, s.assembly, s.early - {s.expected}).Consume(s.early[s.expected]);
        View(0) == s1 && delivered == old(delivered) + out1
    {
      assert Occupied(valid, expected, expected);
      SlideSlots(window, valid, junk, expected);
      AddFrame(window[0]);
      Slide(junk);
      expected := expected + 1;
      FinishMessage();
    }

    method DrainSlots(junk: Packet)
      requires Sized()
      modifies this`expected, this`size, this`data, this`window, this`valid, this`delivered
      ensures Sized() && !valid[0]
      ensures View(0) == old(View(0).Drain()).0 && delivered == old(delivered) + old(View(0).Drain()).1
    {
      hide Slots, State.Drain, State.Consume;
      ghost var start := View(0);
      while valid[0]
        invariant Sized()
        invariant View(0).Drain().0 == start.Drain().0
        invariant delivered + View(0).Drain().1 == old(delivered) + start.Drain().1
        decreases |View(0).early|
      {
        Waiting(window, valid, expected);
        ghost var s := View(0);
        DrainStep(s);
        ConsumeFront(junk);
      }
      Waiting(window, valid, expected);
      DrainDone(View(0));
    }

    method MoveWindow(junk: Packet)
      requires Sized()
      modifies this
      ensures Sized() && !valid[0]
      ensures var (a, out1) := old(Assembly(size, data)).Finish();
        var (s, out2) := old(View(0)).(assembly := a).Drain();
        && View(0) == s
        && delivered == old(delivered) + (out1 + out2)
        && sent == old(sent) + [FormAck(junk, (s.expected + TWO32 - 1) % TWO32)]
    {
      hide Slots, FormAck, State.Drain, Assembly.Finish;
      FinishMessage();
      DrainSlots(junk);
      FormAndSendAck((expected + TWO32 - 1) % TWO32, junk);
    }

    /** The expected frame, and after it whatever was waiting for it. */
    method TakeExpected(pkt: Packet, junk: Packet)
      requires Sized()
      modifies this
      ensures Sized()
      ensures var (s1, out1) := old(View(1)).Consume(pkt);
        var (s2, out2) := s1.Drain();
        && View(1) == s2
        && delivered == old(delivered) + (out1 + out2)
        && sent == old(sent) + [FormAck(junk, (s2.expected + TWO32 - 1) % TWO32)]
    {
      hide Slots, FormAck, State.Drain, Assembly.Finish, Assembly.Add;
      AddFrame(pkt);
      expected := expected + 1;
      MoveWindow(junk);
      if !valid[0] {
        SlideSlots(window, valid, junk, expected);
        Waiting(window, valid, expected);
        Slide(junk);
      }
    }

    /** An event: one packet from the lower layer. */
    method FromLowerLayer(pkt: Packet, junk: Packet)
      requires Sized() && expected < TWO32
      modifies this
      ensures Sized()
      ensures View(1) == old(View(1).Receive(pkt)).0
      ensures delivered == old(delivered) + old(View(1).Receive(pkt)).1
      ensures sent == old(sent) + Acks(junk, old(View(1).Receive(pkt)).2)
    {
      hide Slots, FormAck, State.Drain, State.Consume;
      var cksm := CalChecksum(pkt);
      if Stored(pkt) != cksm {
        return;
      }
      var received := SeqOf(pkt);
      if expected < received && received < (expected + WINDOW_SIZE) % TWO32 {
        FillSlot(window, valid, expected + 1, received, pkt);
        window := window[received - expected - 1 := pkt];
        valid := valid[received - expected - 1 := true];
        if expected != 0 {
          FormAndSendAck(expected - 1, junk);
        }
      } else if expected == received {
        TakeExpected(pkt, junk);
      } else {
        FormAndSendAck((expected + TWO32 - 1) % TWO32, junk);
      }
    }
  }
}
