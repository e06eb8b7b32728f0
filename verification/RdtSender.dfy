/**
  The sender: messages are cut into numbered frames and queued; the first
  `nwindow` frames of the queue are in flight, and one timer guards them all.
 */
module RdtSender {
  import opened Numbers
  import opened RdtChecksum
  import opened RdtFrames

  function Max(a: nat, b: nat): (r: nat) { if a < b then b else a }

  // ---- cutting a message into frames

  function LaterCount(m: Message): (n: nat) {
    if m == [] then 0 else 1 + LaterCount(m[Min(MAX_PKT_SIZE, |m|)..])
  }

  function FrameCount(m: Message): (n: nat) {
    1 + LaterCount(m[Min(FIRST_SIZE, |m|)..])
  }

  /** The frames after the first; every frame is written over the one before it. */
  function LaterFrames(pkt: Packet, m: Message, seqno: nat): (fs: seq<Packet>)
    requires seqno + LaterCount(m) <= TWO32
    ensures |fs| == LaterCount(m)
    ensures forall i :: 0 <= i < |fs| ==> SeqOf(fs[i]) == seqno + i && Intact(fs[i])
    decreases |m|
  {
    if m == [] then [] else
    var n := Min(MAX_PKT_SIZE, |m|);
    var f := FormData(pkt, m[..n], seqno);
    [f] + LaterFrames(f, m[n..], seqno + 1)
  }

  function MessageFrames(pkt: Packet, m: Message, seqno: nat): (fs: seq<Packet>)
    requires |m| < TWO32 && seqno + FrameCount(m) <= TWO32
    ensures |fs| == FrameCount(m)
    ensures forall i :: 0 <= i < |fs| ==> SeqOf(fs[i]) == seqno + i && Intact(fs[i])
  {
    var n := Min(FIRST_SIZE, |m|);
    var f := FormFirst(pkt, m[..n], |m|, seqno);
    [f] + LaterFrames(f, m[n..], seqno + 1)
  }

  lemma LaterStep(pkt: Packet, m: Message, seqno: nat)
    requires m != [] && seqno + LaterCount(m) <= TWO32
    ensures var n := Min(MAX_PKT_SIZE, |m|);
      && LaterCount(m) == 1 + LaterCount(m[n..]) && seqno < TWO32
      && LaterFrames(pkt, m, seqno) ==
        [FormData(pkt, m[..n], seqno)] + LaterFrames(FormData(pkt, m[..n], seqno), m[n..], seqno + 1)
  {
  }

  lemma LaterDone(pkt: Packet, seqno: nat)
    requires seqno <= TWO32
    ensures LaterCount([]) == 0 && LaterFrames(pkt, [], seqno) == []
  {
  }

  lemma {:induction false} LaterCountIs(m: Message)
    ensures LaterCount(m) == (|m| + 117) / 118
    decreases |m|
  {
    if m != [] {
      LaterCountIs(m[Min(MAX_PKT_SIZE, |m|)..]);
    }
  }

  /** The first frame takes 114 bytes of the message, every other one 118. */
  lemma FrameCountIs(m: Message)
    ensures FrameCount(m) == if |m| <= 114 then 1 else 1 + (|m| - 114 + 117) / 118
  {
    LaterCountIs(m[Min(FIRST_SIZE, |m|)..]);
  }

  // ---- the sender's moves, on values

  datatype State = State(nextSeq: nat, nwindow: nat, buffer: seq<Packet>, timer: bool) {

    /** The queue is numbered consecutively up to `nextSeq`; a nonempty queue has a window. */
    ghost predicate Valid() {
      && nextSeq < TWO32 && |buffer| <= nextSeq && nwindow <= |buffer|
      && (buffer != [] ==> nwindow > 0)
      && (forall i :: 0 <= i < |buffer| ==> SeqOf(buffer[i]) == nextSeq - |buffer| + i)
    }

    /** Opens the window as far as it goes. */
    function Filled(): (n: nat) { Max(nwindow, Min(WINDOW_SIZE, |buffer|)) }

    function Send(): (r: (State, seq<Packet>))
      requires nwindow <= |buffer|
    {
      (this.(nwindow := Filled(), timer := Filled() > 0), buffer[nwindow..Filled()])
    }

    function Submit(junk: Packet, msg: Message): (r: (State, seq<Packet>))
      requires nwindow <= |buffer| && |msg| < TWO32 && nextSeq + FrameCount(msg) < TWO32
    {
      var queued := this.(buffer := buffer + MessageFrames(junk, msg, nextSeq), nextSeq := nextSeq + FrameCount(msg));
      if timer then (queued, []) else queued.Send()
    }

    function Acknowledge(pkt: Packet): (r: (State, seq<Packet>))
      requires Valid()
    {
      if buffer == [] then (this.(timer := false), [])
      else if !Intact(pkt) then (this, [])
      else
        var ack, base := AckOf(pkt), nextSeq - |buffer|;
        if ack >= base + nwindow || ack < base then (this, [])
        else
          var n := ack - base + 1;
          this.(buffer := buffer[n..], nwindow := nwindow - n).Send()
    }

    /** The timer has gone off. */
    function Expire(): (r: (State, seq<Packet>))
      requires nwindow <= |buffer|
    {
      (this.(timer := nwindow > 0), buffer[..nwindow])
    }
  }

  // ---- the sender itself

  class Sender {
    var nextSeq: nat
    var nwindow: nat
    var buffer: seq<Packet>
    /** The simulator's timer. */
    var timer: bool
    /** Everything handed to the lower layer so far. */
    var sent: seq<Packet>

    ghost function View(): (s: State)
      reads this
    {
      State(nextSeq, nwindow, buffer, timer)
    }

    constructor ()
      ensures View() == State(0, 0, [], false) && sent == []
    {
      nextSeq, nwindow, buffer, timer, sent := 0, 0, [], false, [];
    }

    method SendData()
      requires nwindow <= |buffer|
      modifies this`nwindow, this`sent
      ensures nwindow == old(View().Filled())
      ensures sent == old(sent) + buffer[old(nwindow)..nwindow]
    {
      while nwindow < WINDOW_SIZE && nwindow < |buffer|
        invariant old(nwindow) <= nwindow <= old(View().Filled())
        invariant sent == old(sent) + buffer[old(nwindow)..nwindow]
      {
        nwindow := nwindow + 1;
        var pkt := buffer[nwindow - 1];
        sent := sent + [pkt];
      }
    }

    /** Cuts the message into frames and queues them. */
    method Enqueue(msg: Message, junk: Packet)
      requires |msg| <= 0x7fff_ffff && nextSeq + FrameCount(msg) < TWO32
      modifies this`nextSeq, this`buffer
      ensures buffer == old(buffer) + MessageFrames(junk, msg, old(nextSeq))
      ensures nextSeq == old(nextSeq) + FrameCount(msg)
    {
      hide FormFirst, FormData, SeqOf, Intact, LaterFrames, LaterCount;
      var pkt: Packet := junk;
      var cursor := 0;
      if |msg| > FIRST_SIZE {
        pkt := FormFirst(pkt, msg[..FIRST_SIZE], |msg|, nextSeq);
        nextSeq := nextSeq + 1;
        buffer := buffer + [pkt];
        cursor := cursor + FIRST_SIZE;
      } else {
        assert msg[..|msg|] == msg;
        pkt := FormFirst(pkt, msg, |msg|, nextSeq);
        nextSeq := nextSeq + 1;
        buffer := buffer + [pkt];
        cursor := cursor + |msg|;
      }
      EnqueueRest(msg, cursor, pkt);
    }

    method EnqueueRest(msg: Message, first: nat, firstPkt: Packet)
      requires first <= |msg| && nextSeq + LaterCount(msg[first..]) < TWO32
      modifies this`nextSeq, this`buffer
      ensures buffer == old(buffer) + LaterFrames(firstPkt, msg[first..], old(nextSeq))
      ensures nextSeq == old(nextSeq) + LaterCount(msg[first..])
    {
      hide FormData, SeqOf, Intact, LaterFrames, LaterCount;
      var pkt, cursor := firstPkt, first;
      ghost var want := old(buffer) + LaterFrames(firstPkt, msg[first..], old(nextSeq));
      while |msg| - cursor > MAX_PKT_SIZE
        invariant first <= cursor <= |msg|
        invariant nextSeq + LaterCount(msg[cursor..]) == old(nextSeq) + LaterCount(msg[first..])
        invariant buffer + LaterFrames(pkt, msg[cursor..], nextSeq) == want
      {
        var data := msg[cursor..cursor + MAX_PKT_SIZE];
        assert msg[cursor..][..MAX_PKT_SIZE] == data && msg[cursor..][MAX_PKT_SIZE..] == msg[cursor + MAX_PKT_SIZE..];
        LaterStep(pkt, msg[cursor..], nextSeq);
        pkt := FormData(pkt, data, nextSeq);
        nextSeq := nextSeq + 1;
        buffer := buffer + [pkt];
        cursor := cursor + MAX_PKT_SIZE;
      }
      if |msg| > cursor {
        var data := msg[cursor..];
        assert data[..|data|] == data && data[|data|..] == [];
        LaterStep(pkt, data, nextSeq);
        pkt := FormData(pkt, data, nextSeq);
        nextSeq := nextSeq + 1;
        buffer := buffer + [pkt];
      }
      LaterDone(pkt, nextSeq);
      assert msg[|msg|..] == [];
    }

    method FromUpperLayer(msg: Message, junk: Packet)
      requires nwindow <= |buffer| && |msg| <= 0x7fff_ffff && nextSeq + FrameCount(msg) < TWO32
      modifies this
      ensures View() == old(View().Submit(junk, msg)).0
      ensures sent == old(sent) + old(View().Submit(junk, msg)).1
    {
      hide MessageFrames, FrameCount;
      Enqueue(msg, junk);
      if timer {
        return;
      }
      timer := true;
      SendData();
      if nwindow == 0 {
        timer := false;
      }
    }

    /** Drops the frames `minAck` to `ack` from the front of the queue. */
    method PopWindow(minAck: nat, ack: nat)
      requires minAck <= ack && ack - minAck < nwindow <= |buffer|
      modifies this`nwindow, this`buffer
      ensures buffer == old(buffer)[ack - minAck + 1..] && nwindow == old(nwindow) - (ack - minAck + 1)
    {
      var next := minAck;
      while next <= ack
        invariant minAck <= next <= ack + 1
        invariant nwindow == old(nwindow) - (next - minAck)
        invariant buffer == old(buffer)[next - minAck..]
        decreases ack + 1 - next
      {
        nwindow := nwindow - 1;
        buffer := buffer[1..];
        next := next + 1;
      }
    }

    method FromLowerLayer(pkt: Packet)
      requires View().Valid()
      modifies this
      ensures View() == old(View().Acknowledge(pkt)).0
      ensures sent == old(sent) + old(View().Acknowledge(pkt)).1
    {
      if |buffer| == 0 {
        timer := false;
        return;
      }
      var cksm := CalChecksum(pkt);
      if Stored(pkt) != cksm {
        return;
      }
      var ack := AckOf(pkt);
      var minAck, maxAck := SeqOf(buffer[0]), SeqOf(buffer[nwindow - 1]);
      if ack > maxAck || ack < minAck {
        return;
      }
      PopWindow(minAck, ack);
      timer := true;
      SendData();
      if nwindow == 0 {
        timer := false;
      }
    }

    method Timeout()
      requires nwindow <= |buffer|
      modifies this
      ensures View() == old(View().Expire()).0
      ensures sent == old(sent) + old(View().Expire()).1
    {
      timer := false;
      if nwindow == 0 {
        return;
      }
      timer := true;
      for i := 0 to nwindow
        invariant nwindow == old(nwindow) && buffer == old(buffer) && nextSeq == old(nextSeq) && timer
        invariant sent == old(sent) + buffer[..i]
      {
        sent := sent + [buffer[i]];
      }
    }
  }
}
