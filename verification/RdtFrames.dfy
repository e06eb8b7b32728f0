/**
  The three frame layouts inside a 128-byte packet. A packet does not say which
  layout it has: readers pick the fields by where they are.
 */
module RdtFrames {
  import opened Numbers
  import opened RdtChecksum

  const MAX_PKT_SIZE := 118
  const FIRST_SIZE := 114
  const WINDOW_SIZE := 10

  type Message = seq<byte>

  /** A 32-bit number, low byte first. */
  function LE32(x: nat): (b: seq<byte>)
    requires x < TWO32
    ensures |b| == 4
  {
    [x % 256, x / 256 % 256, x / 256 / 256 % 256, x / 256 / 256 / 256]
  }

  function Num32(b: seq<byte>): (x: nat)
    requires |b| == 4
    ensures x < TWO32
  {
    b[0] as int + 256 * b[1] as int + 65536 * b[2] as int + 16777216 * b[3] as int
  }

  lemma Num32LE32(x: nat)
    requires x < TWO32
    ensures Num32(LE32(x)) == x
  {
  }

  // ---- fields

  function SizeOf(p: Packet): (r: nat) { Num32(p[0..4]) }

  function SeqOf(p: Packet): (r: nat) ensures r < TWO32 { Num32(p[4..8]) }

  function TotalOf(p: Packet): (r: nat) { Num32(p[8..12]) }

  function AckOf(p: Packet): (r: nat) ensures r < TWO32 { Num32(p[0..4]) }

  function Clamp(n: nat, most: nat): (r: nat) { if n < most then n else most }

  /** The payload, read as a first frame or as a later one; never past the field. */
  function FirstInfo(p: Packet): (m: Message) { p[12..12 + Clamp(SizeOf(p), FIRST_SIZE)] }

  function LaterInfo(p: Packet): (m: Message) { p[8..8 + Clamp(SizeOf(p), MAX_PKT_SIZE)] }

  // ---- writing frames over whatever the packet held before

  function FormFirst(pkt: Packet, data: Message, total: nat, seqno: nat): (p: Packet)
    requires |data| <= FIRST_SIZE && total < TWO32 && seqno < TWO32
    ensures Intact(p) && SeqOf(p) == seqno && SizeOf(p) == |data| && TotalOf(p) == total && FirstInfo(p) == data
  {
    var raw: Packet := LE32(|data|) + LE32(seqno) + LE32(total) + data + pkt[12 + |data|..];
    SealIntact(raw);
    FirstFields(raw, Seal(raw), data, total, seqno);
    Seal(raw)
  }

  function FormData(pkt: Packet, data: Message, seqno: nat): (p: Packet)
    requires |data| <= MAX_PKT_SIZE && seqno < TWO32
    ensures Intact(p) && SeqOf(p) == seqno && SizeOf(p) == |data| && LaterInfo(p) == data
  {
    var raw: Packet := LE32(|data|) + LE32(seqno) + data + pkt[8 + |data|..];
    SealIntact(raw);
    DataFields(raw, Seal(raw), data, seqno);
    Seal(raw)
  }

  function FormAck(pkt: Packet, ack: nat): (p: Packet)
    requires ack < TWO32
    ensures Intact(p) && AckOf(p) == ack
  {
    var raw: Packet := LE32(ack) + pkt[4..];
    SealIntact(raw);
    Num32LE32(ack);
    assert Seal(raw)[0..4] == raw[..126][0..4] == LE32(ack) by {
      assert Seal(raw)[..126] == raw[..126];
      Prefix4(Seal(raw), raw, 0);
    }
    Seal(raw)
  }

  lemma Prefix4(p: Packet, q: Packet, at: nat)
    requires p[..126] == q[..126] && at + 4 <= 126
    ensures p[at..at + 4] == q[at..at + 4] == q[..126][at..at + 4]
  {
    assert p[at..at + 4] == p[..126][at..at + 4];
    assert q[at..at + 4] == q[..126][at..at + 4];
  }

  lemma FirstFields(raw: Packet, p: Packet, data: Message, total: nat, seqno: nat)
    requires |data| <= FIRST_SIZE && total < TWO32 && seqno < TWO32
    requires raw[..12 + |data|] == LE32(|data|) + LE32(seqno) + LE32(total) + data && p[..126] == raw[..126]
    ensures SeqOf(p) == seqno && SizeOf(p) == |data| && TotalOf(p) == total && FirstInfo(p) == data
  {
    hide Num32, LE32;
    var head := LE32(|data|) + LE32(seqno) + LE32(total) + data;
    assert forall k :: 0 <= k < |head| ==> p[k] == p[..126][k] == raw[..126][k] == raw[..12 + |data|][k] == head[k];
    assert p[0..4] == LE32(|data|) && p[4..8] == LE32(seqno) && p[8..12] == LE32(total);
    Num32LE32(|data|);
    Num32LE32(seqno);
    Num32LE32(total);
    assert p[12..12 + |data|] == data;
  }

  lemma DataFields(raw: Packet, p: Packet, data: Message, seqno: nat)
    requires |data| <= MAX_PKT_SIZE && seqno < TWO32
    requires raw[..8 + |data|] == LE32(|data|) + LE32(seqno) + data && p[..126] == raw[..126]
    ensures SeqOf(p) == seqno && SizeOf(p) == |data| && LaterInfo(p) == data
  {
    hide Num32, LE32;
    var head := LE32(|data|) + LE32(seqno) + data;
    assert forall k :: 0 <= k < |head| ==> p[k] == p[..126][k] == raw[..126][k] == raw[..8 + |data|][k] == head[k];
    assert p[0..4] == LE32(|data|) && p[4..8] == LE32(seqno);
    Num32LE32(|data|);
    Num32LE32(seqno);
    assert p[8..8 + |data|] == data;
  }
}
