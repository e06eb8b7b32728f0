/**
  The packet checksum: signed 16-bit words added up in 64 bits, carries folded
  back in, and the result complemented.
 */
module RdtChecksum {
  import opened Numbers


  const PKTSIZE := 128
  const TAIL_SIZE := 2
  const WORDS := 63

  type Packet = p: seq<byte> | |p| == 128 witness seq(128, _ => 0)

  /** The 16-bit word at byte `2 * i`, low byte first, read as a signed number. */
  function Word(p: Packet, i: nat): (w: int)
    requires i < 64
    ensures -32768 <= w < 32768
  {
    var v: int := p[2 * i] as int + 256 * p[2 * i + 1] as int;
    if v >= 32768 then v - 65536 else v
  }

  function Sum(p: Packet, n: nat): (s: int)
    requires n <= 64
    ensures -32768 * n <= s <= 32767 * n
  {
    if n == 0 then 0 else Sum(p, n - 1) + Word(p, n - 1)
  }

  /** What folding the carries makes of `x`: its residue modulo 65535, with 65535 itself
      instead of 0 for everything but zero. */
  function Folded(x: nat): (r: nat)
    ensures r <= 65535 && (r == 0 <==> x == 0) && r % 65535 == x % 65535
  {
    if x == 0 then 0 else (x - 1) % 65535 + 1
  }

  function Checksum(p: Packet): (c: nat)
    ensures c <= 65535
  {
    65535 - Folded(Sum(p, WORDS) % TWO64)
  }

  /** Modulo 65535 the checksum is the negated sum of the words; it is 65535 only for a sum of zero. */
  lemma ChecksumMeans(p: Packet)
    ensures (Checksum(p) + Sum(p, WORDS) % TWO64) % 65535 == 0 && (Checksum(p) == 65535 <==> Sum(p, WORDS) == 0)
  {
    var s := Sum(p, WORDS) % TWO64;
    hide Sum, Folded;
    assert (65535 - Folded(s) + s) % 65535 == (s - Folded(s)) % 65535 == 0;
  }

  lemma FoldStep(x: nat)
    requires x >= 65536
    ensures 0 < x / 65536 + x % 65536 < x
    ensures Folded(x / 65536 + x % 65536) == Folded(x)
  {
    assert x / 65536 + x % 65536 == x - 65535 * (x / 65536);
    Shift(x - 1, x / 65536);
  }

  lemma Shift(a: int, k: int)
    ensures (a - 65535 * k) % 65535 == a % 65535
  {
  }

  lemma SumStep(p: Packet, n: nat)
    requires n < WORDS
    ensures Sum(p, n + 1) % TWO64 == (Sum(p, n) % TWO64 + Word(p, n)) % TWO64
  {
    AddWrapped(Sum(p, n), Word(p, n));
  }

  lemma FoldDone(x: nat)
    requires x / 65536 == 0
    ensures Folded(x) == x
  {
  }

  method CalChecksum(pkt: Packet) returns (c: nat)
    ensures c == Checksum(pkt)
  {
    assert Sum(pkt, 0) % TWO64 == 0;
    hide Sum, Folded;
    var checksum: nat := 0;
    var i := 0;
    while i < PKTSIZE - TAIL_SIZE
      invariant 0 <= i <= PKTSIZE - TAIL_SIZE && i % 2 == 0
      invariant checksum == Sum(pkt, i / 2) % TWO64
    {
      SumStep(pkt, i / 2);
      checksum := (checksum + Word(pkt, i / 2)) % TWO64;
      i := i + 2;
    }
    c := Fold(checksum);
    c := 65535 - c;
  }

  method Fold(total: nat) returns (checksum: nat)
    ensures checksum == Folded(total)
  {
    hide Folded;
    checksum := total;
    while checksum / 65536 != 0
      invariant Folded(checksum) == Folded(total)
      decreases checksum
    {
      FoldStep(checksum);
      checksum := checksum / 65536 + checksum % 65536;
    }
    FoldDone(checksum);
  }

  lemma AddWrapped(a: int, b: int)
    ensures (a % TWO64 + b) % TWO64 == (a + b) % TWO64
  {
    assert a == TWO64 * (a / TWO64) + a % TWO64;
    var q := (a % TWO64 + b) / TWO64;
    assert a + b == TWO64 * (a / TWO64 + q) + (a % TWO64 + b) % TWO64;
  }

  // ---- which corruptions the comparison catches

  /** The checksum field in the last two bytes. */
  function Stored(p: Packet): (c: nat) { p[126] as int + 256 * p[127] as int }

  /** The receiver's test. */
  predicate Intact(p: Packet) { Stored(p) == Checksum(p) }

  /** Writes the checksum into its field. */
  function Seal(p: Packet): (q: Packet)
    ensures q[..126] == p[..126]
  {
    p[126 := Checksum(p) % 256][127 := Checksum(p) / 256]
  }

  lemma SealIntact(p: Packet)
    ensures Intact(Seal(p)) && Checksum(Seal(p)) == Checksum(p)
  {
    var q := Seal(p);
    assert forall k :: 0 <= k < 126 ==> q[k] == p[k];
    SumDiff(p, q, 0, WORDS);
    hide Checksum, Sum, Folded;
    assert Checksum(q) == Checksum(p) by { SameSum(p, q); }
  }

  lemma SameSum(p: Packet, q: Packet)
    requires Sum(p, WORDS) == Sum(q, WORDS)
    ensures Checksum(p) == Checksum(q)
  {
  }

  /** The packets agree in every word but the one at `i`. */
  ghost predicate AgreeBut(p: Packet, q: Packet, i: nat) {
    forall k :: 0 <= k < 126 && k != 2 * i && k != 2 * i + 1 ==> p[k] == q[k]
  }

  lemma {:induction false} SumDiff(p: Packet, q: Packet, i: nat, n: nat)
    requires AgreeBut(p, q, i) && i < WORDS && n <= WORDS
    ensures Sum(q, n) - Sum(p, n) == if i < n then Word(q, i) - Word(p, i) else 0
    decreases n
  {
    if n > 0 {
      SumDiff(p, q, i, n - 1);
      if i != n - 1 {
        assert p[2 * (n - 1)] == q[2 * (n - 1)] && p[2 * (n - 1) + 1] == q[2 * (n - 1) + 1];
      }
    }
  }

  /** A negative sum wraps around 2^64, and the wrap adds one to its residue. */
  lemma Wrapped(s: int)
    requires 0 < s + TWO64 && s < TWO64
    ensures s >= 0 ==> s % TWO64 == s
    ensures s < 0 ==> s % TWO64 > 0 && (s % TWO64) % 65535 == (s + 1) % 65535
  {
    if s < 0 {
      assert s % TWO64 == s + TWO64;
      assert TWO64 == 65535 * 281479271743489 + 1;
      Shift(s + TWO64, 281479271743489);
    }
  }

  lemma SameResidue(a: int, b: int)
    ensures a % 65535 == b % 65535 <==> (a - b) % 65535 == 0
  {
  }

  lemma FoldedEqual(x: nat, y: nat)
    ensures Folded(x) == Folded(y) <==> (x % 65535 == y % 65535 && (x == 0 <==> y == 0))
  {
  }

  /** A change of one word escapes exactly when it swaps the extreme values 32767 and
      -32768 and leaves the sign of a nonzero sum alone. */
  lemma WordChange(p: Packet, q: Packet, i: nat)
    requires AgreeBut(p, q, i) && i < WORDS
    ensures Checksum(p) == Checksum(q) <==>
      || Word(p, i) == Word(q, i)
      || ((Word(p, i) - Word(q, i) == 65535 || Word(q, i) - Word(p, i) == 65535)
          && ((Sum(p, WORDS) > 0 && Sum(q, WORDS) > 0) || (Sum(p, WORDS) < 0 && Sum(q, WORDS) < 0)))
  {
    SumDiff(p, q, i, WORDS);
    hide Sum, Folded, Word;
    var s, t := Sum(p, WORDS), Sum(q, WORDS);
    SumsCompared(s, t);
  }

  lemma SumsCompared(s: int, t: int)
    requires 0 < s + TWO64 && s < TWO64 && 0 < t + TWO64 && t < TWO64 && -65535 <= t - s <= 65535
    ensures Folded(s % TWO64) == Folded(t % TWO64) <==>
      s == t || ((s - t == 65535 || t - s == 65535) && ((s > 0 && t > 0) || (s < 0 && t < 0)))
  {
    hide Folded;
    Wrapped(s);
    Wrapped(t);
    FoldedEqual(s % TWO64, t % TWO64);
    if s >= 0 && t >= 0 {
      CloseResidues(s, t);
    } else if s < 0 && t < 0 {
      CloseResidues(s + 1, t + 1);
    } else if s < 0 {
      CloseResidues(s + 1, t);
    } else {
      CloseResidues(s, t + 1);
    }
  }

  /** Numbers at most 65535 apart share a residue only at distance 0 or 65535. */
  lemma CloseResidues(a: int, b: int)
    requires -65535 <= a - b <= 65535
    ensures a % 65535 == b % 65535 <==> a == b || a - b == 65535 || b - a == 65535
  {
    SameResidue(a, b);
  }

  /** One changed byte, anywhere in the packet, is always caught. */
  lemma ByteChange(p: Packet, q: Packet, k: nat)
    requires Intact(p) && k < 128 && p[k] != q[k]
    requires forall j :: 0 <= j < 128 && j != k ==> p[j] == q[j]
    ensures !Intact(q)
  {
    if k < 126 {
      assert p[126] == q[126] && p[127] == q[127];
      ByteInWord(p, q, k);
      WordChange(p, q, k / 2);
    } else {
      SumDiff(p, q, 0, WORDS);
      assert p[0] == q[0] && p[1] == q[1];
      assert p[253 - k] == q[253 - k];
    }
  }

  lemma ByteInWord(p: Packet, q: Packet, k: nat)
    requires k < 126 && p[k] != q[k]
    requires forall j :: 0 <= j < 128 && j != k ==> p[j] == q[j]
    ensures AgreeBut(p, q, k / 2)
    ensures Word(p, k / 2) != Word(q, k / 2)
    ensures -65535 < Word(p, k / 2) - Word(q, k / 2) < 65535
  {
    var i := k / 2;
    if k == 2 * i {
      assert p[2 * i + 1] == q[2 * i + 1];
    } else {
      assert k == 2 * i + 1 && p[2 * i] == q[2 * i];
    }
  }

  /** A whole-word change that escapes: -32768 for 32767 in a packet of ones. */
  lemma WordChangeCanEscape()
    ensures exists p: Packet, q: Packet :: AgreeBut(p, q, 0) && p != q && Intact(p) && Intact(q)
  {
    var p0: Packet := seq(128, k => if k % 2 == 0 then 255 else 127);
    var q0: Packet := p0[0 := 0][1 := 128];
    assert Word(p0, 0) == 32767 && Word(q0, 0) == -32768;
    Ones(p0, WORDS);
    SumDiff(p0, q0, 0, WORDS);
    WordChange(p0, q0, 0);
    var p, q := Seal(p0), Seal(q0);
    SealIntact(p0);
    SealIntact(q0);
    hide Checksum, Sum, Word;
    assert p[..126][0] != q[..126][0];
    forall k | 0 <= k < 126 && k != 0 && k != 1 ensures p[k] == q[k] {
      assert p[k] == p[..126][k] && q[k] == q[..126][k];
    }
  }

  lemma {:induction false} Ones(p: Packet, n: nat)
    requires n <= WORDS && forall k :: 0 <= k < 126 ==> p[k] == if k % 2 == 0 then 255 else 127
    ensures Sum(p, n) == 32767 * n
  {
    if n > 0 {
      Ones(p, n - 1);
    }
  }
}
