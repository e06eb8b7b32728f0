/**
  Bytes of chunk files and journal entries on a data node: padding, files that are
  written at an offset, and numbers in big-endian order.
 */
module ChunkBytes {
  import opened Numbers

  const BLOCK_SIZE: nat := 2048
  const FILE_SIZE: nat := 8192
  const VERSION_START: nat := 8192
  const SPACE: byte := 32

  // ---- numbers

  function Pow256(k: nat): (n: nat)
    ensures n > 0
  {
    if k == 0 then 1 else 256 * Pow256(k - 1)
  }

  function Digits(n: nat, k: nat): (b: seq<byte>)
    ensures |b| == k
  {
    if k == 0 then [] else Digits(n / 256, k - 1) + [n % 256]
  }

  function Number(b: seq<byte>): (n: nat) {
    if b == [] then 0 else Number(b[..|b| - 1]) * 256 + b[|b| - 1]
  }

  lemma {:induction false} NumberDigits(n: nat, k: nat)
    requires n < Pow256(k)
    ensures Number(Digits(n, k)) == n
  {
    if k > 0 {
      NumberDigits(n / 256, k - 1);
      assert Digits(n, k)[..k - 1] == Digits(n / 256, k - 1);
    }
  }

  lemma DivideTwice(n: nat, p: nat)
    requires p > 0
    ensures n / 256 / p == n / (256 * p)
  {
    var q, r := n / (256 * p), n % (256 * p);
    assert n == 256 * (q * p) + r;
    assert n / 256 == q * p + r / 256;
    Quotient(q, p, r / 256);
  }

  lemma AtLeast(d: int, p: int)
    requires d >= 1 && p >= 0
    ensures d * p >= p
  {
  }

  lemma SameQuotient(a: int, b: int, p: int, e: int, f: int)
    requires a * p + e == b * p + f && 0 <= e < p && 0 <= f < p
    ensures a == b
  {
    assert (b - a) * p == b * p - a * p && (a - b) * p == a * p - b * p;
    if a < b {
      AtLeast(b - a, p);
    } else if b < a {
      AtLeast(a - b, p);
    }
  }

  lemma Quotient(q: nat, p: nat, r: nat)
    requires r < p
    ensures (q * p + r) / p == q
  {
    var x := q * p + r;
    assert x == x / p * p + x % p;
    SameQuotient(x / p, q, p, x % p, r);
  }

  /** Highest digit first. */
  lemma {:induction false} DigitsAt(n: nat, k: nat, i: nat)
    requires i < k
    ensures Digits(n, k)[i] == n / Pow256(k - 1 - i) % 256
  {
    if i < k - 1 {
      DigitsAt(n / 256, k - 1, i);
      DivideTwice(n, Pow256(k - 2 - i));
    }
  }

  lemma {:induction false} DigitsNumber(b: seq<byte>)
    ensures Digits(Number(b), |b|) == b
  {
    if b != [] {
      DigitsNumber(b[..|b| - 1]);
      assert Number(b) / 256 == Number(b[..|b| - 1]) && Number(b) % 256 == b[|b| - 1];
    }
  }

  function Uint64ToBytes(n: nat): (b: seq<byte>)
    ensures |b| == 8
  {
    Digits(n, 8)
  }

  function Uint32ToBytes(n: nat): (b: seq<byte>)
    ensures |b| == 4
  {
    Digits(n, 4)
  }

  lemma Widths()
    ensures Pow256(4) == TWO32 && Pow256(8) == TWO64
  {
    assert Pow256(2) == 65536;
    assert Pow256(4) == TWO32;
    assert Pow256(6) == 65536 * TWO32;
  }

  lemma Uint64RoundTrip(n: nat)
    requires n < TWO64
    ensures Number(Uint64ToBytes(n)) == n
  {
    Widths();
    NumberDigits(n, 8);
  }

  lemma Uint32RoundTrip(n: nat)
    requires n < TWO32
    ensures Number(Uint32ToBytes(n)) == n
  {
    Widths();
    NumberDigits(n, 4);
  }

  // ---- files

  /** Writes `data` at `offset`; a gap behind the end of the file is filled with zeros. */
  function WriteAt(f: seq<byte>, data: seq<byte>, offset: nat): (g: seq<byte>)
    ensures |g| == if |f| < offset + |data| then offset + |data| else |f|
  {
    var f' := if |f| < offset then f + seq(offset - |f|, _ => 0) else f;
    f'[..offset] + data + if offset + |data| < |f'| then f'[offset + |data|..] else []
  }

  lemma WrittenAt(f: seq<byte>, data: seq<byte>, offset: nat, p: nat)
    requires p < |WriteAt(f, data, offset)|
    ensures WriteAt(f, data, offset)[p] ==
      if offset <= p < offset + |data| then data[p - offset] else if p < |f| then f[p] else 0
  {
  }

  // ---- padding

  /** A target size of 0 stands for one block. */
  function TargetSizeWrapper(targetSize: nat): (r: nat) { if targetSize == 0 then BLOCK_SIZE else targetSize }

  /** How many bytes of `data` are written. */
  function Written(data: seq<byte>, size: nat, targetSize: nat): (n: nat)
    ensures n <= |data| && n <= TargetSizeWrapper(targetSize)
  {
    Min(Min(size, TargetSizeWrapper(targetSize)), |data|)
  }

  function PaddedData(data: seq<byte>, size: nat, targetSize: nat, padding: byte): (r: seq<byte>)
    ensures |r| == TargetSizeWrapper(targetSize)
  {
    var n := Written(data, size, targetSize);
    data[..n] + seq(TargetSizeWrapper(targetSize) - n, _ => padding)
  }

  function PaddedFile(data: seq<byte>, size: nat, targetSize: nat, padding: byte, offset: nat): (r: seq<byte>)
    requires offset + TargetSizeWrapper(targetSize) <= FILE_SIZE
    ensures |r| == FILE_SIZE
  {
    WriteAt(seq(FILE_SIZE, _ => padding), data[..Written(data, size, targetSize)], offset)
  }

  method GetPaddedBytes(padding: byte, size: nat) returns (a: array<byte>)
    ensures fresh(a) && a.Length == size && forall i :: 0 <= i < size ==> a[i] == padding
  {
    a := new byte[size];
    for i := 0 to size
      invariant forall j :: 0 <= j < i ==> a[j] == padding
    {
      a[i] := padding;
    }
  }

  /** Copies the first `n` bytes of `data` into the array at `offset`. */
  method Copy(a: array<byte>, offset: nat, data: seq<byte>, n: nat)
    requires n <= |data| && offset + n <= a.Length
    modifies a
    ensures a[..] == WriteAt(old(a[..]), data[..n], offset)
  {
    for i := 0 to n
      invariant forall j :: 0 <= j < offset || offset + i <= j < a.Length ==> a[j] == old(a[j])
      invariant forall j :: 0 <= j < i ==> a[offset + j] == data[j]
    {
      a[offset + i] := data[i];
    }
    assert a[..] == WriteAt(old(a[..]), data[..n], offset) by {
      forall p: nat | p < a.Length ensures a[p] == WriteAt(old(a[..]), data[..n], offset)[p] {
        WrittenAt(old(a[..]), data[..n], offset, p);
        assert offset <= p < offset + n ==> a[offset + (p - offset)] == data[p - offset];
      }
    }
  }

  method GetPaddedData(data: seq<byte>, size: nat, targetSize: nat, padding: byte) returns (r: seq<byte>)
    ensures r == PaddedData(data, size, targetSize, padding)
  {
    var a := GetPaddedBytes(padding, TargetSizeWrapper(targetSize));
    Copy(a, 0, data, Written(data, size, targetSize));
    r := a[..];
  }

  method GetPaddedFile(data: seq<byte>, size: nat, targetSize: nat, padding: byte, offset: nat) returns (r: seq<byte>)
    requires offset + TargetSizeWrapper(targetSize) <= FILE_SIZE
    ensures r == PaddedFile(data, size, targetSize, padding, offset)
  {
    var a := GetPaddedBytes(padding, FILE_SIZE);
    assert a[..] == seq(FILE_SIZE, _ => padding);
    Copy(a, offset, data, Written(data, size, targetSize));
    r := a[..];
  }
}
