/**
  Counting the members of a bitset by adding neighbouring fields of a word in
  parallel, and why the result is the size of the set.

  A word is taken as a number here. Its binary digits are added in pairs, the sums
  again in pairs, and so on; a multiplication adds up the last eight of them.
 */
module Popcount {
  import opened Numbers
  import opened Bitset

  /** Bitwise and of two numbers. */
  function Mask(x: nat, y: nat): (r: nat) {
    if x == 0 then 0 else 2 * Mask(x / 2, y / 2) + (if x % 2 == 1 && y % 2 == 1 then 1 else 0)
  }

  // ---- numbers made of fields

  /** The width of a field in bits. */
  datatype FieldWidth = One | Two | Four | Eight {
    /** `x` moved up by one field. */
    function Up(x: nat): (r: nat) {
      match this case One => 2 * x case Two => 4 * x case Four => 16 * x case Eight => 256 * x
    }

    /** A field full of ones. */
    function Full(): (r: nat) {
      match this case One => 1 case Two => 3 case Four => 15 case Eight => 255
    }

    function Double(): (w: FieldWidth) {
      match this case One => Two case Two => Four case Four => Eight case Eight => Eight
    }
  }

  /** The number with the fields `f`, lowest first. */
  function Number(f: seq<nat>, w: FieldWidth): (n: nat) {
    if f == [] then 0 else f[0] + w.Up(Number(f[1..], w))
  }

  ghost function Sum(f: seq<nat>): (n: nat) { if f == [] then 0 else f[0] + Sum(f[1..]) }

  ghost predicate AtMost(f: seq<nat>, most: nat) { forall i :: 0 <= i < |f| ==> f[i] <= most }

  // ---- masks that select fields

  lemma Mask1(u: nat, v: nat, n: nat)
    requires u < 2
    ensures Mask(u + 2 * v, 1 + 2 * n) == u + 2 * Mask(v, n) && Mask(u + 2 * v, 2 * n) == 2 * Mask(v, n)
  {
    assert (u + 2 * v) / 2 == v && (u + 2 * v) % 2 == u && (1 + 2 * n) / 2 == n && (1 + 2 * n) % 2 == 1;
  }

  lemma Mask2(u: nat, v: nat, n: nat)
    requires u < 4
    ensures Mask(u + 4 * v, 3 + 4 * n) == u + 4 * Mask(v, n) && Mask(u + 4 * v, 4 * n) == 4 * Mask(v, n)
  {
    hide Mask;
    var (lo, hi) := (u % 2, u / 2);
    assert u + 4 * v == lo + 2 * (hi + 2 * v);
    Mask1(lo, hi + 2 * v, 1 + 2 * n);
    Mask1(hi, v, n);
    Mask1(lo, hi + 2 * v, 2 * n);
    assert 3 + 4 * n == 1 + 2 * (1 + 2 * n) && 4 * n == 2 * (2 * n);
  }

  lemma Mask4(u: nat, v: nat, n: nat)
    requires u < 16
    ensures Mask(u + 16 * v, 15 + 16 * n) == u + 16 * Mask(v, n) && Mask(u + 16 * v, 16 * n) == 16 * Mask(v, n)
  {
    hide Mask;
    var (lo, hi) := (u % 4, u / 4);
    assert u + 16 * v == lo + 4 * (hi + 4 * v);
    Mask2(lo, hi + 4 * v, 3 + 4 * n);
    Mask2(hi, v, n);
    Mask2(lo, hi + 4 * v, 4 * n);
    assert 15 + 16 * n == 3 + 4 * (3 + 4 * n) && 16 * n == 4 * (4 * n);
  }

  /** A full field lets a field through, an empty one does not. */
  lemma MaskField(w: FieldWidth, u: nat, v: nat, n: nat)
    requires !w.Eight? && u <= w.Full()
    ensures Mask(u + w.Up(v), w.Full() + w.Up(n)) == u + w.Up(Mask(v, n))
    ensures Mask(u + w.Up(v), w.Up(n)) == w.Up(Mask(v, n))
  {
    hide Mask;
    match w
    case One => Mask1(u, v, n);
    case Two => Mask2(u, v, n);
    case Four => Mask4(u, v, n);
  }

  /** `n` pairs of fields with ones in the lower field of each, or in the upper. */
  function LowerMask(n: nat, w: FieldWidth): (r: nat) {
    if n == 0 then 0 else w.Full() + w.Up(w.Up(LowerMask(n - 1, w)))
  }

  function UpperMask(n: nat, w: FieldWidth): (r: nat) {
    if n == 0 then 0 else w.Up(w.Full() + w.Up(UpperMask(n - 1, w)))
  }

  /** The lower fields of the pairs, the upper ones, and their sums. */
  ghost function Lowers(f: seq<nat>): (g: seq<nat>) { if |f| < 2 then [] else [f[0]] + Lowers(f[2..]) }

  ghost function Uppers(f: seq<nat>): (g: seq<nat>) { if |f| < 2 then [] else [f[1]] + Uppers(f[2..]) }

  ghost function Pairs(f: seq<nat>): (g: seq<nat>)
    ensures |g| == |f| / 2
  {
    if |f| < 2 then [] else [f[0] + f[1]] + Pairs(f[2..])
  }

  lemma UpUp(w: FieldWidth, x: nat)
    requires !w.Eight?
    ensures w.Up(w.Up(x)) == w.Double().Up(x)
  {
  }

  /** Two fields on top of a number, masked. */
  lemma SelectTwo(w: FieldWidth, u0: nat, u1: nat, rest: nat, m: nat)
    requires !w.Eight? && u0 <= w.Full() && u1 <= w.Full()
    ensures Mask(u0 + w.Up(u1 + w.Up(rest)), w.Full() + w.Up(w.Up(m))) == u0 + w.Double().Up(Mask(rest, m))
    ensures Mask(u0 + w.Up(u1 + w.Up(rest)), w.Up(w.Full() + w.Up(m))) == w.Up(u1 + w.Up(Mask(rest, m)))
  {
    hide Mask, FieldWidth.Up, FieldWidth.Full, FieldWidth.Double;
    MaskField(w, u0, u1 + w.Up(rest), w.Up(m));
    MaskField(w, u1, rest, m);
    MaskField(w, u0, u1 + w.Up(rest), w.Full() + w.Up(m));
    UpUp(w, Mask(rest, m));
  }

  /** The definitions, two fields at a time. */
  lemma TwoFields(f: seq<nat>, w: FieldWidth, n: nat)
    requires |f| == 2 * n && n > 0
    ensures Number(f, w) == f[0] + w.Up(f[1] + w.Up(Number(f[2..], w)))
    ensures Number(Lowers(f), w.Double()) == f[0] + w.Double().Up(Number(Lowers(f[2..]), w.Double()))
    ensures Number(Uppers(f), w.Double()) == f[1] + w.Double().Up(Number(Uppers(f[2..]), w.Double()))
    ensures LowerMask(n, w) == w.Full() + w.Up(w.Up(LowerMask(n - 1, w)))
    ensures UpperMask(n, w) == w.Up(w.Full() + w.Up(UpperMask(n - 1, w)))
  {
    hide FieldWidth.Up, FieldWidth.Full, FieldWidth.Double;
    assert f[1..][1..] == f[2..];
    assert Lowers(f)[1..] == Lowers(f[2..]) && Uppers(f)[1..] == Uppers(f[2..]);
  }

  lemma SelectNone(w: FieldWidth)
    ensures Number([], w) == 0 && Lowers([]) == Uppers([]) == [] && Number([], w.Double()) == 0 && w.Up(0) == 0
    ensures forall m :: Mask(0, m) == 0
  {
  }

  lemma {:induction false} Select(f: seq<nat>, w: FieldWidth, n: nat)
    requires !w.Eight? && |f| == 2 * n && AtMost(f, w.Full())
    ensures Mask(Number(f, w), LowerMask(n, w)) == Number(Lowers(f), w.Double())
    ensures Mask(Number(f, w), UpperMask(n, w)) == w.Up(Number(Uppers(f), w.Double()))
  {
    hide Mask, FieldWidth.Up, FieldWidth.Full, FieldWidth.Double, Number, LowerMask, UpperMask, Lowers, Uppers;
    if n == 0 {
      SelectNone(w);
    } else {
      Select(f[2..], w, n - 1);
      TwoFields(f, w, n);
      SelectTwo(w, f[0], f[1], Number(f[2..], w), LowerMask(n - 1, w));
      SelectTwo(w, f[0], f[1], Number(f[2..], w), UpperMask(n - 1, w));
      UpUp(w, Number(Uppers(f[2..]), w.Double()));
    }
  }

  lemma {:induction false} PairsNumber(f: seq<nat>, w: FieldWidth)
    ensures Number(Lowers(f), w) + Number(Uppers(f), w) == Number(Pairs(f), w)
  {
    if |f| >= 2 {
      PairsNumber(f[2..], w);
      assert Lowers(f)[1..] == Lowers(f[2..]) && Uppers(f)[1..] == Uppers(f[2..]) && Pairs(f)[1..] == Pairs(f[2..]);
    }
  }

  lemma {:induction false} PairsSum(f: seq<nat>, most: nat)
    requires |f| % 2 == 0 && AtMost(f, most)
    ensures Sum(Pairs(f)) == Sum(f) && AtMost(Pairs(f), 2 * most)
  {
    if |f| >= 2 {
      PairsSum(f[2..], most);
      assert f[1..][1..] == f[2..] && Pairs(f)[1..] == Pairs(f[2..]);
      assert forall i :: 1 <= i < |Pairs(f)| ==> Pairs(f)[i] == Pairs(f[2..])[i - 1];
    }
  }

  /** Adding the lower fields and the upper ones, shifted, adds neighbours. */
  lemma Halve(f: seq<nat>, w: FieldWidth, n: nat)
    requires !w.Eight? && |f| == 2 * n && AtMost(f, w.Full())
    ensures var v := Number(f, w);
      Mask(v, LowerMask(n, w)) + Mask(v, UpperMask(n, w)) / w.Up(1) == Number(Pairs(f), w.Double())
  {
    hide Mask, Number, LowerMask, UpperMask, Lowers, Uppers, Pairs;
    Select(f, w, n);
    PairsNumber(f, w.Double());
    Down(w, Number(Uppers(f), w.Double()));
  }

  lemma Down(w: FieldWidth, x: nat)
    ensures w.Up(1) > 0 && w.Up(x) / w.Up(1) == x
  {
  }

  // ---- the masks of the source

  /** The byte `p`, `n` times. */
  ghost function Bytes(n: nat, p: nat): (r: nat) { if n == 0 then 0 else p + 256 * Bytes(n - 1, p) }

  lemma EightBytes(p: nat)
    ensures Bytes(8, p) == 0x0101010101010101 * p
  {
    assert Bytes(1, p) == p && Bytes(2, p) == 257 * p;
    assert Bytes(4, p) == p + 256 * (p + 256 * Bytes(2, p));
    assert Bytes(6, p) == p + 256 * (p + 256 * Bytes(4, p));
  }

  lemma {:induction false} MaskBytesOne(n: nat)
    ensures LowerMask(4 * n, One) == Bytes(n, 0x55) && UpperMask(4 * n, One) == Bytes(n, 0xAA)
  {
    if n > 0 {
      MaskBytesOne(n - 1);
      assert LowerMask(4 * n - 2, One) == 1 + 4 * (1 + 4 * LowerMask(4 * (n - 1), One));
      assert UpperMask(4 * n - 2, One) == 2 + 4 * (2 + 4 * UpperMask(4 * (n - 1), One));
      assert LowerMask(4 * n, One) == 1 + 4 * (1 + 4 * LowerMask(4 * n - 2, One));
      assert UpperMask(4 * n, One) == 2 + 4 * (2 + 4 * UpperMask(4 * n - 2, One));
    }
  }

  lemma {:induction false} MaskBytes(n: nat)
    ensures LowerMask(2 * n, Two) == Bytes(n, 0x33) && UpperMask(2 * n, Two) == Bytes(n, 0xCC)
    ensures LowerMask(n, Four) == Bytes(n, 0x0F) && UpperMask(n, Four) == Bytes(n, 0xF0)
  {
    if n > 0 {
      MaskBytes(n - 1);
      assert LowerMask(2 * n, Two) == 3 + 16 * (3 + 16 * LowerMask(2 * (n - 1), Two));
      assert UpperMask(2 * n, Two) == 12 + 16 * (12 + 16 * UpperMask(2 * (n - 1), Two));
    }
  }

  lemma Masks()
    ensures LowerMask(32, One) == 0x5555555555555555 && UpperMask(32, One) == 0xAAAAAAAAAAAAAAAA
    ensures LowerMask(16, Two) == 0x3333333333333333 && UpperMask(16, Two) == 0xCCCCCCCCCCCCCCCC
    ensures LowerMask(8, Four) == 0x0F0F0F0F0F0F0F0F && UpperMask(8, Four) == 0xF0F0F0F0F0F0F0F0
  {
    hide *;
    MaskBytesOne(8);
    MaskBytes(8);
    EightBytes(0x55);
    EightBytes(0xAA);
    EightBytes(0x33);
    EightBytes(0xCC);
    EightBytes(0x0F);
    EightBytes(0xF0);
  }

  // ---- the last step

  lemma SumEight(f: seq<nat>)
    requires |f| == 8
    ensures Sum(f) == f[0] + f[1] + f[2] + f[3] + f[4] + f[5] + f[6] + f[7]
  {
    assert Sum(f[7..]) == f[7] by { assert f[7..][1..] == []; }
    assert Sum(f[5..]) == f[5] + f[6] + Sum(f[7..]) by { assert f[5..][1..] == f[6..] && f[6..][1..] == f[7..]; }
    assert Sum(f[3..]) == f[3] + f[4] + Sum(f[5..]) by { assert f[3..][1..] == f[4..] && f[4..][1..] == f[5..]; }
    assert Sum(f[1..]) == f[1] + f[2] + Sum(f[3..]) by { assert f[1..][1..] == f[2..] && f[2..][1..] == f[3..]; }
  }

  lemma NumberEight(f: seq<nat>)
    requires |f| == 8
    ensures Number(f, Eight) == f[0] + 256 * f[1] + 0x1_0000 * f[2] + 0x100_0000 * f[3] + 0x1_0000_0000 * f[4]
      + 0x100_0000_0000 * f[5] + 0x1_0000_0000_0000 * f[6] + 0x100_0000_0000_0000 * f[7]
  {
    var w := Eight;
    assert Number(f[7..], w) == f[7] by { assert f[7..][1..] == []; }
    assert Number(f[5..], w) == f[5] + 256 * (f[6] + 256 * Number(f[7..], w)) by {
      assert f[5..][1..] == f[6..] && f[6..][1..] == f[7..];
    }
    assert Number(f[3..], w) == f[3] + 256 * (f[4] + 256 * Number(f[5..], w)) by {
      assert f[3..][1..] == f[4..] && f[4..][1..] == f[5..];
    }
    assert Number(f[1..], w) == f[1] + 256 * (f[2] + 256 * Number(f[3..], w)) by {
      assert f[1..][1..] == f[2..] && f[2..][1..] == f[3..];
    }
  }

  /** The product, written out: sums of the first bytes below, and the rest above 64 bits. */
  lemma ByteProduct(a: nat, b: nat, c: nat, d: nat, e: nat, f: nat, g: nat, h: nat)
    requires a <= 8 && b <= 8 && c <= 8 && d <= 8 && e <= 8 && f <= 8 && g <= 8 && h <= 8
    ensures var v := a + 256 * b + 0x1_0000 * c + 0x100_0000 * d + 0x1_0000_0000 * e + 0x100_0000_0000 * f
        + 0x1_0000_0000_0000 * g + 0x100_0000_0000_0000 * h;
      (v * 0x0101010101010101 % TWO64) / 0x100_0000_0000_0000 % 256 == a + b + c + d + e + f + g + h
  {
    var v := a + 256 * b + 0x1_0000 * c + 0x100_0000 * d + 0x1_0000_0000 * e + 0x100_0000_0000 * f
      + 0x1_0000_0000_0000 * g + 0x100_0000_0000_0000 * h;
    var low := a + 256 * (a + b) + 0x1_0000 * (a + b + c) + 0x100_0000 * (a + b + c + d)
      + 0x1_0000_0000 * (a + b + c + d + e) + 0x100_0000_0000 * (a + b + c + d + e + f)
      + 0x1_0000_0000_0000 * (a + b + c + d + e + f + g);
    var sum := a + b + c + d + e + f + g + h;
    var high := (b + c + d + e + f + g + h) + 256 * (c + d + e + f + g + h) + 0x1_0000 * (d + e + f + g + h)
      + 0x100_0000 * (e + f + g + h) + 0x1_0000_0000 * (f + g + h) + 0x100_0000_0000 * (g + h) + 0x1_0000_0000_0000 * h;
    assert v * 0x0101010101010101 == TWO64 * high + (0x100_0000_0000_0000 * sum + low);
    assert low < 0x100_0000_0000_0000;
    Remainder(high, sum, low);
  }

  lemma Remainder(high: nat, sum: nat, low: nat)
    requires low < 0x100_0000_0000_0000 && sum <= 64
    ensures ((TWO64 * high + (0x100_0000_0000_0000 * sum + low)) % TWO64) / 0x100_0000_0000_0000 % 256 == sum
  {
    var r := 0x100_0000_0000_0000 * sum + low;
    assert (TWO64 * high + r) % TWO64 == r;
    assert r / 0x100_0000_0000_0000 == sum;
  }

  /** Eight small bytes, multiplied by ones, have their sum on top. */
  lemma TopByte(f: seq<nat>)
    requires |f| == 8 && AtMost(f, 8)
    ensures (Number(f, Eight) * 0x0101010101010101 % TWO64) / 0x100_0000_0000_0000 % 256 == Sum(f)
  {
    hide Number, Sum;
    SumEight(f);
    NumberEight(f);
    ByteProduct(f[0], f[1], f[2], f[3], f[4], f[5], f[6], f[7]);
  }

  // ---- nothing overflows

  /** One more than the largest number of `n` fields. */
  ghost function Cap(n: nat, w: FieldWidth): (r: nat) { if n == 0 then 1 else w.Up(Cap(n - 1, w)) }

  lemma {:induction false} Fits(f: seq<nat>, w: FieldWidth)
    requires AtMost(f, w.Full())
    ensures Number(f, w) < Cap(|f|, w)
  {
    if f != [] {
      Fits(f[1..], w);
    }
  }

  lemma {:induction false} CapBytes(n: nat)
    ensures Cap(4 * n, Two) == Cap(n, Eight) && Cap(2 * n, Four) == Cap(n, Eight)
  {
    if n > 0 {
      CapBytes(n - 1);
      assert Cap(4 * n - 2, Two) == 16 * Cap(4 * (n - 1), Two) && Cap(4 * n, Two) == 16 * Cap(4 * n - 2, Two);
    }
  }

  lemma Capacities()
    ensures Cap(32, Two) == Cap(16, Four) == Cap(8, Eight) == TWO64
  {
    CapBytes(8);
    assert Cap(2, Eight) == 0x1_0000;
    assert Cap(4, Eight) == 0x1_0000_0000;
    assert Cap(6, Eight) == 0x1_0000 * Cap(4, Eight);
  }

  // ---- one word

  /** The number of a word. */
  function Digits(w: Word): (f: seq<nat>)
    ensures |f| == 64
  {
    seq(64, i requires 0 <= i < 64 => if w[i] then 1 else 0)
  }

  function Value(w: Word): (n: nat) { Number(Digits(w), One) }

  ghost function Both(f: seq<nat>, g: seq<nat>): (h: seq<nat>)
    requires |f| == |g|
  {
    if f == [] then [] else [if f[0] == 1 && g[0] == 1 then 1 else 0] + Both(f[1..], g[1..])
  }

  lemma {:induction false} MaskDigits(f: seq<nat>, g: seq<nat>)
    requires |f| == |g| && AtMost(f, 1) && AtMost(g, 1)
    ensures Mask(Number(f, One), Number(g, One)) == Number(Both(f, g), One)
  {
    if f != [] {
      MaskDigits(f[1..], g[1..]);
      assert Both(f, g)[1..] == Both(f[1..], g[1..]);
      var (v, n) := (Number(f[1..], One), Number(g[1..], One));
      Mask1(f[0], v, n);
      assert Number(f, One) == f[0] + 2 * v && Number(g, One) == g[0] + 2 * n;
    }
  }

  lemma {:induction false} BothAt(f: seq<nat>, g: seq<nat>, i: nat)
    requires |f| == |g| && i < |f|
    ensures |Both(f, g)| == |f| && Both(f, g)[i] == if f[i] == 1 && g[i] == 1 then 1 else 0
  {
    if i > 0 {
      BothAt(f[1..], g[1..], i - 1);
    } else if |f| > 1 {
      BothAt(f[1..], g[1..], 0);
    }
  }

  /** Masking numbers is the digit-by-digit operation on words. */
  lemma MaskIsAnd(v: Word, w: Word)
    ensures Mask(Value(v), Value(w)) == Value(And(v, w))
  {
    MaskDigits(Digits(v), Digits(w));
    forall i: nat | i < 64
      ensures |Both(Digits(v), Digits(w))| == 64 && Both(Digits(v), Digits(w))[i] == Digits(And(v, w))[i] {
      BothAt(Digits(v), Digits(w), i);
    }
    BothAt(Digits(v), Digits(w), 0);
    assert Both(Digits(v), Digits(w)) == Digits(And(v, w));
  }

  /** One line of the source: mask, mask and shift, add. */
  function AddFields(v: nat, lower: nat, upper: nat, shift: nat): (r: nat)
    requires shift > 0
  {
    (Mask(v, lower) + Mask(v, upper) / shift) % TWO64
  }

  lemma Line(f: seq<nat>, w: FieldWidth, n: nat, lower: nat, upper: nat)
    requires !w.Eight? && |f| == 2 * n && 2 * Largest(w) <= w.Double().Full() && AtMost(f, Largest(w))
    requires lower == LowerMask(n, w) && upper == UpperMask(n, w) && Cap(n, w.Double()) == TWO64
    ensures AddFields(Number(f, w), lower, upper, w.Up(1)) == Number(Pairs(f), w.Double())
    ensures AtMost(Pairs(f), 2 * Largest(w)) && Sum(Pairs(f)) == Sum(f)
  {
    hide Mask, Number, Sum, Pairs, LowerMask, UpperMask, Cap;
    PairsSum(f, Largest(w));
    Halve(f, w, n);
    Fits(Pairs(f), w.Double());
  }

  /** The largest sum that a field of this width has to hold. */
  ghost function Largest(w: FieldWidth): (n: nat) { match w case One => 1 case Two => 2 case Four => 4 case Eight => 8 }

  /** The parallel form of the source, on the number of a word. */
  function CountBits(v: nat): (n: nat) {
    var v1 := AddFields(v, 0x5555555555555555, 0xAAAAAAAAAAAAAAAA, 2);
    var v2 := AddFields(v1, 0x3333333333333333, 0xCCCCCCCCCCCCCCCC, 4);
    var v3 := AddFields(v2, 0x0F0F0F0F0F0F0F0F, 0xF0F0F0F0F0F0F0F0, 16);
    (v3 * 0x0101010101010101 % TWO64) / 0x100_0000_0000_0000 % 256
  }

  /** It counts the ones. */
  lemma CountsOnes(f: seq<nat>)
    requires |f| == 64 && AtMost(f, 1)
    ensures CountBits(Number(f, One)) == Sum(f)
  {
    var (f1, f2) := (Pairs(f), Pairs(Pairs(f)));
    hide Mask, Number, Sum, Pairs, LowerMask, UpperMask, Cap, AddFields;
    Masks();
    Capacities();
    Line(f, One, 32, 0x5555555555555555, 0xAAAAAAAAAAAAAAAA);
    Line(f1, Two, 16, 0x3333333333333333, 0xCCCCCCCCCCCCCCCC);
    Line(f2, Four, 8, 0x0F0F0F0F0F0F0F0F, 0xF0F0F0F0F0F0F0F0);
    TopByte(Pairs(f2));
  }

  // ---- the whole set

  lemma {:induction false} SumNext(f: seq<nat>, n: nat)
    requires n < |f|
    ensures Sum(f[..n + 1]) == Sum(f[..n]) + f[n]
  {
    if n == 0 {
      assert f[..1][1..] == [] && f[..0] == [];
    } else {
      SumNext(f[1..], n - 1);
      assert f[..n + 1][1..] == f[1..][..n] && f[..n][1..] == f[1..][..n - 1];
    }
  }

  /** The positions of the first `n` digits that are one, counted from `base`. */
  ghost function Ones(w: Word, n: nat, base: nat): (s: set<nat>)
    requires n <= 64
  {
    set p: nat | base <= p < base + n && IsOne(w, base, p)
  }

  ghost predicate IsOne(w: Word, base: nat, p: nat) { base <= p < base + 64 && w[p - base] }

  lemma {:induction false} OnesSum(w: Word, n: nat, base: nat)
    requires n <= 64
    ensures |Ones(w, n, base)| == Sum(Digits(w)[..n])
  {
    if n > 0 {
      OnesSum(w, n - 1, base);
      SumNext(Digits(w), n - 1);
      var last := base + n - 1;
      assert Ones(w, n, base) == Ones(w, n - 1, base) + if w[n - 1] then {last} else {};
    }
  }

  lemma MemberOf(words: seq<Word>, w: Word, p: nat)
    ensures p in Members(words + [w]) <==> p in Members(words) || p in Ones(w, 64, 64 * |words|)
  {
    if p < 64 * |words| {
      assert p / 64 < |words|;
      assert Has(words + [w], p) <==> Has(words, p);
    } else if p < 64 * |words| + 64 {
      assert p / 64 == |words| && p % 64 == p - 64 * |words|;
    }
  }

  lemma MembersNext(words: seq<Word>, w: Word)
    ensures |Members(words + [w])| == |Members(words)| + Sum(Digits(w))
  {
    var ones := Ones(w, 64, 64 * |words|);
    var all := Members(words + [w]);
    forall p | p in all ensures p in Members(words) + ones { MemberOf(words, w, p); }
    forall p | p in Members(words) + ones ensures p in all { MemberOf(words, w, p); }
    assert all == Members(words) + ones && Members(words) !! ones;
    OnesSum(w, 64, 64 * |words|);
    assert Digits(w)[..64] == Digits(w);
  }

  /** The size of the set, whatever its length. */
  method Popcnt(b: array<Word>) returns (total: nat)
    ensures total == |Members(b[..])|
  {
    total := 0;
    assert Members(b[..0]) == {};
    for i := 0 to b.Length
      invariant total == |Members(b[..i])|
    {
      hide Members, CountBits, Number, Sum;
      CountsOnes(Digits(b[i]));
      MembersNext(b[..i], b[i]);
      assert b[..i + 1] == b[..i] + [b[i]];
      total := total + CountBits(Value(b[i]));
    }
    assert b[..b.Length] == b[..];
  }
}
