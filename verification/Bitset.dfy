/**
  A set of naturals packed into 64-bit words: bits 0-63 in the first word,
  the next 64 in the second, and so on. A word is given by its binary digits,
  lowest first, so the bitwise operators act digit by digit.
 */
module Bitset {

  type Word = w: seq<bool> | |w| == 64 witness seq(64, _ => false)

  const ZERO: Word := seq(64, _ => false)

  function ShiftedOne(minor: nat): (w: Word)
    requires minor < 64
  {
    seq(64, i => i == minor)
  }

  function Or(v: Word, w: Word): (r: Word) { seq(64, i requires 0 <= i < 64 => v[i] || w[i]) }

  function And(v: Word, w: Word): (r: Word) { seq(64, i requires 0 <= i < 64 => v[i] && w[i]) }

  function AndNot(v: Word, w: Word): (r: Word) { seq(64, i requires 0 <= i < 64 => v[i] && !w[i]) }

  function Width(bits: nat): (chunks: nat) {
    bits / 64 + (if bits % 64 != 0 then 1 else 0)
  }

  ghost predicate Has(words: seq<Word>, pos: nat) {
    pos / 64 < |words| && words[pos / 64][pos % 64]
  }

  /** The set the words stand for. */
  ghost function Members(words: seq<Word>): (r: set<nat>) {
    set pos: nat | pos < 64 * |words| && Has(words, pos)
  }

  lemma UpdateMembers(words: seq<Word>, pos: nat, word: Word, on: bool)
    requires pos / 64 < |words|
    requires forall j: nat :: j < 64 ==> (word[j] <==> if j == pos % 64 then on else words[pos / 64][j])
    ensures Members(words[pos / 64 := word]) == if on then Members(words) + {pos} else Members(words) - {pos}
  {
    var words' := words[pos / 64 := word];
    forall p: nat | p < 64 * |words|
      ensures Has(words', p) <==> if p == pos then on else Has(words, p)
    {
      if p / 64 == pos / 64 && p != pos {
        assert p % 64 != pos % 64;
      }
    }
  }

  /** Word arrays of one length denote equal sets only if they are equal. */
  lemma SameMembers(u: seq<Word>, v: seq<Word>)
    requires |u| == |v|
    ensures Members(u) == Members(v) <==> u == v
  {
    if u != v {
      var k :| 0 <= k < |u| && u[k] != v[k];
      var i :| 0 <= i < 64 && u[k][i] != v[k][i];
      var pos := 64 * k + i;
      assert pos / 64 == k && pos % 64 == i;
      assert Has(u, pos) != Has(v, pos);
      assert pos in Members(u) <==> pos !in Members(v);
    }
  }

  method NewBitset(bits: nat) returns (b: array<Word>)
    ensures fresh(b) && b.Length == Width(bits)
    ensures bits <= 64 * b.Length && Members(b[..]) == {}
  {
    b := new Word[Width(bits)](_ => ZERO);
    assert forall pos: nat :: pos < 64 * b.Length ==> !Has(b[..], pos);
  }

  method Clone(b: array<Word>) returns (c: array<Word>)
    ensures fresh(c) && c[..] == b[..]
  {
    c := new Word[b.Length](_ => ZERO);
    for i := 0 to b.Length
      invariant c[..i] == b[..i]
    {
      c[i] := b[i];
    }
    assert b[..] == b[..b.Length] && c[..] == c[..c.Length];
  }

  method Set(b: array<Word>, pos: nat)
    requires pos < 64 * b.Length
    modifies b
    ensures Members(b[..]) == old(Members(b[..])) + {pos}
  {
    ghost var before := b[..];
    var major, minor := pos / 64, pos % 64;
    b[major] := Or(b[major], ShiftedOne(minor));
    assert b[..] == before[major := b[major]];
    UpdateMembers(before, pos, b[major], true);
  }

  method Clear(b: array<Word>, pos: nat)
    requires pos < 64 * b.Length
    modifies b
    ensures Members(b[..]) == old(Members(b[..])) - {pos}
  {
    ghost var before := b[..];
    var major, minor := pos / 64, pos % 64;
    b[major] := AndNot(b[major], ShiftedOne(minor));
    assert b[..] == before[major := b[major]];
    UpdateMembers(before, pos, b[major], false);
  }

  method Get(b: array<Word>, pos: nat) returns (r: bool)
    requires pos < 64 * b.Length
    ensures r <==> pos in Members(b[..])
  {
    var major, minor := pos / 64, pos % 64;
    r := And(b[major], ShiftedOne(minor)) != ZERO;
    assert And(b[major], ShiftedOne(minor))[minor] == b[major][minor];
    assert !b[major][minor] ==> And(b[major], ShiftedOne(minor)) == ZERO;
  }

  method Equals(b: array<Word>, c: array<Word>) returns (r: bool)
    ensures r <==> b.Length == c.Length && Members(b[..]) == Members(c[..])
  {
    if b.Length != c.Length {
      return false;
    }
    SameMembers(b[..], c[..]);
    for i := 0 to b.Length
      invariant b[..i] == c[..i]
    {
      if b[i] != c[i] {
        return false;
      }
    }
    assert b[..] == b[..b.Length] && c[..] == c[..c.Length];
    return true;
  }
}
