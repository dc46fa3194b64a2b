/** Lists of bits, most significant first, and the numbers they stand for. */
module Bits {
  type bit = b: int | b == 0 || b == 1

  function Pow2(n: nat): (p: nat)
    ensures p > 0
  {
    if n == 0 then 1 else 2 * Pow2(n - 1)
  }

  function Value(bits: seq<bit>): nat {
    if bits == [] then 0 else 2 * Value(bits[..|bits| - 1]) + bits[|bits| - 1]
  }

  /** The `n` low bits of a number. */
  function BitsOf(x: nat, n: nat): (bits: seq<bit>)
    ensures |bits| == n
  {
    if n == 0 then [] else BitsOf(x / 2, n - 1) + [x % 2]
  }

  /** The bits of a byte array. */
  function DataBits(bytes: seq<int>): (bits: seq<bit>)
    ensures |bits| == 8 * |bytes|
  {
    if bytes == [] then [] else BitsOf(if bytes[0] >= 0 then bytes[0] else 0, 8) + DataBits(bytes[1..])
  }

  lemma {:induction false} PowAdd(m: nat, n: nat)
    ensures Pow2(m + n) == Pow2(m) * Pow2(n)
  {
    if m == 0 {
    } else {
      PowAdd(m - 1, n);
    }
  }

  lemma {:induction false} ValueBound(bits: seq<bit>)
    ensures Value(bits) < Pow2(|bits|)
  {
    if bits == [] {
    } else {
      ValueBound(bits[..|bits| - 1]);
    }
  }

  lemma {:induction false} ValueAppend(a: seq<bit>, b: seq<bit>)
    ensures Value(a + b) == Value(a) * Pow2(|b|) + Value(b)
  {
    if b == [] {
      assert a + b == a;
    } else {
      var c := b[..|b| - 1];
      assert (a + b)[..|a + b| - 1] == a + c;
      ValueAppend(a, c);
      assert Value(a) * Pow2(|b|) == 2 * (Value(a) * Pow2(|c|)) by { Twice(Value(a), Pow2(|c|)); }
    }
  }

  lemma Twice(a: int, p: int)
    ensures a * (2 * p) == 2 * (a * p)
  {
  }

  lemma {:induction false} ValueBitsOf(x: nat, n: nat)
    requires x < Pow2(n)
    ensures Value(BitsOf(x, n)) == x
  {
    if n == 0 {
    } else {
      ValueBitsOf(x / 2, n - 1);
      assert BitsOf(x, n)[..n - 1] == BitsOf(x / 2, n - 1);
    }
  }

  lemma QuotientOf(q: nat, m: nat, r: nat)
    requires r < m
    ensures (q * m + r) / m == q && (q * m + r) % m == r
  {
    Unique(q * m + r, m, q, r);
  }

  lemma Unique(x: nat, m: nat, q: nat, r: nat)
    requires m > 0 && r < m && x == q * m + r
    ensures x / m == q && x % m == r
  {
    var q', r' := x / m, x % m;
    assert x == q' * m + r';
    if q' < q {
      Monotone(q' + 1, q, m);
    } else if q < q' {
      Monotone(q + 1, q', m);
    }
  }

  lemma Monotone(a: int, b: int, m: nat)
    requires a <= b
    ensures a * m <= b * m
    ensures (a - 1) * m == a * m - m && (b - 1) * m == b * m - m
  {
  }

  /** A word holds a bit list when the list stands at its top. */
  ghost predicate Holds(word: nat, bits: seq<bit>) {
    |bits| <= 32 && word == Value(bits) * Pow2(32 - |bits|)
  }

  /** Shifting right takes the first bits. */
  lemma TakeTop(word: nat, bits: seq<bit>, e: nat)
    requires Holds(word, bits) && e <= |bits|
    ensures word / Pow2(32 - e) == Value(bits[..e])
  {
    hide Pow2, Value;
    var a, b := bits[..e], bits[e..];
    assert bits == a + b;
    ValueAppend(a, b);
    ValueBound(b);
    PowAdd(|b|, 32 - |bits|);
    TopOf(word, Value(a), Value(b), Pow2(|b|), Pow2(32 - |bits|));
  }

  lemma TopOf(word: nat, a: nat, b: nat, p: nat, s: nat)
    requires word == (a * p + b) * s && b < p && s > 0
    ensures p * s > 0 && word / (p * s) == a
  {
    Regroup(a, p, b, s);
    Scaled(b, p, s);
    QuotientOf(a, p * s, b * s);
  }

  lemma Regroup(a: nat, p: nat, b: nat, s: nat)
    ensures (a * p + b) * s == a * (p * s) + b * s
  {
  }

  lemma Scaled(b: nat, p: nat, s: nat)
    requires b < p && s > 0
    ensures b * s < p * s
  {
  }

  lemma DropAlgebra(a: nat, b: nat, p: nat, s: nat, q: nat, word: nat)
    requires b < p && s > 0 && q > 0 && word == (a * p + b) * s
    ensures p * s * q > 0 && word * q % (p * s * q) == b * (s * q)
  {
    var f, low := p * s * q, b * s * q;
    Scaled(b, p, s);
    Scaled(b * s, p * s, q);
    Regroup(a, p, b, s);
    Regroup(a, p * s, b * s, q);
    assert word * q == a * f + low;
    QuotientOf(a, f, low);
    Assoc(b, s, q);
  }

  lemma Assoc(a: int, b: int, c: int)
    ensures a * b * c == a * (b * c)
  {
  }

  /** Shifting left drops the first bits. */
  lemma DropTop(word: nat, bits: seq<bit>, e: nat)
    requires Holds(word, bits) && e <= |bits|
    ensures Holds(word * Pow2(e) % Pow2(32), bits[e..])
  {
    hide Pow2, Value;
    var k := |bits|;
    var a, b := bits[..e], bits[e..];
    assert bits == a + b;
    ValueAppend(a, b);
    ValueBound(b);
    PowAdd(k - e, 32 - k);
    PowAdd(32 - e, e);
    PowAdd(32 - k, e);
    DropAlgebra(Value(a), Value(b), Pow2(k - e), Pow2(32 - k), Pow2(e), word);
  }

  lemma PowBytes()
    ensures Pow2(8) == 0x100 && Pow2(16) == 0x1_0000 && Pow2(24) == 0x100_0000 && Pow2(0) == 1
  {
    assert Pow2(4) == 16;
    PowAdd(4, 4);
    PowAdd(8, 8);
    PowAdd(16, 8);
  }

  ghost predicate AreBytes(data: seq<int>) { forall i :: 0 <= i < |data| ==> 0 <= data[i] < 0x100 }

  lemma FirstByte(first: int, rest: seq<int>)
    requires 0 <= first < 0x100
    ensures Value(DataBits([first] + rest)) == first * Pow2(8 * |rest|) + Value(DataBits(rest))
  {
    hide Pow2, Value, BitsOf;
    PowBytes();
    assert ([first] + rest)[1..] == rest;
    ValueAppend(BitsOf(first, 8), DataBits(rest));
    ValueBitsOf(first, 8);
  }

  lemma TwoBytes(a: int, b: int)
    requires 0 <= a < 0x100 && 0 <= b < 0x100
    ensures Value(DataBits([b])) == b && Value(DataBits([a, b])) == a * 0x100 + b
  {
    hide Pow2, Value, DataBits;
    PowBytes();
    NoBits();
    FirstByte(b, []);
    assert [b] + [] == [b] && [a] + [b] == [a, b];
    FirstByte(a, [b]);
  }

  lemma FourBytes(a: int, b: int, c: int, d: int)
    requires 0 <= a < 0x100 && 0 <= b < 0x100 && 0 <= c < 0x100 && 0 <= d < 0x100
    ensures Value(DataBits([b, c, d])) == b * 0x1_0000 + c * 0x100 + d
    ensures Value(DataBits([a, b, c, d])) == a * 0x100_0000 + b * 0x1_0000 + c * 0x100 + d
  {
    hide Pow2, Value, DataBits;
    PowBytes();
    TwoBytes(c, d);
    assert [b] + [c, d] == [b, c, d] && [a] + [b, c, d] == [a, b, c, d];
    FirstByte(b, [c, d]);
    FirstByte(a, [b, c, d]);
  }

  function WordOf(i: seq<int>): int
    requires |i| == 4
  {
    i[0] * 0x100_0000 + i[1] * 0x1_0000 + i[2] * 0x100 + i[3]
  }

  /** The number of one to four bytes. */
  function NumberOf(b: seq<int>): int
    requires 1 <= |b| <= 4
  {
    if |b| == 1 then b[0]
    else if |b| == 2 then b[0] * 0x100 + b[1]
    else if |b| == 3 then b[0] * 0x1_0000 + b[1] * 0x100 + b[2]
    else WordOf(b)
  }

  lemma PaddedWord(b: seq<int>)
    requires 1 <= |b| <= 4 && AreBytes(b)
    ensures NumberOf(b) >= 0
    ensures WordOf(b + seq(4 - |b|, _ => 0)) == NumberOf(b) *
      (if |b| == 1 then 0x100_0000 else if |b| == 2 then 0x1_0000 else if |b| == 3 then 0x100 else 1)
  {
    var w := b + seq(4 - |b|, _ => 0);
    assert forall k :: |b| <= k < 4 ==> w[k] == 0;
  }

  lemma NumberOfBits(b: seq<int>)
    requires 1 <= |b| <= 4 && AreBytes(b)
    ensures Value(DataBits(b)) == NumberOf(b)
  {
    hide Value, DataBits;
    if |b| == 1 {
      TwoBytes(0, b[0]);
      assert b == [b[0]];
    } else if |b| == 2 {
      TwoBytes(b[0], b[1]);
      assert b == [b[0], b[1]];
    } else if |b| == 3 {
      FourBytes(0, b[0], b[1], b[2]);
      assert b == [b[0], b[1], b[2]];
    } else {
      FourBytes(b[0], b[1], b[2], b[3]);
      assert b == [b[0], b[1], b[2], b[3]];
    }
  }

  /** A big-endian word of one to four bytes, zero-padded, holds their bits. */
  lemma LoadedWord(b: seq<int>)
    requires 1 <= |b| <= 4 && AreBytes(b)
    ensures WordOf(b + seq(4 - |b|, _ => 0)) >= 0
    ensures Holds(WordOf(b + seq(4 - |b|, _ => 0)), DataBits(b))
  {
    hide Pow2, Value, DataBits, WordOf, NumberOf;
    PowBytes();
    PaddedWord(b);
    NumberOfBits(b);
  }

  lemma NoBits()
    ensures Value(DataBits([])) == 0
  {
  }

  lemma {:induction false} DataAppend(a: seq<int>, b: seq<int>)
    ensures DataBits(a + b) == DataBits(a) + DataBits(b)
  {
    hide BitsOf;
    if a == [] {
      assert a + b == b;
    } else {
      assert (a + b)[1..] == a[1..] + b;
      DataAppend(a[1..], b);
    }
  }
}
