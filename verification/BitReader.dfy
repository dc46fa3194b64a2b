/** The Exp-Golomb bit reader: a 32-bit window over a byte array, read as a plain list of bits. */
module BitReader {
  import opened Wrappers
  import opened Bits

  class Reader {
    const data: seq<int>
    var bytesAvailable: nat
    var word: nat
    var bitsAvailable: nat
    ghost var loaded: seq<bit>

    ghost predicate Valid()
      reads this
    {
      && AreBytes(data) && bytesAvailable <= |data|
      && |loaded| == bitsAvailable && Holds(word, loaded)
    }

    /** The bits still to be read. */
    ghost function Rest(): seq<bit>
      reads this
      requires bytesAvailable <= |data|
    {
      loaded + DataBits(data[|data| - bytesAvailable..])
    }

    constructor (data: seq<int>)
      requires AreBytes(data)
      ensures Valid() && Rest() == DataBits(data) && this.data == data
    {
      this.data := data;
      bytesAvailable, word, bitsAvailable, loaded := |data|, 0, 0, [];
      new;
      assert data[|data| - |data|..] == data;
    }

    /** Replaces the window by the next four bytes, or by fewer at the end; fails when there are none. */
    method LoadWord() returns (ok: bool)
      requires AreBytes(data) && bytesAvailable <= |data|
      modifies this
      ensures ok == (old(bytesAvailable) > 0)
      ensures ok ==> Valid() && bitsAvailable >= 8 && bytesAvailable < old(bytesAvailable)
      ensures ok ==> Rest() == DataBits(data[|data| - old(bytesAvailable)..])
      ensures !ok ==> unchanged(this)
    {
      hide DataBits, Holds;
      var r := |data| - bytesAvailable;
      var n := if bytesAvailable < 4 then bytesAvailable else 4;
      if n == 0 {
        return false;
      }
      var i := data[r..r + n] + seq(4 - n, _ => 0);
      LoadedWord(data[r..r + n]);
      DataAppend(data[r..r + n], data[r + n..]);
      assert data[r..] == data[r..r + n] + data[r + n..];
      word := WordOf(i);
      bitsAvailable := 8 * n;
      bytesAvailable := bytesAvailable - n;
      loaded := DataBits(data[r..r + n]);
      ok := true;
    }

    /** Skips bits; fails when that would use up the last one. */
    method SkipBits(count: nat) returns (ok: bool)
      requires Valid()
      modifies this
      ensures ok == (count < |old(Rest())|)
      ensures ok ==> Valid() && Rest() == old(Rest())[count..]
    {
      hide DataBits, Holds;
      ghost var rest := Rest();
      var t := if count < 8 * bytesAvailable + bitsAvailable then count else 8 * bytesAvailable + bitsAvailable;
      if bitsAvailable > t {
        ShiftWindow(t);
        ok := true;
      } else {
        t := t - bitsAvailable;
        var e := t / 8;
        t := t - e * 8;
        ghost var from := |data| - bytesAvailable;
        bytesAvailable := bytesAvailable - e;
        DataAppend(data[from..from + e], data[from + e..]);
        assert data[from..] == data[from..from + e] + data[from + e..];
        ok := LoadWord();
        if ok {
          ShiftWindow(t);
        }
      }
    }

    /** `word <<= e` for fewer bits than the window holds. */
    method ShiftWindow(e: nat)
      requires Valid() && e < bitsAvailable
      modifies this
      ensures Valid() && Rest() == old(Rest())[e..] && bitsAvailable == old(bitsAvailable) - e
      ensures bytesAvailable == old(bytesAvailable) && loaded == old(loaded)[e..]
    {
      hide DataBits, Holds;
      DropTop(word, loaded, e);
      word := word * Pow2(e) % Pow2(32);
      bitsAvailable := bitsAvailable - e;
      loaded := loaded[e..];
    }

    /** Reads bits as a number; fails when that would use up the last bit. Up to 31 bits the number is what they say,
        and 32 bits are read as a signed or an unsigned word. */
    method ReadBits(count: nat) returns (r: Option<int>)
      requires Valid()
      modifies this
      ensures r.Some? <==> count < |old(Rest())|
      ensures r.Some? ==> Valid() && Rest() == old(Rest())[count..]
      ensures r.Some? && 1 <= count <= 31 ==> r.value == Value(old(Rest())[..count])
      ensures r.Some? && count == 32 ==> ToUint32(r.value) == Value(old(Rest())[..count])
      decreases count, if bitsAvailable == 0 then 1 else 0
    {
      hide DataBits, Holds, Pow2, Value, ToUint32, OrShifted;
      ghost var rest, window := Rest(), loaded;
      var e := if bitsAvailable < count then bitsAvailable else count;
      if e > 0 || bitsAvailable == 0 {
        TopBits(word, window, e);
      }
      var v := word / Pow2((32 - e) % 32);
      assert rest[..e] == window[..e];
      if bitsAvailable > e {
        ShiftWindow(e);
      } else {
        if bytesAvailable == 0 {
          return None;
        }
        var ok := LoadWord();
      }
      assert Rest() == rest[e..];
      if count > e && bitsAvailable != 0 {
        var more := ReadBits(count - e);
        if more.None? {
          return None;
        }
        if count <= 32 {
          Joined(rest, e, count, more.value);
        }
        r := Some(OrShifted(v, count - e, more.value));
      } else {
        if count == 32 {
          ValueBound(rest[..32]);
          WordIsUnsigned(v);
        }
        r := Some(v);
      }
    }

    /** Skips the zeros in front of the next one bit and counts them; fails when there is no one bit. */
    method SkipLZ() returns (r: Option<nat>)
      requires Valid()
      modifies this
      ensures r.Some? <==> 1 in old(Rest())
      ensures r.Some? ==> Valid() && r.value < |old(Rest())| && Rest() == old(Rest())[r.value..] && Rest()[0] == 1
      ensures r.Some? ==> 1 !in old(Rest())[..r.value]
      decreases bytesAvailable
    {
      hide DataBits, Holds, Pow2;
      ghost var rest := Rest();
      var t := 0;
      while t < bitsAvailable
        invariant Valid() && 0 <= t <= bitsAvailable && Rest() == rest && bytesAvailable == old(bytesAvailable)
        invariant 1 !in rest[..t]
      {
        OneBit(word, loaded, t);
        if word / Pow2(31 - t) % 2 != 0 {
          assert rest[t] == 1;
          ShiftWindow(t);
          return Some(t);
        }
        assert rest[..t + 1] == rest[..t] + [0];
        t := t + 1;
      }
      assert rest[..t] == loaded && rest == loaded + rest[t..];
      var ok := LoadWord();
      if !ok {
        NoData(data);
        return None;
      }
      assert Rest() == rest[t..];
      var more := SkipLZ();
      if more.None? {
        return None;
      }
      r := Some(t + more.value);
      assert rest[..r.value] == rest[..t] + rest[t..][..more.value];
    }

    /** Reads an unsigned Exp-Golomb number; fails when no codeword with a bit after it is left. A codeword of up to 30
        zeros is read as its number, one of 31 zeros as its number modulo 2^32. */
    method ReadUEG() returns (r: Option<int>)
      requires Valid()
      modifies this
      ensures r.Some? <==> 2 * LeadingZeros(old(Rest())) + 1 < |old(Rest())|
      ensures r.Some? ==> Valid() && Rest() == old(Rest())[2 * LeadingZeros(old(Rest())) + 1..]
      ensures r.Some? && LeadingZeros(old(Rest())) <= 30 ==>
        0 <= r.value < 0x7FFF_FFFF && UeBits(r.value) <= old(Rest()) &&
          |UeBits(r.value)| == 2 * LeadingZeros(old(Rest())) + 1
      ensures r.Some? && LeadingZeros(old(Rest())) == 31 ==>
        exists v: nat :: UeBits(v) <= old(Rest()) && ToUint32(r.value + 1) == v + 1
    {
      hide Holds, DataBits, UeBits, ToUint32;
      ghost var rest := Rest();
      LeadingZerosIs(rest);
      var t := SkipLZ();
      if t.None? {
        return None;
      }
      FirstOneIs(rest, t.value);
      var v := ReadBits(t.value + 1);
      if v.None? {
        return None;
      }
      Codeword(rest, t.value);
      assert rest[t.value..][t.value + 1..] == rest[2 * t.value + 1..];
      CodewordBound(rest[t.value..][..t.value + 1]);
      r := Some(v.value - 1);
    }

    /** Skips an Exp-Golomb number, signed or unsigned. */
    method SkipUEG() returns (ok: bool)
      requires Valid()
      modifies this
      ensures ok == (2 * LeadingZeros(old(Rest())) + 1 < |old(Rest())|)
      ensures ok ==> Valid() && Rest() == old(Rest())[2 * LeadingZeros(old(Rest())) + 1..]
    {
      hide Holds, DataBits;
      ghost var rest := Rest();
      LeadingZerosIs(rest);
      var t := SkipLZ();
      if t.None? {
        return false;
      }
      FirstOneIs(rest, t.value);
      ok := SkipBits(1 + t.value);
      if ok {
        assert rest[t.value..][1 + t.value..] == rest[2 * t.value + 1..];
      }
    }

    /** Reads a signed Exp-Golomb number. */
    method ReadEG() returns (r: Option<int>)
      requires Valid()
      modifies this
      ensures r.Some? <==> 2 * LeadingZeros(old(Rest())) + 1 < |old(Rest())|
      ensures r.Some? ==> Valid() && Rest() == old(Rest())[2 * LeadingZeros(old(Rest())) + 1..]
      ensures r.Some? && LeadingZeros(old(Rest())) <= 30 ==> SeBits(r.value) <= old(Rest())
    {
      hide Holds, DataBits, UeBits;
      var t := ReadUEG();
      if t.None? {
        return None;
      }
      var k := t.value;
      r := Some(if ToUint32(k) % 2 == 1 then ToUint32(1 + k) / 2 else -1 * (ToUint32(k) / 2));
    }
  }

  // ---------- 32-bit words ----------

  function ToUint32(x: int): nat { x % 0x1_0000_0000 }

  function Or(x: nat, y: nat): nat
    decreases x + y
  {
    if x == 0 && y == 0 then 0 else 2 * Or(x / 2, y / 2) + if x % 2 == 1 || y % 2 == 1 then 1 else 0
  }

  /** `v << k | more`: the shift count is taken modulo 32, and the result is a signed word. */
  function OrShifted(v: nat, k: nat, more: int): int {
    var w := Or(ToUint32(v * Pow2(k % 32)), ToUint32(more));
    if w >= 0x8000_0000 then w - 0x1_0000_0000 else w
  }

  lemma {:induction false} OrZero(x: nat)
    ensures Or(x, 0) == x && Or(0, x) == x
  {
    if x == 0 {
    } else {
      OrZero(x / 2);
    }
  }

  lemma {:induction false} OrDisjoint(a: nat, k: nat, y: nat)
    requires y < Pow2(k)
    ensures Or(a * Pow2(k), y) == a * Pow2(k) + y
    decreases k
  {
    if k == 0 {
      OrZero(a);
    } else {
      OrDisjoint(a, k - 1, y / 2);
      Twice(a, Pow2(k - 1));
      var x := a * Pow2(k - 1);
      assert 2 * x / 2 == x && 2 * x % 2 == 0;
      if x == 0 && y == 0 {
      } else {
        assert Or(2 * x, y) == 2 * Or(x, y / 2) + if y % 2 == 1 then 1 else 0;
      }
    }
  }

  lemma WordIsUnsigned(v: nat)
    requires v < Pow2(32)
    ensures ToUint32(v) == v
  {
    Pow32();
  }

  lemma Pow32()
    ensures Pow2(32) == 0x1_0000_0000 && Pow2(31) == 0x8000_0000
  {
    PowBytes();
    PowAdd(16, 16);
    PowAdd(1, 31);
    PowOne();
  }

  lemma {:induction false} PowGrows(m: nat, n: nat)
    requires m <= n
    ensures Pow2(m) <= Pow2(n)
    decreases n
  {
    if m < n {
      PowGrows(m, n - 1);
    }
  }

  lemma ShiftJoins(v: nat, k: nat, m: nat)
    requires k <= 31 && m < Pow2(k) && v * Pow2(k) + m < 0x1_0000_0000
    ensures ToUint32(OrShifted(v, k, m)) == v * Pow2(k) + m
    ensures v * Pow2(k) + m < 0x8000_0000 ==> OrShifted(v, k, m) == v * Pow2(k) + m
  {
    hide Pow2, Or;
    OrDisjoint(v, k, m);
    WordAgain(v * Pow2(k));
    WordAgain(m);
    WordAgain(v * Pow2(k) + m);
  }

  lemma ShiftByWord(m: int)
    ensures ToUint32(OrShifted(0, 32, m)) == ToUint32(m)
  {
    hide Or;
    assert Pow2(0) == 1;
    OrZero(ToUint32(m));
    WordAgain(ToUint32(m));
  }

  /** Joining what the window gives with what is read after it. */
  lemma Joined(rest: seq<bit>, e: nat, count: nat, more: int)
    requires e < count <= 32 && count <= |rest|
    requires count - e <= 31 ==> more == Value(rest[e..][..count - e])
    requires count - e == 32 ==> ToUint32(more) == Value(rest[e..][..32])
    ensures count <= 31 ==> OrShifted(Value(rest[..e]), count - e, more) == Value(rest[..count])
    ensures count == 32 ==> ToUint32(OrShifted(Value(rest[..e]), count - e, more)) == Value(rest[..count])
  {
    hide Pow2, Value, OrShifted, ToUint32;
    if count - e == 32 {
      assert rest[..0] == [] && rest[0..] == rest;
      NoValue();
      ShiftByWord(more);
    } else {
      SplitValue(rest, e, count);
      ValueBound(rest[..count]);
      ValueBound(rest[e..][..count - e]);
      Pow32();
      PowGrows(count, if count <= 31 then 31 else 32);
      ShiftJoins(Value(rest[..e]), count - e, more);
    }
  }

  lemma WordAgain(w: nat)
    requires w < 0x1_0000_0000
    ensures ToUint32(w) == w && ToUint32(if w >= 0x8000_0000 then w - 0x1_0000_0000 else w) == w
  {
  }

  lemma CodewordBound(bits: seq<bit>)
    ensures |bits| <= 31 ==> Value(bits) <= 0x7FFF_FFFF
  {
    hide Pow2, Value;
    ValueBound(bits);
    Pow32();
    if |bits| <= 31 {
      PowGrows(|bits|, 31);
    }
  }

  // ---------- Exp-Golomb codes (section 9.1 of ITU-T H.264) ----------

  ghost function LeadingZeros(bits: seq<bit>): (z: nat)
    ensures z <= |bits|
  {
    if bits == [] || bits[0] == 1 then 0 else 1 + LeadingZeros(bits[1..])
  }

  lemma {:induction false} LeadingZerosIs(bits: seq<bit>)
    ensures 1 !in bits[..LeadingZeros(bits)]
    ensures LeadingZeros(bits) < |bits| <==> 1 in bits
    ensures LeadingZeros(bits) < |bits| ==> bits[LeadingZeros(bits)] == 1
  {
    if bits != [] && bits[0] == 0 {
      LeadingZerosIs(bits[1..]);
      var z := LeadingZeros(bits[1..]);
      assert bits[..z + 1] == [0] + bits[1..][..z];
      assert bits == [0] + bits[1..];
    }
  }

  lemma {:induction false} FirstOneIs(bits: seq<bit>, t: nat)
    requires t < |bits| && 1 !in bits[..t] && bits[t] == 1
    ensures LeadingZeros(bits) == t
  {
    if t == 0 {
    } else {
      assert bits[..t] == [bits[0]] + bits[1..][..t - 1];
      FirstOneIs(bits[1..], t - 1);
    }
  }

  /** The integer part of the base-two logarithm. */
  ghost function Log2(x: nat): nat
    requires x > 0
  {
    if x == 1 then 0 else 1 + Log2(x / 2)
  }

  /** The codeword of ue(v): as many zeros as the number plus one has bits after its first, then those bits. */
  ghost function UeBits(v: nat): seq<bit> { seq(Log2(v + 1), _ => 0) + BitsOf(v + 1, Log2(v + 1) + 1) }

  /** The codeword of se(v), by the mapping of section 9.1.1. */
  ghost function SeBits(v: int): seq<bit> { UeBits(SeCode(v)) }

  ghost function SeCode(v: int): nat { if v > 0 then 2 * v - 1 else 2 * -v }

  lemma {:induction false} BitsOfValue(bits: seq<bit>)
    ensures BitsOf(Value(bits), |bits|) == bits
  {
    if bits == [] {
    } else {
      BitsOfValue(bits[..|bits| - 1]);
      assert bits == bits[..|bits| - 1] + [bits[|bits| - 1]];
    }
  }

  lemma {:induction false} TopBitLog(bits: seq<bit>)
    requires bits != [] && bits[0] == 1
    ensures Value(bits) > 0 && Log2(Value(bits)) == |bits| - 1
  {
    if |bits| == 1 {
      assert bits[..0] == [];
    } else {
      TopBitLog(bits[..|bits| - 1]);
    }
  }

  /** Zeros, a one, and as many bits again: a codeword. */
  lemma Codeword(rest: seq<bit>, t: nat)
    requires 2 * t + 1 <= |rest| && 1 !in rest[..t] && rest[t] == 1
    ensures Value(rest[t..][..t + 1]) > 0 && UeBits(Value(rest[t..][..t + 1]) - 1) == rest[..2 * t + 1]
  {
    hide BitsOf, Value, Log2;
    var b := rest[t..][..t + 1];
    TopBitLog(b);
    BitsOfValue(b);
    forall i | 0 <= i < t ensures rest[i] == 0 {
      assert rest[..t][i] != 1;
    }
    assert rest[..2 * t + 1] == seq(t, _ => 0) + b;
  }

  /** A codeword starts with exactly as many zeros as its logarithm. */
  lemma CodewordShape(v: nat, tail: seq<bit>)
    ensures |UeBits(v)| == 2 * Log2(v + 1) + 1 && LeadingZeros(UeBits(v) + tail) == Log2(v + 1)
  {
    hide BitsOf;
    var l := Log2(v + 1);
    FirstBitOf(v + 1);
    var bits := UeBits(v) + tail;
    assert bits[l] == BitsOf(v + 1, l + 1)[0];
    FirstOneIs(bits, l);
  }

  lemma {:induction false} FirstBitOf(x: nat)
    requires x > 0
    ensures BitsOf(x, Log2(x) + 1)[0] == 1
  {
    if x > 1 {
      FirstBitOf(x / 2);
    }
  }

  lemma {:induction false} LogBound(x: nat, n: nat)
    requires 0 < x < Pow2(n)
    ensures Log2(x) < n
  {
    if x > 1 {
      LogBound(x / 2, n - 1);
    }
  }

  lemma {:induction false} LogPower(x: nat)
    requires x > 0
    ensures x < Pow2(Log2(x) + 1)
  {
    if x > 1 {
      LogPower(x / 2);
    }
  }

  /** Every unsigned codeword whose number fits in 31 bits is in the readers' reach, and no other codeword is there. */
  lemma UeDecodes(v: nat, tail: seq<bit>, w: nat)
    requires v + 1 < Pow2(31) && tail != []
    ensures LeadingZeros(UeBits(v) + tail) <= 30
    ensures 2 * LeadingZeros(UeBits(v) + tail) + 1 < |UeBits(v) + tail|
    ensures UeBits(w) <= UeBits(v) + tail ==> w == v
  {
    hide UeBits, Pow2;
    CodewordShape(v, tail);
    LogBound(v + 1, 31);
    var bits := UeBits(v) + tail;
    if UeBits(w) <= bits {
      assert bits == UeBits(w) + bits[|UeBits(w)|..];
      CodewordShape(w, bits[|UeBits(w)|..]);
      assert UeBits(w) == bits[..|UeBits(w)|] == UeBits(v);
      CodewordValue(v);
      CodewordValue(w);
    }
  }

  lemma CodewordValue(v: nat)
    ensures Value(UeBits(v)[Log2(v + 1)..]) == v + 1
  {
    hide BitsOf, Value, Pow2;
    LogPower(v + 1);
    ValueBitsOf(v + 1, Log2(v + 1) + 1);
    assert UeBits(v)[Log2(v + 1)..] == BitsOf(v + 1, Log2(v + 1) + 1);
  }

  /** The first codewords, as tables 9-2 and 9-3 of ITU-T H.264 give them. */
  lemma FirstCodewords()
    ensures UeBits(0) == [1] && UeBits(1) == [0, 1, 0] && UeBits(2) == [0, 1, 1]
    ensures UeBits(3) == [0, 0, 1, 0, 0] && UeBits(4) == [0, 0, 1, 0, 1]
    ensures SeBits(0) == [1] && SeBits(1) == [0, 1, 0] && SeBits(-1) == [0, 1, 1]
    ensures SeBits(2) == [0, 0, 1, 0, 0] && SeBits(-2) == [0, 0, 1, 0, 1]
  {
    assert Log2(1) == 0 && Log2(2) == 1 && Log2(3) == 1 && Log2(4) == 2 && Log2(5) == 2;
    assert BitsOf(1, 1) == [1] && BitsOf(2, 2) == [1, 0] && BitsOf(3, 2) == [1, 1];
    assert BitsOf(4, 3) == [1, 0, 0] && BitsOf(5, 3) == [1, 0, 1];
  }

  /** The same for signed codewords. */
  lemma SeDecodes(v: int, tail: seq<bit>, w: int)
    requires -(Pow2(30) as int) < v < Pow2(30) && tail != []
    ensures LeadingZeros(SeBits(v) + tail) <= 30
    ensures 2 * LeadingZeros(SeBits(v) + tail) + 1 < |SeBits(v) + tail|
    ensures SeBits(w) <= SeBits(v) + tail ==> w == v
  {
    hide UeBits, Pow2;
    assert Pow2(31) == 2 * Pow2(30) by { PowAdd(1, 30); assert Pow2(1) == 2 by { PowOne(); } }
    UeDecodes(SeCode(v), tail, SeCode(w));
  }

  lemma PowOne()
    ensures Pow2(1) == 2
  {
  }

  lemma NoData(data: seq<int>)
    ensures DataBits(data[|data| - 0..]) == []
  {
  }

  /** Taking the top bits of the window, the shift count being modulo 32. */
  lemma TopBits(word: nat, bits: seq<bit>, e: nat)
    requires Holds(word, bits) && e <= |bits| && (e == 0 ==> bits == [])
    ensures word / Pow2((32 - e) % 32) == Value(bits[..e])
  {
    hide Value, Pow2;
    FitsWord(word, bits);
    NoValue();
    if e == 0 {
      assert bits[..e] == [];
      AllShifted(word, bits);
    } else {
      TakeTop(word, bits, e);
    }
  }

  lemma NoValue()
    ensures Value([]) == 0 && Pow2(0) == 1
  {
  }

  lemma FitsWord(word: nat, bits: seq<bit>)
    requires Holds(word, bits)
    ensures |bits| <= 32
  {
  }

  lemma AllShifted(word: nat, bits: seq<bit>)
    requires Holds(word, bits) && bits == []
    ensures word == 0
  {
  }

  lemma LastBit(bits: seq<bit>)
    requires bits != []
    ensures Value(bits) % 2 == bits[|bits| - 1]
  {
  }

  lemma SplitValue(rest: seq<bit>, e: nat, count: nat)
    requires e <= count <= |rest|
    ensures Value(rest[..count]) == Value(rest[..e]) * Pow2(count - e) + Value(rest[e..][..count - e])
  {
    ValueAppend(rest[..e], rest[e..][..count - e]);
    assert rest[..count] == rest[..e] + rest[e..][..count - e];
  }

  lemma OneBit(word: nat, bits: seq<bit>, t: nat)
    requires Holds(word, bits) && t < |bits|
    ensures t <= 31 && word / Pow2(31 - t) % 2 == bits[t]
  {
    hide Pow2, Value, Holds;
    FitsWord(word, bits);
    TakeTop(word, bits, t + 1);
    LastBit(bits[..t + 1]);
  }
}
