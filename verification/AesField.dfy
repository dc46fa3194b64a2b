/** The byte field of AES and its column mixing (FIPS 197, sections 4 and 5). */
module AesField {

  // ---------- addition in characteristic 2, section 4.1 ----------

  function Add8(a: bv8, b: bv8): bv8 { a ^ b }

  function Add(v: bv32, w: bv32): bv32 { v ^ w }

  function Sum4(a: bv32, b: bv32, c: bv32, d: bv32): bv32 { Add(Add(Add(a, b), c), d) }

  lemma AddTwice(v: bv32, w: bv32)
    ensures Add(Add(v, w), w) == v
  {
  }

  lemma Add8Laws(a: bv8, b: bv8, c: bv8)
    ensures Add8(a, b) == Add8(b, a) && Add8(Add8(a, b), c) == Add8(a, Add8(b, c))
  {
  }

  lemma AddLaws(a: bv32, b: bv32, c: bv32)
    ensures Add(a, b) == Add(b, a) && Add(Add(a, b), c) == Add(a, Add(b, c))
  {
  }

  lemma SwapPairs(a: bv8, b: bv8, p: bv8, q: bv8)
    ensures Add8(Add8(a, b), Add8(p, q)) == Add8(Add8(a, p), Add8(b, q))
  {
    hide Add8;
    Add8Laws(a, b, Add8(p, q));
    Add8Laws(b, p, q);
    Add8Laws(p, b, q);
    Add8Laws(a, p, Add8(b, q));
  }

  lemma SwapWordPairs(a: bv32, b: bv32, p: bv32, q: bv32)
    ensures Add(Add(a, b), Add(p, q)) == Add(Add(a, p), Add(b, q))
  {
    hide Add;
    AddLaws(a, b, Add(p, q));
    AddLaws(b, p, q);
    AddLaws(p, b, q);
    AddLaws(a, p, Add(b, q));
  }

  // ---------- bytes and words ----------

  function Row0(w: bv32): bv8 { (w >> 24) as bv8 }

  function Row1(w: bv32): bv8 { ((w >> 16) & 0xFF) as bv8 }

  function Row2(w: bv32): bv8 { ((w >> 8) & 0xFF) as bv8 }

  function Row3(w: bv32): bv8 { (w & 0xFF) as bv8 }

  function Pack(a: bv8, b: bv8, c: bv8, d: bv8): bv32 {
    ((a as bv32) << 24) | ((b as bv32) << 16) | ((c as bv32) << 8) | (d as bv32)
  }

  lemma PackRows(a: bv8, b: bv8, c: bv8, d: bv8)
    ensures Row0(Pack(a, b, c, d)) == a && Row1(Pack(a, b, c, d)) == b
    ensures Row2(Pack(a, b, c, d)) == c && Row3(Pack(a, b, c, d)) == d
  {
  }

  lemma RowsPack(w: bv32)
    ensures Pack(Row0(w), Row1(w), Row2(w), Row3(w)) == w
  {
  }

  lemma RowsXor(v: bv32, w: bv32)
    ensures Row0(v ^ w) == Row0(v) ^ Row0(w) && Row1(v ^ w) == Row1(v) ^ Row1(w)
    ensures Row2(v ^ w) == Row2(v) ^ Row2(w) && Row3(v ^ w) == Row3(v) ^ Row3(w)
  {
  }

  lemma RowsAdd(v: bv32, w: bv32)
    ensures Row0(Add(v, w)) == Add8(Row0(v), Row0(w)) && Row1(Add(v, w)) == Add8(Row1(v), Row1(w))
    ensures Row2(Add(v, w)) == Add8(Row2(v), Row2(w)) && Row3(Add(v, w)) == Add8(Row3(v), Row3(w))
  {
    hide Row0, Row1, Row2, Row3;
    RowsXor(v, w);
  }

  lemma PackSplit(a: bv8, b: bv8, c: bv8, d: bv8)
    ensures Sum4(Pack(a, 0, 0, 0), Pack(0, b, 0, 0), Pack(0, 0, c, 0), Pack(0, 0, 0, d)) == Pack(a, b, c, d)
  {
  }

  lemma PackAdd(a: bv8, b: bv8, c: bv8, d: bv8, e: bv8, f: bv8, g: bv8, h: bv8)
    ensures Pack(Add8(a, e), Add8(b, f), Add8(c, g), Add8(d, h)) == Add(Pack(a, b, c, d), Pack(e, f, g, h))
  {
  }

  // ---------- the field GF(2^8), section 4.2 ----------

  /** xtime: multiplication by x modulo x^8 + x^4 + x^3 + x + 1. */
  function Double(b: bv8): bv8 { (b << 1) ^ (((b >> 7) & 1) * 0x1b) }

  function Times9(b: bv8): bv8 { Add8(Double(Double(Double(b))), b) }

  function Times11(b: bv8): bv8 { Add8(Times9(b), Double(b)) }

  function Times13(b: bv8): bv8 { Add8(Times9(b), Double(Double(b))) }

  function Times14(b: bv8): bv8 { Add8(Add8(Double(Double(Double(b))), Double(Double(b))), Double(b)) }

  lemma DoubleAdd(a: bv8, b: bv8)
    ensures Double(Add8(a, b)) == Add8(Double(a), Double(b))
  {
  }

  lemma TimesAdd(a: bv8, b: bv8)
    ensures Times9(Add8(a, b)) == Add8(Times9(a), Times9(b))
    ensures Times11(Add8(a, b)) == Add8(Times11(a), Times11(b))
    ensures Times13(Add8(a, b)) == Add8(Times13(a), Times13(b))
    ensures Times14(Add8(a, b)) == Add8(Times14(a), Times14(b))
  {
    hide Double, Add8;
    var a2, b2 := Double(a), Double(b);
    var a4, b4 := Double(a2), Double(b2);
    var a8, b8 := Double(a4), Double(b4);
    DoubleAdd(a, b);
    DoubleAdd(a2, b2);
    DoubleAdd(a4, b4);
    SwapPairs(a8, b8, a, b);
    SwapPairs(Times9(a), Times9(b), a2, b2);
    SwapPairs(Times9(a), Times9(b), a4, b4);
    SwapPairs(a8, b8, a4, b4);
    SwapPairs(Add8(a8, a4), Add8(b8, b4), a2, b2);
  }

  // ---------- MixColumns and its inverse, sections 5.1.3 and 5.3.3 ----------

  // What one byte of a column contributes to the mixed column.
  function Mix0(a: bv8): bv32 { Pack(Double(a), a, a, Add8(Double(a), a)) }

  function Mix1(b: bv8): bv32 { Pack(Add8(Double(b), b), Double(b), b, b) }

  function Mix2(c: bv8): bv32 { Pack(c, Add8(Double(c), c), Double(c), c) }

  function Mix3(d: bv8): bv32 { Pack(d, d, Add8(Double(d), d), Double(d)) }

  function MixColumn(w: bv32): bv32 {
    Sum4(Mix0(Row0(w)), Mix1(Row1(w)), Mix2(Row2(w)), Mix3(Row3(w)))
  }

  function InvMix0(a: bv8): bv32 { Pack(Times14(a), Times9(a), Times13(a), Times11(a)) }

  function InvMix1(b: bv8): bv32 { Pack(Times11(b), Times14(b), Times9(b), Times13(b)) }

  function InvMix2(c: bv8): bv32 { Pack(Times13(c), Times11(c), Times14(c), Times9(c)) }

  function InvMix3(d: bv8): bv32 { Pack(Times9(d), Times13(d), Times11(d), Times14(d)) }

  function InvMixColumn(w: bv32): bv32 {
    Sum4(InvMix0(Row0(w)), InvMix1(Row1(w)), InvMix2(Row2(w)), InvMix3(Row3(w)))
  }

  lemma InvMixByteAdd(a: bv8, b: bv8)
    ensures InvMix0(Add8(a, b)) == Add(InvMix0(a), InvMix0(b))
    ensures InvMix1(Add8(a, b)) == Add(InvMix1(a), InvMix1(b))
    ensures InvMix2(Add8(a, b)) == Add(InvMix2(a), InvMix2(b))
    ensures InvMix3(Add8(a, b)) == Add(InvMix3(a), InvMix3(b))
  {
    hide Pack, Times9, Times11, Times13, Times14, Add8, Add;
    TimesAdd(a, b);
    var n, e, t, f := Times9(a), Times11(a), Times13(a), Times14(a);
    var n', e', t', f' := Times9(b), Times11(b), Times13(b), Times14(b);
    PackAdd(f, n, t, e, f', n', t', e');
    PackAdd(e, f, n, t, e', f', n', t');
    PackAdd(t, e, f, n, t', e', f', n');
    PackAdd(n, t, e, f, n', t', e', f');
  }

  lemma Sum4Add(a: bv32, b: bv32, c: bv32, d: bv32, a': bv32, b': bv32, c': bv32, d': bv32)
    ensures Sum4(Add(a, a'), Add(b, b'), Add(c, c'), Add(d, d')) == Add(Sum4(a, b, c, d), Sum4(a', b', c', d'))
  {
    hide Add;
    SwapWordPairs(a, a', b, b');
    SwapWordPairs(Add(a, b), Add(a', b'), c, c');
    SwapWordPairs(Add(Add(a, b), c), Add(Add(a', b'), c'), d, d');
  }

  /** InvMixColumns is linear, the fact behind the Equivalent Inverse Cipher (section 5.3.5). */
  lemma InvMixColumnAdd(v: bv32, w: bv32)
    ensures InvMixColumn(Add(v, w)) == Add(InvMixColumn(v), InvMixColumn(w))
  {
    hide Row0, Row1, Row2, Row3, InvMix0, InvMix1, InvMix2, InvMix3, Add, Add8, Sum4;
    RowsAdd(v, w);
    InvMixByteAdd(Row0(v), Row0(w));
    InvMixByteAdd(Row1(v), Row1(w));
    InvMixByteAdd(Row2(v), Row2(w));
    InvMixByteAdd(Row3(v), Row3(w));
    Sum4Add(InvMix0(Row0(v)), InvMix1(Row1(v)), InvMix2(Row2(v)), InvMix3(Row3(v)),
            InvMix0(Row0(w)), InvMix1(Row1(w)), InvMix2(Row2(w)), InvMix3(Row3(w)));
  }

  lemma InvMixColumnSum4(a: bv32, b: bv32, c: bv32, d: bv32)
    ensures InvMixColumn(Sum4(a, b, c, d)) == Sum4(InvMixColumn(a), InvMixColumn(b), InvMixColumn(c), InvMixColumn(d))
  {
    hide Add, InvMixColumn;
    InvMixColumnAdd(a, b);
    InvMixColumnAdd(Add(a, b), c);
    InvMixColumnAdd(Add(Add(a, b), c), d);
  }

  function Bytes4(a: bv8, b: bv8, c: bv8, d: bv8): bv8 { Add8(Add8(Add8(a, b), c), d) }

  lemma PackSum4(a: bv8, b: bv8, c: bv8, d: bv8, e: bv8, f: bv8, g: bv8, h: bv8,
                 i: bv8, j: bv8, k: bv8, l: bv8, m: bv8, n: bv8, o: bv8, p: bv8)
    ensures Sum4(Pack(a, b, c, d), Pack(e, f, g, h), Pack(i, j, k, l), Pack(m, n, o, p))
         == Pack(Bytes4(a, e, i, m), Bytes4(b, f, j, n), Bytes4(c, g, k, o), Bytes4(d, h, l, p))
  {
    hide Pack, Add8, Add;
    PackAdd(a, b, c, d, e, f, g, h);
    PackAdd(Add8(a, e), Add8(b, f), Add8(c, g), Add8(d, h), i, j, k, l);
    PackAdd(Add8(Add8(a, e), i), Add8(Add8(b, f), j), Add8(Add8(c, g), k), Add8(Add8(d, h), l), m, n, o, p);
  }

  /** What stands twice in a sum goes. */
  lemma Cancel(x: bv8, y: bv8, z: bv8)
    ensures Add8(Add8(x, y), Add8(y, z)) == Add8(x, z)
    ensures Add8(Add8(y, x), Add8(y, z)) == Add8(x, z)
    ensures Add8(Add8(x, y), Add8(z, y)) == Add8(x, z)
  {
  }

  lemma CancelOne(x: bv8, y: bv8)
    ensures Add8(Add8(x, y), y) == x && Add8(y, Add8(y, x)) == x && Add8(x, x) == 0
  {
  }

  // The rows of the coefficient matrices of MixColumns and InvMixColumns multiply to the unit matrix: with the
  // multiplications spelled out in a, b = 2a, c = 4a, d = 8a, e = 16a, everything else stands twice.
  lemma Coefficient0(a: bv8)
    ensures Bytes4(Times14(Double(a)), Times11(a), Times13(a), Times9(Add8(Double(a), a))) == a
  {
    hide Double, Add8;
    var b := Double(a);
    TimesAdd(b, a);
    var c, d := Double(b), Double(Double(b));
    var e := Double(d);
    var p, q, x := Add8(d, a), Add8(e, b), Add8(e, d);
    Add8Laws(Add8(x, c), Add8(p, b), Add8(p, c));
    Cancel(b, p, c);
    Cancel(x, c, b);
    SwapPairs(x, b, q, p);
    Cancel(d, e, b);
    Cancel(d, b, p);
    CancelOne(a, d);
  }

  lemma Coefficient1(a: bv8)
    ensures Bytes4(Times9(Double(a)), Times14(a), Times11(a), Times13(Add8(Double(a), a))) == 0
  {
    hide Double, Add8;
    var b := Double(a);
    TimesAdd(b, a);
    var c, d := Double(b), Double(Double(b));
    var p, q, m := Add8(d, a), Add8(Double(d), b), Add8(d, c);
    Add8Laws(q, m, b);
    Cancel(Add8(q, m), b, p);
    SwapPairs(q, d, p, c);
    Add8Laws(q, m, p);
    Add8Laws(q, p, m);
    Add8Laws(m, p, q);
    CancelOne(Add8(Add8(q, m), p), b);
  }

  lemma Coefficient2(a: bv8)
    ensures Bytes4(Times13(Double(a)), Times9(a), Times14(a), Times11(Add8(Double(a), a))) == 0
  {
    hide Double, Add8;
    var b := Double(a);
    TimesAdd(b, a);
    var c, d := Double(b), Double(Double(b));
    var p, q := Add8(d, a), Add8(Double(d), b);
    SwapPairs(Add8(q, d), p, Add8(d, c), b);
    Cancel(q, d, c);
    CancelOne(Add8(Add8(q, c), Add8(p, b)), b);
  }

  lemma Coefficient3(a: bv8)
    ensures Bytes4(Times11(Double(a)), Times13(a), Times9(a), Times14(Add8(Double(a), a))) == 0
  {
    hide Double, Add8;
    var b := Double(a);
    TimesAdd(b, a);
    var c, d := Double(b), Double(Double(b));
    var e := Double(d);
    var p, q, m := Add8(d, a), Add8(e, b), Add8(d, c);
    Cancel(q, c, p);
    CancelOne(q, p);
    Add8Laws(e, d, c);
    Cancel(e, m, b);
  }

  lemma Rotate(a: bv8, b: bv8, c: bv8, d: bv8)
    ensures Bytes4(d, a, b, c) == Bytes4(c, d, a, b) == Bytes4(b, c, d, a) == Bytes4(a, b, c, d)
  {
    hide Add8;
    Add8Laws(a, b, c);
    Add8Laws(a, Add8(b, c), d);
    Add8Laws(d, Add8(Add8(a, b), c), 0);
    Add8Laws(d, Add8(a, b), c);
    Add8Laws(d, a, b);
    Add8Laws(c, d, Add8(a, b));
    Add8Laws(Add8(c, d), a, b);
    Add8Laws(Add8(a, b), c, d);
    Add8Laws(Add8(c, d), Add8(a, b), 0);
    Add8Laws(Add8(Add8(b, c), d), a, 0);
  }

  lemma InvMixOfMixByte(a: bv8)
    ensures InvMixColumn(Mix0(a)) == Pack(a, 0, 0, 0)
    ensures InvMixColumn(Mix1(a)) == Pack(0, a, 0, 0)
    ensures InvMixColumn(Mix2(a)) == Pack(0, 0, a, 0)
    ensures InvMixColumn(Mix3(a)) == Pack(0, 0, 0, a)
  {
    hide Row0, Row1, Row2, Row3, Pack, Double, Times9, Times11, Times13, Times14, Add8, Add, Sum4, Bytes4;
    var b, c := Double(a), Add8(Double(a), a);
    PackRows(b, a, a, c);
    PackRows(c, b, a, a);
    PackRows(a, c, b, a);
    PackRows(a, a, c, b);
    Coefficient0(a);
    Coefficient1(a);
    Coefficient2(a);
    Coefficient3(a);
    Rotate(Times14(b), Times11(a), Times13(a), Times9(c));
    Rotate(Times9(b), Times14(a), Times11(a), Times13(c));
    Rotate(Times13(b), Times9(a), Times14(a), Times11(c));
    Rotate(Times11(b), Times13(a), Times9(a), Times14(c));
    Mixed(b, a, a, c);
    Mixed(c, b, a, a);
    Mixed(a, c, b, a);
    Mixed(a, a, c, b);
  }

  lemma Mixed(a: bv8, b: bv8, c: bv8, d: bv8)
    ensures Sum4(InvMix0(a), InvMix1(b), InvMix2(c), InvMix3(d))
         == Pack(Bytes4(Times14(a), Times11(b), Times13(c), Times9(d)),
                 Bytes4(Times9(a), Times14(b), Times11(c), Times13(d)),
                 Bytes4(Times13(a), Times9(b), Times14(c), Times11(d)),
                 Bytes4(Times11(a), Times13(b), Times9(c), Times14(d)))
  {
    hide Pack, Times9, Times11, Times13, Times14, Sum4, Bytes4;
    PackSum4(Times14(a), Times9(a), Times13(a), Times11(a), Times11(b), Times14(b), Times9(b), Times13(b),
             Times13(c), Times11(c), Times14(c), Times9(c), Times9(d), Times13(d), Times11(d), Times14(d));
  }

  lemma InvMixMix(w: bv32)
    ensures InvMixColumn(MixColumn(w)) == w
  {
    hide Row0, Row1, Row2, Row3, InvMixColumn, Pack, Mix0, Mix1, Mix2, Mix3, Sum4;
    var a, b, c, d := Row0(w), Row1(w), Row2(w), Row3(w);
    InvMixOfMixByte(a);
    InvMixOfMixByte(b);
    InvMixOfMixByte(c);
    InvMixOfMixByte(d);
    InvMixColumnSum4(Mix0(a), Mix1(b), Mix2(c), Mix3(d));
    PackSplit(a, b, c, d);
    RowsPack(w);
  }

}
