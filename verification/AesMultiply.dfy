/** Multiplication in the byte field of AES (FIPS 197, section 4.2). */
module AesMultiply {
  import opened AesField

  function Pick(bit: bool, a: bv8): bv8 { if bit then a else 0 }

  function Mask(i: nat): bv8
    requires i < 8
  {
    if i == 0 then 1 else if i == 1 then 2 else if i == 2 then 4 else if i == 3 then 8
    else if i == 4 then 16 else if i == 5 then 32 else if i == 6 then 64 else 128
  }

  /** The coefficient of x^i. */
  predicate Bit(b: bv8, i: nat)
    requires i < 8
  {
    b & Mask(i) != 0
  }

  /** The sum of a, a*x, a*x^2, ... where the coefficients of b from x^i on say so. */
  function MulFrom(a: bv8, b: bv8, i: nat): bv8
    requires i <= 8
    decreases 8 - i
  {
    if i == 8 then 0 else Add8(Pick(Bit(b, i), a), MulFrom(Double(a), b, i + 1))
  }

  function Mul(a: bv8, b: bv8): bv8 { MulFrom(a, b, 0) }

  lemma AddZero(a: bv8)
    ensures Add8(a, 0) == a && Add8(0, a) == a && Add8(a, a) == 0
  {
  }

  lemma PickLaws(bit: bool, a: bv8, b: bv8)
    ensures Double(Pick(bit, a)) == Pick(bit, Double(a)) && Pick(bit, Add8(a, b)) == Add8(Pick(bit, a), Pick(bit, b))
  {
  }

  lemma PickXor(x: bool, y: bool, a: bv8)
    ensures Pick(x != y, a) == Add8(Pick(x, a), Pick(y, a))
  {
  }

  lemma DoubleZero()
    ensures Double(0) == 0
  {
  }

  // ---------- multiplication distributes, and passes multiplication by x ----------

  lemma {:induction false} DoubleLeft(a: bv8, b: bv8, i: nat)
    requires i <= 8
    ensures MulFrom(Double(a), b, i) == Double(MulFrom(a, b, i))
    decreases 8 - i
  {
    hide Double, Add8, Pick, Bit;
    if i == 8 {
      DoubleZero();
    } else {
      DoubleLeft(Double(a), b, i + 1);
      PickLaws(Bit(b, i), a, a);
      DoubleAdd(Pick(Bit(b, i), a), MulFrom(Double(a), b, i + 1));
    }
  }

  lemma {:induction false} AddLeft(a: bv8, c: bv8, b: bv8, i: nat)
    requires i <= 8
    ensures MulFrom(Add8(a, c), b, i) == Add8(MulFrom(a, b, i), MulFrom(c, b, i))
    decreases 8 - i
  {
    hide Double, Add8, Pick, Bit;
    if i == 8 {
      AddZero(0);
    } else {
      DoubleAdd(a, c);
      AddLeft(Double(a), Double(c), b, i + 1);
      PickLaws(Bit(b, i), a, c);
      SwapPairs(Pick(Bit(b, i), a), Pick(Bit(b, i), c), MulFrom(Double(a), b, i + 1), MulFrom(Double(c), b, i + 1));
    }
  }

  lemma BitAdd(b: bv8, c: bv8, i: nat)
    requires i < 8
    ensures Bit(Add8(b, c), i) == (Bit(b, i) != Bit(c, i))
  {
  }

  lemma {:induction false} AddRight(a: bv8, b: bv8, c: bv8, i: nat)
    requires i <= 8
    ensures MulFrom(a, Add8(b, c), i) == Add8(MulFrom(a, b, i), MulFrom(a, c, i))
    decreases 8 - i
  {
    hide Double, Add8, Pick, Bit;
    if i == 8 {
      AddZero(0);
    } else {
      AddRight(Double(a), b, c, i + 1);
      BitAdd(b, c, i);
      PickXor(Bit(b, i), Bit(c, i), a);
      SwapPairs(Pick(Bit(b, i), a), Pick(Bit(c, i), a), MulFrom(Double(a), b, i + 1), MulFrom(Double(a), c, i + 1));
    }
  }

  function Shifted(b: bv8): bv8 { b << 1 }

  lemma DoubleIsShift(b: bv8)
    ensures Double(b) == Add8(Shifted(b), Pick(Bit(b, 7), 0x1b))
  {
  }

  lemma ShiftedBit(b: bv8, i: nat)
    requires i < 7
    ensures Bit(Shifted(b), i + 1) == Bit(b, i) && !Bit(Shifted(b), 0)
  {
  }

  function Doubles(a: bv8, n: nat): bv8
    decreases n
  {
    if n == 0 then a else Doubles(Double(a), n - 1)
  }

  lemma {:induction false} ShiftRight(a: bv8, b: bv8, i: nat)
    requires i <= 7
    ensures MulFrom(a, b, i) == Add8(MulFrom(a, Shifted(b), i + 1), Pick(Bit(b, 7), Doubles(a, 7 - i)))
    decreases 7 - i
  {
    hide Double, Add8, Pick, Bit, Shifted;
    if i == 7 {
      AddZero(Pick(Bit(b, 7), a));
      assert MulFrom(Double(a), b, 8) == 0;
    } else {
      ShiftRight(Double(a), b, i + 1);
      ShiftedBit(b, i);
      Add8Laws(Pick(Bit(b, i), a), MulFrom(Double(a), Shifted(b), i + 2), Pick(Bit(b, 7), Doubles(a, 7 - i)));
    }
  }

  lemma Bits1b()
    ensures Bit(0x1b, 0) && Bit(0x1b, 1) && !Bit(0x1b, 2) && Bit(0x1b, 3) && Bit(0x1b, 4) && !Bit(0x1b, 5) &&
      !Bit(0x1b, 6) && !Bit(0x1b, 7)
  {
  }

  lemma OneBit(a: bv8, b: bv8, i: nat)
    requires i < 8
    ensures MulFrom(a, b, i) == if Bit(b, i) then Add8(a, MulFrom(Double(a), b, i + 1))
      else MulFrom(Double(a), b, i + 1)
  {
    hide Double, Add8, Bit;
    AddZero(MulFrom(Double(a), b, i + 1));
  }

  lemma EightDoubles(a: bv8)
    ensures Double(Double(Double(Double(Double(Double(Double(Double(a)))))))) ==
      Add8(a, Add8(Double(a), Add8(Double(Double(Double(a))), Double(Double(Double(Double(a)))))))
  {
  }

  /** x^8 is x^4 + x^3 + x + 1. */
  lemma Reduced(a: bv8)
    ensures Doubles(Double(a), 7) == Mul(a, 0x1b)
  {
    hide Double, Add8, Bit, MulFrom;
    var d1 := Double(a);
    var d2 := Double(d1);
    var d3 := Double(d2);
    var d4 := Double(d3);
    var d5 := Double(d4);
    var d6 := Double(d5);
    var d7 := Double(d6);
    assert Doubles(d4, 4) == Doubles(d5, 3) == Double(d7);
    Bits1b();
    OneBit(a, 0x1b, 0);
    OneBit(d1, 0x1b, 1);
    OneBit(d2, 0x1b, 2);
    OneBit(d3, 0x1b, 3);
    OneBit(d4, 0x1b, 4);
    OneBit(d5, 0x1b, 5);
    OneBit(d6, 0x1b, 6);
    OneBit(d7, 0x1b, 7);
    NoneLeft(Double(d7), 0x1b);
    AddZero(d4);
    EightDoubles(a);
  }

  lemma NoneLeft(a: bv8, b: bv8)
    ensures MulFrom(a, b, 8) == 0
  {
  }

  lemma MulZero(a: bv8)
    ensures Mul(a, 0) == 0
  {
    hide Add8;
    AddRight(a, 0, 0, 0);
    AddZero(0);
    AddZero(Mul(a, 0));
  }

  lemma DoubleRight(a: bv8, b: bv8)
    ensures Mul(a, Double(b)) == Double(Mul(a, b))
  {
    hide Double, Add8, Bit, Shifted, Doubles, MulFrom;
    DoubleIsShift(b);
    AddRight(a, Shifted(b), Pick(Bit(b, 7), 0x1b), 0);
    Reduced(a);
    MulZero(a);
    ShiftedBit(b, 0);
    OneBit(a, Shifted(b), 0);
    ShiftRight(Double(a), b, 0);
    DoubleLeft(a, b, 0);
  }
}
