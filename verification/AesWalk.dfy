/** The walk through all non-zero field elements by which the player builds its AES tables: each step a multiplication
    by 0x52, beside a walk through the inverses, each step a multiplication by 5. */
module AesWalk {
  import opened AesField
  import opened AesMultiply

  function Next(f: bv8): bv8 { Add8(Double(f), Double(Double(Double(Add8(Double(Double(Double(f))), Double(f)))))) }

  function Times5(g: bv8): bv8 { Add8(g, Double(Double(g))) }

  lemma StepsUndo(f: bv8)
    ensures Times5(Next(f)) == f && Next(Times5(f)) == f
  {
  }

  /** The walk, and the walk of the inverses. */
  function Power(k: nat): bv8 { if k == 0 then 1 else Next(Power(k - 1)) }

  function Inverse(k: nat): bv8 { if k == 0 then 1 else Times5(Inverse(k - 1)) }

  // ---------- the second walk holds the inverses of the first ----------

  lemma MulNext(f: bv8, g: bv8)
    ensures Mul(Next(f), g) == Next(Mul(f, g))
  {
    hide Double, Add8, MulFrom;
    var d1 := Double(f);
    var d2 := Double(d1);
    var d3 := Double(d2);
    var e := Add8(d3, d1);
    DoubleLeft(f, g, 0);
    DoubleLeft(d1, g, 0);
    DoubleLeft(d2, g, 0);
    AddLeft(d3, d1, g, 0);
    DoubleLeft(e, g, 0);
    DoubleLeft(Double(e), g, 0);
    DoubleLeft(Double(Double(e)), g, 0);
    AddLeft(d1, Double(Double(Double(e))), g, 0);
  }

  lemma MulTimes5(f: bv8, g: bv8)
    ensures Mul(f, Times5(g)) == Times5(Mul(f, g))
  {
    hide Double, Add8, MulFrom;
    DoubleRight(f, g);
    DoubleRight(f, Double(g));
    AddRight(f, g, Double(Double(g)), 0);
  }

  lemma MulSteps(f: bv8, g: bv8)
    ensures Mul(Next(f), Times5(g)) == Mul(f, g)
  {
    hide Next, Times5, Mul;
    MulNext(f, Times5(g));
    MulTimes5(f, g);
    StepsUndo(Mul(f, g));
  }

  lemma BitsOf(b: bv8)
    ensures Add8(Pick(Bit(b, 0), 1), Add8(Pick(Bit(b, 1), 2), Add8(Pick(Bit(b, 2), 4), Add8(Pick(Bit(b, 3), 8),
            Add8(Pick(Bit(b, 4), 16),
              Add8(Pick(Bit(b, 5), 32), Add8(Pick(Bit(b, 6), 64), Pick(Bit(b, 7), 128)))))))) == b
  {
  }

  lemma MulOne(b: bv8)
    ensures Mul(1, b) == b
  {
    hide Add8, Pick, Bit, MulFrom;
    assert Double(1) == 2 && Double(2) == 4 && Double(4) == 8 && Double(8) == 16 && Double(16) == 32 &&
      Double(32) == 64 && Double(64) == 128;
    Unfold(1, b, 0);
    Unfold(2, b, 1);
    Unfold(4, b, 2);
    Unfold(8, b, 3);
    Unfold(16, b, 4);
    Unfold(32, b, 5);
    Unfold(64, b, 6);
    Unfold(128, b, 7);
    NoneLeft(Double(128), b);
    AddZero(Pick(Bit(b, 7), 128));
    BitsOf(b);
  }

  lemma Unfold(a: bv8, b: bv8, i: nat)
    requires i < 8
    ensures MulFrom(a, b, i) == Add8(Pick(Bit(b, i), a), MulFrom(Double(a), b, i + 1))
  {
  }

  /** Along the walks the only element that multiplies to one with the k-th power is the k-th inverse. */
  lemma {:induction false} InverseIff(k: nat, b: bv8)
    ensures Mul(Power(k), b) == 1 <==> b == Inverse(k)
  {
    hide Next, Times5, Mul;
    if k == 0 {
      MulOne(b);
    } else {
      StepsUndo(b);
      StepsUndo(Inverse(k - 1));
      MulSteps(Power(k - 1), Next(b));
      InverseIff(k - 1, Next(b));
    }
  }

  // ---------- the walk returns to one after 255 steps and not before ----------

  /** Squaring, which is additive. */
  function Square(x: bv8): bv8 {
    ((x & 1) * 1) ^ (((x >> 1) & 1) * 4) ^ (((x >> 2) & 1) * 16) ^ (((x >> 3) & 1) * 64)
    ^ (((x >> 4) & 1) * 0x1b) ^ (((x >> 5) & 1) * 0x6c) ^ (((x >> 6) & 1) * 0xab) ^ (((x >> 7) & 1) * 0x9a)
  }

  /** What the coefficient of x^i in `f` contributes to its square. */
  function Term(f: bv8, i: nat, square: bv8): bv8
    requires i < 8
  {
    Low(f >> i, square)
  }

  function Low(f: bv8, square: bv8): bv8 { (f & 1) * square }

  function LowSquare(f: bv8): bv8 { Add8(Add8(Term(f, 0, 1), Term(f, 1, 4)), Add8(Term(f, 2, 16), Term(f, 3, 64))) }

  function HighSquare(f: bv8): bv8 {
    Add8(Add8(Term(f, 4, 0x1b), Term(f, 5, 0x6c)), Add8(Term(f, 6, 0xab), Term(f, 7, 0x9a)))
  }

  lemma SquareIs(f: bv8)
    ensures Square(f) == Add8(LowSquare(f), HighSquare(f))
  {
  }

  lemma LowAdd(f: bv8, g: bv8, square: bv8)
    ensures Low(Add8(f, g), square) == Add8(Low(f, square), Low(g, square))
  {
    if f & 1 == 0 {
      assert Add8(f, g) & 1 == g & 1;
    } else if g & 1 == 0 {
      assert Add8(f, g) & 1 == f & 1;
    } else {
      assert Add8(f, g) & 1 == 0 && f & 1 == 1 && g & 1 == 1;
    }
  }

  lemma ShiftsAdd(f: bv8, g: bv8)
    ensures Add8(f, g) >> 0 == Add8(f >> 0, g >> 0)
    ensures Add8(f, g) >> 1 == Add8(f >> 1, g >> 1)
    ensures Add8(f, g) >> 2 == Add8(f >> 2, g >> 2)
    ensures Add8(f, g) >> 3 == Add8(f >> 3, g >> 3)
    ensures Add8(f, g) >> 4 == Add8(f >> 4, g >> 4)
    ensures Add8(f, g) >> 5 == Add8(f >> 5, g >> 5)
    ensures Add8(f, g) >> 6 == Add8(f >> 6, g >> 6)
    ensures Add8(f, g) >> 7 == Add8(f >> 7, g >> 7)
  {
  }

  lemma TermsAdd(f: bv8, g: bv8)
    ensures Term(Add8(f, g), 0, 1) == Add8(Term(f, 0, 1), Term(g, 0, 1))
    ensures Term(Add8(f, g), 1, 4) == Add8(Term(f, 1, 4), Term(g, 1, 4))
    ensures Term(Add8(f, g), 2, 16) == Add8(Term(f, 2, 16), Term(g, 2, 16))
    ensures Term(Add8(f, g), 3, 64) == Add8(Term(f, 3, 64), Term(g, 3, 64))
    ensures Term(Add8(f, g), 4, 0x1b) == Add8(Term(f, 4, 0x1b), Term(g, 4, 0x1b))
    ensures Term(Add8(f, g), 5, 0x6c) == Add8(Term(f, 5, 0x6c), Term(g, 5, 0x6c))
    ensures Term(Add8(f, g), 6, 0xab) == Add8(Term(f, 6, 0xab), Term(g, 6, 0xab))
    ensures Term(Add8(f, g), 7, 0x9a) == Add8(Term(f, 7, 0x9a), Term(g, 7, 0x9a))
  {
    hide Add8, Low;
    ShiftsAdd(f, g);
    LowAdd(f >> 0, g >> 0, 1);
    LowAdd(f >> 1, g >> 1, 4);
    LowAdd(f >> 2, g >> 2, 16);
    LowAdd(f >> 3, g >> 3, 64);
    LowAdd(f >> 4, g >> 4, 0x1b);
    LowAdd(f >> 5, g >> 5, 0x6c);
    LowAdd(f >> 6, g >> 6, 0xab);
    LowAdd(f >> 7, g >> 7, 0x9a);
  }

  lemma SwapFours(a: bv8, b: bv8, c: bv8, d: bv8, e: bv8, f: bv8, g: bv8, h: bv8)
    ensures Add8(Add8(Add8(a, e), Add8(b, f)), Add8(Add8(c, g), Add8(d, h))) ==
      Add8(Add8(Add8(a, b), Add8(c, d)), Add8(Add8(e, f), Add8(g, h)))
  {
    hide Add8;
    SwapPairs(a, e, b, f);
    SwapPairs(c, g, d, h);
    SwapPairs(Add8(a, b), Add8(e, f), Add8(c, d), Add8(g, h));
  }

  lemma SquareAdd(f: bv8, g: bv8)
    ensures Square(Add8(f, g)) == Add8(Square(f), Square(g))
  {
    hide Add8, Term, Square;
    SquareIs(f);
    SquareIs(g);
    SquareIs(Add8(f, g));
    TermsAdd(f, g);
    SwapFours(Term(f, 0, 1), Term(f, 1, 4), Term(f, 2, 16), Term(f, 3, 64),
      Term(g, 0, 1), Term(g, 1, 4), Term(g, 2, 16), Term(g, 3, 64));
    SwapFours(Term(f, 4, 0x1b), Term(f, 5, 0x6c), Term(f, 6, 0xab), Term(f, 7, 0x9a),
      Term(g, 4, 0x1b), Term(g, 5, 0x6c), Term(g, 6, 0xab), Term(g, 7, 0x9a));
    SwapPairs(LowSquare(f), LowSquare(g), HighSquare(f), HighSquare(g));
  }

  lemma SquareDouble(f: bv8)
    ensures Square(Double(f)) == Double(Double(Square(f)))
  {
  }

  function Times8(f: bv8): bv8 { Double(Double(Double(f))) }

  lemma Times8Add(f: bv8, g: bv8)
    ensures Times8(Add8(f, g)) == Add8(Times8(f), Times8(g))
  {
    hide Double, Add8;
    DoubleAdd(f, g);
    DoubleAdd(Double(f), Double(g));
    DoubleAdd(Double(Double(f)), Double(Double(g)));
  }

  lemma SquareTimes8(f: bv8)
    ensures Square(Times8(f)) == Times8(Times8(Square(f)))
  {
    hide Double, Square;
    SquareDouble(f);
    SquareDouble(Double(f));
    SquareDouble(Double(Double(f)));
  }

  /** The step of the walk as a sum. */
  lemma NextIs(f: bv8)
    ensures Next(f) == Add8(Double(f), Add8(Times8(Times8(f)), Times8(Double(f))))
  {
    hide Double, Add8;
    Times8Add(Times8(f), Double(f));
  }

  lemma NextAdd(f: bv8, g: bv8)
    ensures Next(Add8(f, g)) == Add8(Next(f), Next(g))
  {
    hide Double, Add8, Times8, Next;
    NextIs(f);
    NextIs(g);
    NextIs(Add8(f, g));
    DoubleAdd(f, g);
    Times8Add(f, g);
    Times8Add(Times8(f), Times8(g));
    Times8Add(Double(f), Double(g));
    SwapPairs(Times8(Times8(f)), Times8(Times8(g)), Times8(Double(f)), Times8(Double(g)));
    SwapPairs(Double(f), Double(g), Add8(Times8(Times8(f)), Times8(Double(f))),
      Add8(Times8(Times8(g)), Times8(Double(g))));
  }

  /** Two steps as a sum: the middle terms stand twice. */
  lemma NextTwice(s: bv8)
    ensures Next(Next(s)) == Add8(Double(Double(s)),
      Add8(Times8(Times8(Times8(Times8(s)))), Times8(Times8(Double(Double(s))))))
  {
    hide Double, Add8, Next;
    var d, e, f := Double(s), Times8(Times8(s)), Times8(Double(s));
    NextIs(s);
    NextAdd(d, Add8(e, f));
    NextAdd(e, f);
    NextIs(d);
    NextIs(e);
    NextIs(f);
    SwapPairs(Double(e), Add8(Times8(Times8(e)), Times8(Double(e))),
      Double(f), Add8(Times8(Times8(f)), Times8(Double(f))));
    Cancel(Times8(Times8(e)), Times8(Double(e)), Times8(Double(f)));
    Cancel(Double(d), Add8(Double(e), Double(f)), Add8(Times8(Times8(e)), Times8(Double(f))));
  }

  lemma SquareNext(f: bv8)
    ensures Square(Next(f)) == Next(Next(Square(f)))
  {
    hide Double, Add8, Next, Square, Times8;
    NextIs(f);
    SquareAdd(Double(f), Add8(Times8(Times8(f)), Times8(Double(f))));
    SquareAdd(Times8(Times8(f)), Times8(Double(f)));
    SquareDouble(f);
    SquareTimes8(f);
    SquareTimes8(Times8(f));
    SquareTimes8(Double(f));
    NextTwice(Square(f));
  }

  lemma {:induction false} PowerTwice(k: nat)
    ensures Power(2 * k) == Square(Power(k))
  {
    hide Next, Square;
    if k == 0 {
      assert Square(1) == 1 by { SquareOne(); }
    } else {
      PowerTwice(k - 1);
      SquareNext(Power(k - 1));
      assert Power(2 * k) == Next(Power(2 * k - 1)) == Next(Next(Power(2 * k - 2)));
    }
  }

  lemma SquareOne()
    ensures Square(1) == 1
  {
  }

  lemma PowerTwiceMore(k: nat)
    ensures Power(2 * k + 1) == Next(Square(Power(k)))
  {
    hide Next, Square;
    PowerTwice(k);
  }

  /** Some powers, by squaring. */
  lemma Landmarks()
    ensures Power(15) != 1 && Power(51) != 1 && Power(85) != 1 && Power(255) == 1
  {
    PowerTwiceMore(0);
    PowerTwice(1);
    PowerTwiceMore(1);
    PowerTwiceMore(2);
    PowerTwice(3);
    PowerTwiceMore(3);
    PowerTwice(5);
    PowerTwice(6);
    PowerTwiceMore(7);
    PowerTwiceMore(10);
    PowerTwiceMore(12);
    PowerTwiceMore(15);
    PowerTwice(21);
    PowerTwiceMore(25);
    PowerTwiceMore(31);
    PowerTwiceMore(42);
    PowerTwiceMore(63);
    PowerTwiceMore(127);
  }

  lemma {:induction false} PowerShift(e: nat, r: nat)
    requires Power(e) == 1
    ensures Power(e + r) == Power(r)
  {
    hide Next;
    if r == 0 {
    } else {
      PowerShift(e, r - 1);
    }
  }

  lemma {:induction false} PowerTimes(e: nat, q: nat, r: nat)
    requires Power(e) == 1
    ensures Power(e * q + r) == Power(r)
    decreases q
  {
    hide Next;
    if q == 0 {
    } else {
      PowerTimes(e, q - 1, r);
      PowerShift(e, e * (q - 1) + r);
      assert e + (e * (q - 1) + r) == e * q + r;
    }
  }

  /** The first return to one, looking from `from` on. */
  lemma FirstReturn(from: nat, d: nat) returns (e: nat)
    requires 1 <= from <= d && Power(d) == 1 && forall k :: 1 <= k < from ==> Power(k) != 1
    ensures 1 <= e <= d && Power(e) == 1 && forall k :: 1 <= k < e ==> Power(k) != 1
    decreases d - from
  {
    hide Power;
    if Power(from) == 1 {
      e := from;
    } else {
      e := FirstReturn(from + 1, d);
    }
  }

  lemma SmallDivisor(e: nat)
    requires 1 <= e < 255 && 255 % e == 0
    ensures 15 % e == 0 || 51 % e == 0 || 85 % e == 0
  {
    var q := 255 / e;
    assert 255 == e * q;
    if e <= 15 {
      assert e == 1 || e == 2 || e == 3 || e == 4 || e == 5 || e == 6 || e == 7 || e == 8 || e == 9 || e == 10 ||
        e == 11 || e == 12 || e == 13 || e == 14 || e == 15;
    } else {
      Quotient(e, q);
      assert q == 2 || q == 3 || q == 4 || q == 5 || q == 6 || q == 7 || q == 8 || q == 9 || q == 10 || q == 11 ||
        q == 12 || q == 13 || q == 14 || q == 15;
      assert e == 85 || e == 51 || e == 17;
    }
  }

  lemma ProductAtLeast(e: nat, q: nat)
    requires e >= 16 && q >= 16
    ensures e * q >= 256
  {
    assert e * q >= 16 * q;
  }

  lemma Quotient(e: nat, q: nat)
    requires 15 < e < 255 && 255 == e * q
    ensures 2 <= q <= 15
  {
    if q >= 16 {
      ProductAtLeast(e, q);
    }
  }

  lemma Multiple(e: nat, n: nat)
    requires e > 0 && Power(e) == 1
    ensures Power(n) == Power(n % e)
  {
    hide Power;
    PowerTimes(e, n / e, n % e);
    assert e * (n / e) + n % e == n;
  }

  lemma NoSmallPeriod(e: nat)
    requires 1 <= e < 255 && 255 % e == 0
    ensures Power(e) != 1
  {
    hide Power;
    if Power(e) == 1 {
      SmallDivisor(e);
      PowerZero();
      Multiple(e, 15);
      Multiple(e, 51);
      Multiple(e, 85);
      Landmarks();
    }
  }

  lemma LeastPeriodDivides(e: nat)
    requires 1 <= e < 255 && Power(e) == 1 && forall k :: 1 <= k < e ==> Power(k) != 1
    ensures 255 % e == 0
  {
    hide Power;
    Landmarks();
    Multiple(e, 255);
  }

  lemma NoEarlyReturn(d: nat)
    requires 1 <= d < 255
    ensures Power(d) != 1
  {
    hide Power;
    if Power(d) == 1 {
      var e := FirstReturn(1, d);
      LeastPeriodDivides(e);
      NoSmallPeriod(e);
    }
  }

  lemma PowerZero()
    ensures Power(0) == 1 && Inverse(0) == 1
  {
  }

  lemma {:induction false} PowersDiffer(i: nat, j: nat)
    requires i < j < 255
    ensures Power(i) != Power(j)
  {
    hide Next;
    if i == 0 {
      NoEarlyReturn(j);
    } else {
      PowersDiffer(i - 1, j - 1);
      StepsUndo(Power(i - 1));
      StepsUndo(Power(j - 1));
    }
  }

  lemma BitsOne()
    ensures Bit(1, 0) && !Bit(1, 1) && !Bit(1, 2) && !Bit(1, 3) && !Bit(1, 4) && !Bit(1, 5) && !Bit(1, 6) && !Bit(1, 7)
  {
  }

  lemma TimesOne(a: bv8)
    ensures Mul(a, 1) == a
  {
    hide Double, Add8, Bit, MulFrom;
    var d1 := Double(a);
    var d2 := Double(d1);
    var d3 := Double(d2);
    var d4 := Double(d3);
    var d5 := Double(d4);
    var d6 := Double(d5);
    var d7 := Double(d6);
    BitsOne();
    OneBit(a, 1, 0);
    OneBit(d1, 1, 1);
    OneBit(d2, 1, 2);
    OneBit(d3, 1, 3);
    OneBit(d4, 1, 4);
    OneBit(d5, 1, 5);
    OneBit(d6, 1, 6);
    OneBit(d7, 1, 7);
    NoneLeft(Double(d7), 1);
    AddZero(a);
  }

  lemma {:induction false} InversesDiffer(i: nat, j: nat)
    requires i < j < 255
    ensures Inverse(i) != Inverse(j)
  {
    hide Times5, Next, Mul, Power;
    if i == 0 {
      InverseIff(j, 1);
      TimesOne(Power(j));
      NoEarlyReturn(j);
    } else {
      InversesDiffer(i - 1, j - 1);
      StepsUndo(Inverse(i - 1));
      StepsUndo(Inverse(j - 1));
    }
  }

  lemma {:induction false} NeverZero(k: nat)
    ensures Power(k) != 0 && Inverse(k) != 0
  {
    hide Next, Times5;
    if k == 0 {
    } else {
      NeverZero(k - 1);
      ZeroSteps();
      StepsUndo(Power(k - 1));
      StepsUndo(Inverse(k - 1));
    }
  }

  lemma ZeroSteps()
    ensures Times5(0) == 0 && Next(0) == 0
  {
  }

  // ---------- the loop's variables ----------

  /** f and g at the head of turn k: zero first, then the walks. */
  function F(k: nat): bv8 { if k == 0 then 0 else Power(k - 1) }

  function G(k: nat): bv8 { if k == 0 then 0 else Inverse(k - 1) }

  lemma TurnsDiffer(i: nat, j: nat)
    requires i < j < 256
    ensures F(i) != F(j) && G(i) != G(j)
  {
    hide Power, Inverse;
    if i == 0 {
      NeverZero(j - 1);
    } else {
      PowersDiffer(i - 1, j - 1);
      InversesDiffer(i - 1, j - 1);
    }
  }

  // ---------- 256 different bytes are all bytes ----------

  function Below(n: nat): (s: set<int>)
    ensures |s| == n && forall x :: x in s <==> 0 <= x < n
  {
    if n == 0 then {} else Below(n - 1) + {n - 1}
  }

  function Values(s: seq<int>): (t: set<int>)
    ensures forall x :: x in t <==> x in s
  {
    if s == [] then {} else Values(s[1..]) + {s[0]}
  }

  lemma {:induction false} DifferentValues(s: seq<int>)
    requires forall i, j :: 0 <= i < j < |s| ==> s[i] != s[j]
    ensures |Values(s)| == |s|
  {
    hide Values;
    ValuesOnce(s);
    if s == [] {
    } else {
      DifferentValues(s[1..]);
      NotLater(s);
    }
  }

  lemma ValuesOnce(s: seq<int>)
    ensures Values(s) == if s == [] then {} else Values(s[1..]) + {s[0]}
  {
  }

  lemma NotLater(s: seq<int>)
    requires s != [] && forall i, j :: 0 <= i < j < |s| ==> s[i] != s[j]
    ensures s[0] !in Values(s[1..])
  {
    hide Values;
    forall k | 0 <= k < |s[1..]| ensures s[1..][k] != s[0] {
      assert s[1..][k] == s[k + 1];
    }
  }

  lemma SubsetOfSameSize(s: set<int>, t: set<int>)
    requires s <= t && |s| == |t|
    ensures s == t
  {
    assert t == s + (t - s);
    assert |t - s| == 0;
  }

  lemma AllValues(s: seq<int>)
    requires |s| == 256 && (forall i :: 0 <= i < 256 ==> 0 <= s[i] < 256) &&
      forall i, j :: 0 <= i < j < 256 ==> s[i] != s[j]
    ensures forall v :: 0 <= v < 256 ==> v in s
  {
    hide Values, Below;
    DifferentValues(s);
    SubsetOfSameSize(Values(s), Below(256));
  }

  function Index(b: bv8): (i: int)
    ensures 0 <= i < 256
  {
    b as int
  }

  lemma IndexDiffers(a: bv8, b: bv8)
    requires a != b
    ensures Index(a) != Index(b)
  {
  }

  lemma AllBytes(s: seq<bv8>)
    requires |s| == 256 && forall i, j :: 0 <= i < j < 256 ==> s[i] != s[j]
    ensures forall b: bv8 :: b in s
  {
    hide Index;
    var t := seq(256, i requires 0 <= i < 256 => Index(s[i]));
    forall i, j | 0 <= i < j < 256 ensures t[i] != t[j] {
      IndexDiffers(s[i], s[j]);
    }
    AllValues(t);
    forall b: bv8 ensures b in s {
      assert Index(b) in t;
      var i :| 0 <= i < 256 && t[i] == Index(b);
      if s[i] != b {
        IndexDiffers(s[i], b);
      }
    }
  }

  /** The loop's turns meet every byte. */
  lemma EveryTurn(b: bv8) returns (k: nat)
    ensures k < 256 && F(k) == b
  {
    hide F, G;
    var s := seq(256, i requires 0 <= i < 256 => F(i));
    forall i, j | 0 <= i < j < 256 ensures s[i] != s[j] {
      TurnsDiffer(i, j);
    }
    AllBytes(s);
    assert b in s;
    k :| k < 256 && s[k] == b;
  }

  /** Every index below 256 is some byte's. */
  lemma ByteOfIndex(i: int) returns (b: bv8)
    requires 0 <= i < 256
    ensures Index(b) == i
  {
    hide F, G, Index;
    var s := seq(256, k requires 0 <= k < 256 => Index(F(k)));
    forall j, k | 0 <= j < k < 256 ensures s[j] != s[k] {
      TurnsDiffer(j, k);
      IndexDiffers(F(j), F(k));
    }
    AllValues(s);
    assert i in s;
    var k :| 0 <= k < 256 && s[k] == i;
    b := F(k);
  }

  lemma Start()
    ensures F(0) == 0 && G(0) == 0
  {
  }

  lemma NextTurn(v: nat)
    ensures F(v) == 0 ==> F(v + 1) == 1 && G(v + 1) == 1
    ensures F(v) != 0 ==> F(v + 1) == Next(F(v)) && G(v + 1) == Times5(G(v))
  {
    hide Next, Times5;
    if v > 0 {
      NeverZero(v - 1);
    }
  }

  lemma ZeroTimes(b: bv8)
    ensures Mul(0, b) == 0
  {
    hide Add8, MulFrom;
    AddLeft(0, 0, b, 0);
    AddZero(0);
    AddZero(MulFrom(0, b, 0));
  }
}
