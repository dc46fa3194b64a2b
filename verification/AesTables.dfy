/** The tables the player decrypts with, and the loop that builds them: the boxes are the standard's. */
module AesTables {
  import opened AesField
  import opened AesCipher
  import opened AesMultiply
  import opened AesWalk
  import Cbc = AesCbc

  // ---------- the S-box, section 5.1.1 ----------

  function RotateLeft(b: bv8, k: bv4): bv8
    requires k <= 8
  {
    (b << k) | (b >> (8 - k))
  }

  /** The affine transformation of the S-box. */
  function Affine(b: bv8): bv8 {
    b ^ RotateLeft(b, 1) ^ RotateLeft(b, 2) ^ RotateLeft(b, 3) ^ RotateLeft(b, 4) ^ 0x63
  }

  /** The same as the source computes it: shifted copies folded into one byte. */
  function Folded(b: bv8): bv8 {
    var g := b as bv32;
    var m := g ^ (g << 1) ^ (g << 2) ^ (g << 3) ^ (g << 4);
    ((m >> 8) ^ (255 & m) ^ 99) as bv8
  }

  lemma FoldedIsAffine(b: bv8)
    ensures Folded(b) == Affine(b)
  {
  }

  lemma AffineDiffers(a: bv8, b: bv8)
    requires a != b
    ensures Affine(a) != Affine(b)
  {
  }

  /** The multiplicative inverse, and 0 for 0. */
  ghost function InverseOf(a: bv8): bv8 {
    if b: bv8 :| Mul(a, b) == 1 then b else 0
  }

  lemma InverseOfTurn(k: nat)
    requires k < 256
    ensures InverseOf(F(k)) == G(k)
  {
    hide Mul, Power, Inverse;
    if k == 0 {
      forall b: bv8 ensures Mul(0, b) == 0 {
        ZeroTimes(b);
      }
    } else {
      InverseIff(k - 1, G(k));
      if b: bv8 :| Mul(F(k), b) == 1 {
        forall c: bv8 | Mul(F(k), c) == 1 ensures c == G(k) {
          InverseIff(k - 1, c);
        }
      }
    }
  }

  /** The standard's substitution box: the affine image of the inverse. */
  ghost function SBox(): ByteTable {
    seq(256, i requires 0 <= i < 256 => Affine(InverseOf(i as bv8)))
  }

  ghost function PreImage(m: bv8): bv8 {
    if a: bv8 :| Affine(InverseOf(a)) == m then a else 0
  }

  ghost function InvSBox(): ByteTable {
    seq(256, i requires 0 <= i < 256 => PreImage(i as bv8))
  }

  ghost function StandardBoxes(): Cbc.Boxes { Cbc.Boxes(SBox(), InvSBox()) }

  lemma SBoxAt(a: bv8)
    ensures SubByte(SBox(), a) == Affine(InverseOf(a)) && SubByte(InvSBox(), a) == PreImage(a)
  {
    assert (a as int) as bv8 == a;
  }

  /** The standard boxes at the places the loop's turns write. */
  lemma StandardAtTurn(k: nat)
    requires k < 256
    ensures SubByte(SBox(), F(k)) == Affine(G(k)) && SubByte(InvSBox(), Affine(G(k))) == F(k)
  {
    hide F, G, Affine, InverseOf, SBox, InvSBox, SubByte;
    InverseOfTurn(k);
    SBoxAt(F(k));
    SBoxAt(Affine(G(k)));
    forall a: bv8 | Affine(InverseOf(a)) == Affine(G(k)) ensures a == F(k) {
      var j := EveryTurn(a);
      InverseOfTurn(j);
      if G(j) != G(k) {
        AffineDiffers(G(j), G(k));
      } else if j < k {
        TurnsDiffer(j, k);
      } else if k < j {
        TurnsDiffer(k, j);
      }
    }
  }

  // ---------- building the tables ----------

  type WordTable = t: seq<bv32> | |t| == 256 witness seq(256, _ => 0)

  function Look(t: WordTable, b: bv8): bv32 { t[b as int] }

  /** The tables used by decryption: the S-boxes and the four inverse mixing tables. */
  datatype Tables = Tables(sBox: ByteTable, invSBox: ByteTable, mix0: WordTable, mix1: WordTable, mix2: WordTable,
    mix3: WordTable) {
    function Boxes(): Cbc.Boxes { Cbc.Boxes(sBox, invSBox) }

    /** The defining equations of the tables: entry m holds the mixed column of the byte whose S-box image is m. */
    ghost predicate Valid() {
      && Boxes().Valid()
      && forall m: bv8 ::
           && Look(mix0, m) == InvMix0(SubByte(invSBox, m)) && Look(mix1, m) == InvMix1(SubByte(invSBox, m))
           && Look(mix2, m) == InvMix2(SubByte(invSBox, m)) && Look(mix3, m) == InvMix3(SubByte(invSBox, m))
    }
  }

  function Widen(b: bv8): bv32 { b as bv32 }

  /** The word of the four inverse mixing coefficients, as the source multiplies it together. */
  function Spread(f: bv8, p: bv8, y: bv8, t: bv8): bv32 {
    Sum4(16843009 * Widen(t), 65537 * Widen(y), 257 * Widen(p), 16843008 * Widen(f))
  }

  lemma SpreadParts(b: bv8)
    ensures 16843009 * Widen(b) == Pack(b, b, b, b) && 65537 * Widen(b) == Pack(0, b, 0, b)
    ensures 257 * Widen(b) == Pack(0, 0, b, b) && 16843008 * Widen(b) == Pack(b, b, b, 0)
  {
  }

  lemma SpreadIs(f: bv8, p: bv8, y: bv8, t: bv8)
    ensures Spread(f, p, y, t) == Pack(Bytes4(t, 0, 0, f), Bytes4(t, y, 0, f), Bytes4(t, 0, p, f), Bytes4(t, y, p, 0))
  {
    hide Widen, Pack, Sum4, Bytes4;
    SpreadParts(t);
    SpreadParts(y);
    SpreadParts(p);
    SpreadParts(f);
    PackSum4(t, t, t, t, 0, y, 0, y, 0, 0, p, p, f, f, f, 0);
  }

  // The word moved right by one, two and three bytes, round and round.
  function Right1(e: bv32): bv32 { (e << 24) | (e >> 8) }

  function Right2(e: bv32): bv32 { (e << 16) | (e >> 16) }

  function Right3(e: bv32): bv32 { (e << 8) | (e >> 24) }

  lemma Right1Pack(a: bv8, b: bv8, c: bv8, d: bv8)
    ensures Right1(Pack(a, b, c, d)) == Pack(d, a, b, c)
  {
  }

  lemma Right2Pack(a: bv8, b: bv8, c: bv8, d: bv8)
    ensures Right2(Pack(a, b, c, d)) == Pack(c, d, a, b)
  {
  }

  lemma Right3Pack(a: bv8, b: bv8, c: bv8, d: bv8)
    ensures Right3(Pack(a, b, c, d)) == Pack(b, c, d, a)
  {
  }

  lemma FewerTerms(a: bv8, b: bv8, c: bv8)
    ensures Bytes4(a, 0, 0, b) == Add8(a, b) && Bytes4(a, b, 0, c) == Add8(Add8(a, b), c)
    ensures Bytes4(a, 0, b, c) == Add8(Add8(a, b), c) && Bytes4(a, b, c, 0) == Add8(Add8(a, b), c)
  {
    hide Add8;
    AddZero(a);
    AddZero(Add8(a, b));
    AddZero(Add8(Add8(a, b), c));
  }

  lemma Coefficients(f: bv8, p: bv8, y: bv8, t: bv8)
    requires p == Double(f) && y == Double(p) && t == Double(y)
    ensures Times9(f) == Bytes4(t, 0, 0, f) && Times13(f) == Bytes4(t, y, 0, f)
    ensures Times11(f) == Bytes4(t, 0, p, f) && Times14(f) == Bytes4(t, y, p, 0)
  {
    hide Double, Add8, Bytes4;
    FewerTerms(t, f, f);
    FewerTerms(t, y, f);
    FewerTerms(t, p, f);
    FewerTerms(t, y, p);
    Add8Laws(t, f, p);
    Add8Laws(f, p, t);
    Add8Laws(t, p, f);
    Add8Laws(t, f, y);
    Add8Laws(f, y, t);
    Add8Laws(t, y, f);
  }

  /** Its rotations are the columns that InvMixColumns makes of one byte. */
  lemma SpreadMixes(f: bv8, p: bv8, y: bv8, t: bv8)
    requires p == Double(f) && y == Double(p) && t == Double(y)
    ensures var e := Spread(f, p, y, t);
      Right1(e) == InvMix0(f) && Right2(e) == InvMix1(f) && Right3(e) == InvMix2(f) && e == InvMix3(f)
  {
    hide Spread, Right1, Right2, Right3, Pack, Double, Times9, Times11, Times13, Times14, Bytes4;
    SpreadIs(f, p, y, t);
    Coefficients(f, p, y, t);
    Right1Pack(Times9(f), Times13(f), Times11(f), Times14(f));
    Right2Pack(Times9(f), Times13(f), Times11(f), Times14(f));
    Right3Pack(Times9(f), Times13(f), Times11(f), Times14(f));
  }

  /** An entry of the doubling table: shifted, and reduced when too long for a byte. */
  function DoubledEntry(v: bv8): bv8 { if v < 128 then v << 1 else ((Widen(v) << 1) ^ 283) as bv8 }

  lemma DoubledEntryIs(v: bv8)
    ensures DoubledEntry(v) == Double(v)
  {
  }

  ghost predicate DoublesTable(c: ByteTable) { forall b: bv8 :: SubByte(c, b) == Double(b) }

  method DoublingTable() returns (c: ByteTable)
    ensures DoublesTable(c)
  {
    hide Double, DoubledEntry;
    var a := new bv8[256];
    for v := 0 to 256
      invariant forall k :: 0 <= k < v ==> a[k] == Double(k as bv8)
    {
      DoubledEntryIs(v as bv8);
      a[v] := DoubledEntry(v as bv8);
    }
    c := a[..];
    forall b: bv8 ensures SubByte(c, b) == Double(b) {
      assert (b as int) as bv8 == b;
    }
  }

  /** The tables at the places that turn k wrote. */
  ghost predicate TurnOk(t: Tables, k: nat) {
    var f, m := F(k), Affine(G(k));
    && SubByte(t.sBox, f) == m && SubByte(t.invSBox, m) == f
    && Look(t.mix0, m) == InvMix0(f) && Look(t.mix1, m) == InvMix1(f)
    && Look(t.mix2, m) == InvMix2(f) && Look(t.mix3, m) == InvMix3(f)
  }

  /** What the entry of one more turn writes. */
  function Written(t: Tables, f: bv8, m: bv8): Tables {
    t.(sBox := t.sBox[Index(f) := m], invSBox := t.invSBox[Index(m) := f],
       mix0 := t.mix0[Index(m) := InvMix0(f)], mix1 := t.mix1[Index(m) := InvMix1(f)],
       mix2 := t.mix2[Index(m) := InvMix2(f)], mix3 := t.mix3[Index(m) := InvMix3(f)])
  }

  lemma NewTurn(t: Tables, v: nat)
    ensures TurnOk(Written(t, F(v), Affine(G(v))), v)
  {
    hide F, G, Affine, InvMix0, InvMix1, InvMix2, InvMix3;
  }

  lemma OtherByte(s: ByteTable, i: bv8, x: bv8, j: bv8)
    requires i != j
    ensures SubByte(s[Index(i) := x], j) == SubByte(s, j)
  {
    IndexDiffers(i, j);
  }

  lemma OtherWord(s: WordTable, i: bv8, x: bv32, j: bv8)
    requires i != j
    ensures Look(s[Index(i) := x], j) == Look(s, j)
  {
    IndexDiffers(i, j);
  }

  lemma OldTurn(t: Tables, v: nat, k: nat)
    requires k < v < 256 && TurnOk(t, k)
    ensures TurnOk(Written(t, F(v), Affine(G(v))), k)
  {
    hide F, G, Affine, InvMix0, InvMix1, InvMix2, InvMix3, SubByte, Look;
    TurnsDiffer(k, v);
    AffineDiffers(G(k), G(v));
    var f, m, m' := F(v), Affine(G(v)), Affine(G(k));
    OtherByte(t.sBox, f, m, F(k));
    OtherByte(t.invSBox, m, f, m');
    OtherWord(t.mix0, m, InvMix0(f), m');
    OtherWord(t.mix1, m, InvMix1(f), m');
    OtherWord(t.mix2, m, InvMix2(f), m');
    OtherWord(t.mix3, m, InvMix3(f), m');
  }

  lemma EveryImage(b: bv8) returns (k: nat)
    ensures k < 256 && Affine(G(k)) == b
  {
    hide F, G, Affine;
    var s := seq(256, i requires 0 <= i < 256 => Affine(G(i)));
    forall i, j | 0 <= i < j < 256 ensures s[i] != s[j] {
      TurnsDiffer(i, j);
      AffineDiffers(G(i), G(j));
    }
    AllBytes(s);
    assert b in s;
    k :| k < 256 && s[k] == b;
  }

  lemma TablesComplete(t: Tables)
    requires forall k: nat :: k < 256 ==> TurnOk(t, k)
    ensures t.Valid()
  {
    hide F, G, Affine, InvMix0, InvMix1, InvMix2, InvMix3, SubByte, Look;
    forall b: bv8 ensures SubByte(t.invSBox, SubByte(t.sBox, b)) == b {
      var k := EveryTurn(b);
      assert TurnOk(t, k);
    }
    forall m: bv8 ensures SubByte(t.sBox, SubByte(t.invSBox, m)) == m
      && Look(t.mix0, m) == InvMix0(SubByte(t.invSBox, m)) && Look(t.mix1, m) == InvMix1(SubByte(t.invSBox, m))
      && Look(t.mix2, m) == InvMix2(SubByte(t.invSBox, m)) && Look(t.mix3, m) == InvMix3(SubByte(t.invSBox, m)) {
      var k := EveryImage(m);
      assert TurnOk(t, k);
    }
  }

  lemma SameTable(s: ByteTable, t: ByteTable)
    requires forall b: bv8 :: SubByte(s, b) == SubByte(t, b)
    ensures s == t
  {
    forall i | 0 <= i < 256 ensures s[i] == t[i] {
      var b := ByteOfIndex(i);
      assert SubByte(s, b) == SubByte(t, b);
    }
  }

  lemma TablesStandard(t: Tables)
    requires forall k: nat :: k < 256 ==> TurnOk(t, k)
    ensures t.Boxes() == StandardBoxes()
  {
    hide F, G, Affine, InvMix0, InvMix1, InvMix2, InvMix3, SubByte, Look, SBox, InvSBox;
    forall b: bv8 ensures SubByte(t.sBox, b) == SubByte(SBox(), b) {
      var k := EveryTurn(b);
      assert TurnOk(t, k);
      StandardAtTurn(k);
    }
    forall b: bv8 ensures SubByte(t.invSBox, b) == SubByte(InvSBox(), b) {
      var k := EveryImage(b);
      assert TurnOk(t, k);
      StandardAtTurn(k);
    }
    SameTable(t.sBox, SBox());
    SameTable(t.invSBox, InvSBox());
  }

  /** The standard's two boxes undo each other. */
  lemma StandardBoxesValid()
    ensures StandardBoxes().Valid()
  {
    hide F, G, Affine, SubByte, SBox, InvSBox;
    forall b: bv8 ensures SubByte(InvSBox(), SubByte(SBox(), b)) == b {
      var k := EveryTurn(b);
      StandardAtTurn(k);
    }
    forall m: bv8 ensures SubByte(SBox(), SubByte(InvSBox(), m)) == m {
      var k := EveryImage(m);
      StandardAtTurn(k);
    }
  }

  /** Builds the S-boxes and the inverse mixing tables: they are the standard's, each entry written once. */
  method InitTable() returns (t: Tables)
    ensures t.Valid() && t.Boxes() == StandardBoxes()
  {
    hide F, G, Affine, Double, InvMix0, InvMix1, InvMix2, InvMix3, Spread, Right1, Right2, Right3, Folded, SubByte,
      TurnOk, Index, StandardBoxes;
    var c := DoublingTable();
    var sBox, invSBox := new bv8[256], new bv8[256];
    var l, u, h, d := new bv32[256], new bv32[256], new bv32[256], new bv32[256];
    var f: bv8, g: bv8 := 0, 0;
    Start();
    for v := 0 to 256
      invariant f == F(v) && g == G(v)
      invariant forall k: nat :: k < v ==> TurnOk(Tables(sBox[..], invSBox[..], l[..], u[..], h[..], d[..]), k)
    {
      ghost var was := Tables(sBox[..], invSBox[..], l[..], u[..], h[..], d[..]);
      var m := Folded(g);
      FoldedIsAffine(g);
      var p := SubByte(c, f);
      var y := SubByte(c, p);
      var x := SubByte(c, y);
      var e := Spread(f, p, y, x);
      SpreadMixes(f, p, y, x);
      WriteBytes(sBox, invSBox, f, m);
      WriteWords(l, u, h, d, m, e);
      assert Tables(sBox[..], invSBox[..], l[..], u[..], h[..], d[..]) == Written(was, f, m);
      AllTurns(was, v);
      NextTurn(v);
      if f != 0 {
        f := Add8(p, SubByte(c, SubByte(c, SubByte(c, Add8(x, p)))));
        g := Add8(g, SubByte(c, SubByte(c, g)));
      } else {
        f, g := 1, 1;
      }
    }
    t := Tables(sBox[..], invSBox[..], l[..], u[..], h[..], d[..]);
    TablesComplete(t);
    TablesStandard(t);
  }

  method WriteBytes(sBox: array<bv8>, invSBox: array<bv8>, f: bv8, m: bv8)
    requires sBox.Length == invSBox.Length == 256 && sBox != invSBox
    modifies sBox, invSBox
    ensures sBox[..] == old(sBox[..])[Index(f) := m] && invSBox[..] == old(invSBox[..])[Index(m) := f]
  {
    hide Index;
    sBox[Index(f)] := m;
    invSBox[Index(m)] := f;
  }

  method WriteWords(l: array<bv32>, u: array<bv32>, h: array<bv32>, d: array<bv32>, m: bv8, e: bv32)
    requires l.Length == u.Length == h.Length == d.Length == 256
    requires l != u && l != h && l != d && u != h && u != d && h != d
    modifies l, u, h, d
    ensures l[..] == old(l[..])[Index(m) := Right1(e)] && u[..] == old(u[..])[Index(m) := Right2(e)]
    ensures h[..] == old(h[..])[Index(m) := Right3(e)] && d[..] == old(d[..])[Index(m) := e]
  {
    hide Index, Right1, Right2, Right3;
    l[Index(m)] := Right1(e);
    u[Index(m)] := Right2(e);
    h[Index(m)] := Right3(e);
    d[Index(m)] := e;
  }

  lemma AllTurns(t: Tables, v: nat)
    requires v < 256 && forall k: nat :: k < v ==> TurnOk(t, k)
    ensures forall k: nat :: k < v + 1 ==> TurnOk(Written(t, F(v), Affine(G(v))), k)
  {
    hide TurnOk, Written;
    NewTurn(t, v);
    forall k: nat | k < v ensures TurnOk(Written(t, F(v), Affine(G(v))), k) {
      OldTurn(t, v, k);
    }
  }
}
