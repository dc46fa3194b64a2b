/** The AES-128 cipher and its inverse (FIPS 197, section 5) over any pair of inverse S-boxes. */
module AesCipher {
  import opened AesField

  /** A 256-entry byte table: an S-box or its inverse. */
  type ByteTable = t: seq<bv8> | |t| == 256 witness seq(256, _ => 0)

  /** Four columns, each a word whose most significant byte is row 0. */
  datatype State = State(c0: bv32, c1: bv32, c2: bv32, c3: bv32)

  function SubByte(t: ByteTable, b: bv8): bv8 { t[b as int] }

  ghost predicate Inverses(sBox: ByteTable, invSBox: ByteTable) {
    forall b: bv8 :: SubByte(invSBox, SubByte(sBox, b)) == b
  }

  function SubWord(t: ByteTable, w: bv32): bv32 {
    Pack(SubByte(t, Row0(w)), SubByte(t, Row1(w)), SubByte(t, Row2(w)), SubByte(t, Row3(w)))
  }

  function SubBytes(t: ByteTable, s: State): State {
    State(SubWord(t, s.c0), SubWord(t, s.c1), SubWord(t, s.c2), SubWord(t, s.c3))
  }

  /** The word made of row 0 of `a`, row 1 of `b`, row 2 of `c` and row 3 of `d`. */
  function Diagonal(a: bv32, b: bv32, c: bv32, d: bv32): bv32 { Pack(Row0(a), Row1(b), Row2(c), Row3(d)) }

  function ShiftRows(s: State): State {
    State(Diagonal(s.c0, s.c1, s.c2, s.c3), Diagonal(s.c1, s.c2, s.c3, s.c0),
          Diagonal(s.c2, s.c3, s.c0, s.c1), Diagonal(s.c3, s.c0, s.c1, s.c2))
  }

  function InvShiftRows(s: State): State {
    State(Diagonal(s.c0, s.c3, s.c2, s.c1), Diagonal(s.c1, s.c0, s.c3, s.c2),
          Diagonal(s.c2, s.c1, s.c0, s.c3), Diagonal(s.c3, s.c2, s.c1, s.c0))
  }

  function MixColumns(s: State): State {
    State(MixColumn(s.c0), MixColumn(s.c1), MixColumn(s.c2), MixColumn(s.c3))
  }

  function InvMixColumns(s: State): State {
    State(InvMixColumn(s.c0), InvMixColumn(s.c1), InvMixColumn(s.c2), InvMixColumn(s.c3))
  }

  function AddRoundKey(s: State, k: State): State {
    State(Add(s.c0, k.c0), Add(s.c1, k.c1), Add(s.c2, k.c2), Add(s.c3, k.c3))
  }

  // ---------- key expansion, section 5.2 ----------

  function Rcon(j: nat): bv8
    requires j > 0
  {
    if j == 1 then 1 else Double(Rcon(j - 1))
  }

  function RotWord(w: bv32): bv32 { Pack(Row1(w), Row2(w), Row3(w), Row0(w)) }

  function KeyWord(sBox: ByteTable, key: State, i: nat): bv32 {
    if i == 0 then key.c0
    else if i == 1 then key.c1
    else if i == 2 then key.c2
    else if i == 3 then key.c3
    else if i % 4 == 0 then
      Add(KeyWord(sBox, key, i - 4), Add(SubWord(sBox, RotWord(KeyWord(sBox, key, i - 1))), Pack(Rcon(i / 4), 0, 0, 0)))
    else
      Add(KeyWord(sBox, key, i - 4), KeyWord(sBox, key, i - 1))
  }

  function RoundKey(sBox: ByteTable, key: State, r: nat): State {
    State(KeyWord(sBox, key, 4 * r), KeyWord(sBox, key, 4 * r + 1),
          KeyWord(sBox, key, 4 * r + 2), KeyWord(sBox, key, 4 * r + 3))
  }

  // ---------- the cipher, section 5.1, and the inverse cipher, section 5.3 ----------

  const ROUNDS := 10

  /** The state of Cipher after `r` full rounds. */
  function CipherRounds(sBox: ByteTable, key: State, x: State, r: nat): State {
    if r == 0 then AddRoundKey(x, RoundKey(sBox, key, 0))
    else AddRoundKey(MixColumns(ShiftRows(SubBytes(sBox, CipherRounds(sBox, key, x, r - 1)))), RoundKey(sBox, key, r))
  }

  function Cipher(sBox: ByteTable, key: State, x: State): State {
    AddRoundKey(ShiftRows(SubBytes(sBox, CipherRounds(sBox, key, x, ROUNDS - 1))), RoundKey(sBox, key, ROUNDS))
  }

  /** The state of InvCipher after `r` full rounds. */
  function InvCipherRounds(sBox: ByteTable, invSBox: ByteTable, key: State, y: State, r: nat): State
    requires r < ROUNDS
  {
    if r == 0 then AddRoundKey(y, RoundKey(sBox, key, ROUNDS))
    else
      InvMixColumns(AddRoundKey(SubBytes(invSBox, InvShiftRows(InvCipherRounds(sBox, invSBox, key, y, r - 1))),
                                RoundKey(sBox, key, ROUNDS - r)))
  }

  function InvCipher(sBox: ByteTable, invSBox: ByteTable, key: State, y: State): State {
    AddRoundKey(SubBytes(invSBox, InvShiftRows(InvCipherRounds(sBox, invSBox, key, y, ROUNDS - 1))),
      RoundKey(sBox, key, 0))
  }

  lemma AddKeyTwice(s: State, k: State)
    ensures AddRoundKey(AddRoundKey(s, k), k) == s
  {
    hide Add;
    AddTwice(s.c0, k.c0);
    AddTwice(s.c1, k.c1);
    AddTwice(s.c2, k.c2);
    AddTwice(s.c3, k.c3);
  }

  lemma InvMixColumnsMix(s: State)
    ensures InvMixColumns(MixColumns(s)) == s
  {
    hide MixColumn, InvMixColumn;
    InvMixMix(s.c0);
    InvMixMix(s.c1);
    InvMixMix(s.c2);
    InvMixMix(s.c3);
  }

  lemma SubWordRows(t: ByteTable, w: bv32)
    ensures Row0(SubWord(t, w)) == SubByte(t, Row0(w)) && Row1(SubWord(t, w)) == SubByte(t, Row1(w))
    ensures Row2(SubWord(t, w)) == SubByte(t, Row2(w)) && Row3(SubWord(t, w)) == SubByte(t, Row3(w))
  {
    hide Pack, Row0, Row1, Row2, Row3, SubByte;
    PackRows(SubByte(t, Row0(w)), SubByte(t, Row1(w)), SubByte(t, Row2(w)), SubByte(t, Row3(w)));
  }

  lemma SubWordInverse(sBox: ByteTable, invSBox: ByteTable, w: bv32)
    requires Inverses(sBox, invSBox)
    ensures SubWord(invSBox, SubWord(sBox, w)) == w
  {
    hide Pack, Row0, Row1, Row2, Row3, SubByte;
    SubWordRows(sBox, w);
    RowsPack(w);
  }

  lemma DiagonalRows(a: bv32, b: bv32, c: bv32, d: bv32)
    ensures Row0(Diagonal(a, b, c, d)) == Row0(a) && Row1(Diagonal(a, b, c, d)) == Row1(b)
    ensures Row2(Diagonal(a, b, c, d)) == Row2(c) && Row3(Diagonal(a, b, c, d)) == Row3(d)
  {
    hide Pack, Row0, Row1, Row2, Row3;
    PackRows(Row0(a), Row1(b), Row2(c), Row3(d));
  }

  lemma InvShiftShift(s: State)
    ensures InvShiftRows(ShiftRows(s)) == s
  {
    hide Pack, Row0, Row1, Row2, Row3;
    var t := ShiftRows(s);
    DiagonalRows(s.c0, s.c1, s.c2, s.c3);
    DiagonalRows(s.c1, s.c2, s.c3, s.c0);
    DiagonalRows(s.c2, s.c3, s.c0, s.c1);
    DiagonalRows(s.c3, s.c0, s.c1, s.c2);
    RowsPack(s.c0);
    RowsPack(s.c1);
    RowsPack(s.c2);
    RowsPack(s.c3);
  }

  /** Undoing one SubBytes and ShiftRows. */
  lemma InvSubShift(sBox: ByteTable, invSBox: ByteTable, s: State)
    requires Inverses(sBox, invSBox)
    ensures SubBytes(invSBox, InvShiftRows(ShiftRows(SubBytes(sBox, s)))) == s
  {
    hide ShiftRows, InvShiftRows, SubWord;
    InvShiftShift(SubBytes(sBox, s));
    SubWordInverse(sBox, invSBox, s.c0);
    SubWordInverse(sBox, invSBox, s.c1);
    SubWordInverse(sBox, invSBox, s.c2);
    SubWordInverse(sBox, invSBox, s.c3);
  }

  lemma {:induction false} InvRoundsUndo(sBox: ByteTable, invSBox: ByteTable, key: State, x: State, r: nat)
    requires Inverses(sBox, invSBox) && r < ROUNDS
    ensures InvCipherRounds(sBox, invSBox, key, Cipher(sBox, key, x), r)
         == ShiftRows(SubBytes(sBox, CipherRounds(sBox, key, x, ROUNDS - 1 - r)))
  {
    hide ShiftRows, SubBytes, AddRoundKey, MixColumns, InvMixColumns, InvShiftRows, RoundKey, Inverses;
    if r == 0 {
      AddKeyTwice(ShiftRows(SubBytes(sBox, CipherRounds(sBox, key, x, ROUNDS - 1))), RoundKey(sBox, key, ROUNDS));
    } else {
      InvRoundsUndo(sBox, invSBox, key, x, r - 1);
      var before := ShiftRows(SubBytes(sBox, CipherRounds(sBox, key, x, ROUNDS - 1 - r)));
      InvSubShift(sBox, invSBox, CipherRounds(sBox, key, x, ROUNDS - r));
      AddKeyTwice(MixColumns(before), RoundKey(sBox, key, ROUNDS - r));
      InvMixColumnsMix(before);
    }
  }

  /** The inverse cipher inverts the cipher, for every key and block. */
  lemma InvCipherUndoes(sBox: ByteTable, invSBox: ByteTable, key: State, x: State)
    requires Inverses(sBox, invSBox)
    ensures InvCipher(sBox, invSBox, key, Cipher(sBox, key, x)) == x
  {
    hide ShiftRows, SubBytes, AddRoundKey, InvShiftRows, RoundKey, Inverses, Cipher, InvCipherRounds;
    InvRoundsUndo(sBox, invSBox, key, x, ROUNDS - 1);
    InvSubShift(sBox, invSBox, CipherRounds(sBox, key, x, 0));
    AddKeyTwice(x, RoundKey(sBox, key, 0));
  }
}
