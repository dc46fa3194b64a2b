/** The examples of FIPS 197, over the S-box that the player builds: the key expansion of appendix A.1 and the cipher of
    appendix C.1. */
module AesVectors {
  import opened AesField
  import opened AesCipher
  import opened AesTables
  import opened AesFigure7
  import opened AesDecrypter
  import Cbc = AesCbc

  // ---------- the key expansion, section 5.2 ----------

  /** One round key from the one before it. */
  lemma NextRoundKey(s: ByteTable, key: State, r: nat)
    ensures var k := RoundKey(s, key, r);
      var w := Add(k.c0, Add(SubWord(s, RotWord(k.c3)), Pack(Rcon(r + 1), 0, 0, 0)));
      RoundKey(s, key, r + 1) == State(w, Add(k.c1, w), Add(k.c2, Add(k.c1, w)), Add(k.c3, Add(k.c2, Add(k.c1, w))))
  {
    hide Add, SubWord, RotWord, Pack, Rcon;
  }

  const KEY_A1 := State(0x2b7e1516, 0x28aed2a6, 0xabf71588, 0x09cf4f3c)

  const KEY_C1 := State(0x00010203, 0x04050607, 0x08090a0b, 0x0c0d0e0f)

  lemma FirstRoundKey(s: ByteTable, key: State)
    ensures RoundKey(s, key, 0) == key
  {
  }

  lemma KeysA1()
    ensures RoundKey(SBox(), KEY_A1, 1) == State(0xa0fafe17, 0x88542cb1, 0x23a33939, 0x2a6c7605)
    ensures RoundKey(SBox(), KEY_A1, 2) == State(0xf2c295f2, 0x7a96b943, 0x5935807a, 0x7359f67f)
    ensures RoundKey(SBox(), KEY_A1, 3) == State(0x3d80477d, 0x4716fe3e, 0x1e237e44, 0x6d7a883b)
    ensures RoundKey(SBox(), KEY_A1, 4) == State(0xef44a541, 0xa8525b7f, 0xb671253b, 0xdb0bad00)
    ensures RoundKey(SBox(), KEY_A1, 5) == State(0xd4d1c6f8, 0x7c839d87, 0xcaf2b8bc, 0x11f915bc)
    ensures RoundKey(SBox(), KEY_A1, 6) == State(0x6d88a37a, 0x110b3efd, 0xdbf98641, 0xca0093fd)
    ensures RoundKey(SBox(), KEY_A1, 7) == State(0x4e54f70e, 0x5f5fc9f3, 0x84a64fb2, 0x4ea6dc4f)
    ensures RoundKey(SBox(), KEY_A1, 8) == State(0xead27321, 0xb58dbad2, 0x312bf560, 0x7f8d292f)
    ensures RoundKey(SBox(), KEY_A1, 9) == State(0xac7766f3, 0x19fadc21, 0x28d12941, 0x575c006e)
    ensures RoundKey(SBox(), KEY_A1, 10) == State(0xd014f9a8, 0xc9ee2589, 0xe13f0cc8, 0xb6630ca6)
  {
    hide SBox, SubByte, RoundKey;
    Turns0();
    Turns1();
    Turns33();
    Turns65();
    Turns97();
    Turns129();
    Turns161();
    Turns193();
    Turns225();
    FirstRoundKey(SBox(), KEY_A1);
    NextRoundKey(SBox(), KEY_A1, 0);
    NextRoundKey(SBox(), KEY_A1, 1);
    NextRoundKey(SBox(), KEY_A1, 2);
    NextRoundKey(SBox(), KEY_A1, 3);
    NextRoundKey(SBox(), KEY_A1, 4);
    NextRoundKey(SBox(), KEY_A1, 5);
    NextRoundKey(SBox(), KEY_A1, 6);
    NextRoundKey(SBox(), KEY_A1, 7);
    NextRoundKey(SBox(), KEY_A1, 8);
    NextRoundKey(SBox(), KEY_A1, 9);
  }

  lemma KeysC1()
    ensures RoundKey(SBox(), KEY_C1, 1) == State(0xd6aa74fd, 0xd2af72fa, 0xdaa678f1, 0xd6ab76fe)
    ensures RoundKey(SBox(), KEY_C1, 2) == State(0xb692cf0b, 0x643dbdf1, 0xbe9bc500, 0x6830b3fe)
    ensures RoundKey(SBox(), KEY_C1, 3) == State(0xb6ff744e, 0xd2c2c9bf, 0x6c590cbf, 0x0469bf41)
    ensures RoundKey(SBox(), KEY_C1, 4) == State(0x47f7f7bc, 0x95353e03, 0xf96c32bc, 0xfd058dfd)
    ensures RoundKey(SBox(), KEY_C1, 5) == State(0x3caaa3e8, 0xa99f9deb, 0x50f3af57, 0xadf622aa)
    ensures RoundKey(SBox(), KEY_C1, 6) == State(0x5e390f7d, 0xf7a69296, 0xa7553dc1, 0x0aa31f6b)
    ensures RoundKey(SBox(), KEY_C1, 7) == State(0x14f9701a, 0xe35fe28c, 0x440adf4d, 0x4ea9c026)
    ensures RoundKey(SBox(), KEY_C1, 8) == State(0x47438735, 0xa41c65b9, 0xe016baf4, 0xaebf7ad2)
    ensures RoundKey(SBox(), KEY_C1, 9) == State(0x549932d1, 0xf0855768, 0x1093ed9c, 0xbe2c974e)
    ensures RoundKey(SBox(), KEY_C1, 10) == State(0x13111d7f, 0xe3944a17, 0xf307a78b, 0x4d2b30c5)
  {
    hide SBox, SubByte, RoundKey;
    Turns0();
    Turns1();
    Turns33();
    Turns65();
    Turns97();
    Turns129();
    Turns161();
    Turns193();
    Turns225();
    FirstRoundKey(SBox(), KEY_C1);
    NextRoundKey(SBox(), KEY_C1, 0);
    NextRoundKey(SBox(), KEY_C1, 1);
    NextRoundKey(SBox(), KEY_C1, 2);
    NextRoundKey(SBox(), KEY_C1, 3);
    NextRoundKey(SBox(), KEY_C1, 4);
    NextRoundKey(SBox(), KEY_C1, 5);
    NextRoundKey(SBox(), KEY_C1, 6);
    NextRoundKey(SBox(), KEY_C1, 7);
    NextRoundKey(SBox(), KEY_C1, 8);
    NextRoundKey(SBox(), KEY_C1, 9);
  }

  // ---------- the cipher, section 5.1 ----------

  const PLAIN_C1 := State(0x00112233, 0x44556677, 0x8899aabb, 0xccddeeff)

  const CIPHERTEXT_C1 := State(0x69c4e0d8, 0x6a7b0430, 0xd8cdb780, 0x70b4c55a)

  lemma NextRound(s: ByteTable, key: State, x: State, r: nat)
    ensures CipherRounds(s, key, x, r + 1) ==
      AddRoundKey(MixColumns(ShiftRows(SubBytes(s, CipherRounds(s, key, x, r)))), RoundKey(s, key, r + 1))
  {
  }

  lemma NoRound(s: ByteTable, key: State, x: State)
    ensures CipherRounds(s, key, x, 0) == AddRoundKey(x, RoundKey(s, key, 0))
  {
  }

  lemma RoundsC1()
    ensures CipherRounds(SBox(), KEY_C1, PLAIN_C1, 0) == State(0x00102030, 0x40506070, 0x8090a0b0, 0xc0d0e0f0)
    ensures CipherRounds(SBox(), KEY_C1, PLAIN_C1, 1) == State(0x89d810e8, 0x855ace68, 0x2d1843d8, 0xcb128fe4)
    ensures CipherRounds(SBox(), KEY_C1, PLAIN_C1, 2) == State(0x4915598f, 0x55e5d7a0, 0xdaca94fa, 0x1f0a63f7)
    ensures CipherRounds(SBox(), KEY_C1, PLAIN_C1, 3) == State(0xfa636a28, 0x25b339c9, 0x40668a31, 0x57244d17)
    ensures CipherRounds(SBox(), KEY_C1, PLAIN_C1, 4) == State(0x24724023, 0x6966b3fa, 0x6ed27532, 0x88425b6c)
  {
    hide SBox, SubByte, RoundKey, CipherRounds;
    Turns0();
    Turns1();
    Turns33();
    Turns65();
    Turns97();
    Turns129();
    Turns161();
    Turns193();
    Turns225();
    KeysC1();
    FirstRoundKey(SBox(), KEY_C1);
    NoRound(SBox(), KEY_C1, PLAIN_C1);
    NextRound(SBox(), KEY_C1, PLAIN_C1, 0);
    NextRound(SBox(), KEY_C1, PLAIN_C1, 1);
    NextRound(SBox(), KEY_C1, PLAIN_C1, 2);
    NextRound(SBox(), KEY_C1, PLAIN_C1, 3);
  }

  lemma LastRoundsC1()
    ensures CipherRounds(SBox(), KEY_C1, PLAIN_C1, 5) == State(0xc81677bc, 0x9b7ac93b, 0x25027992, 0xb0261996)
    ensures CipherRounds(SBox(), KEY_C1, PLAIN_C1, 6) == State(0xc62fe109, 0xf75eedc3, 0xcc79395d, 0x84f9cf5d)
    ensures CipherRounds(SBox(), KEY_C1, PLAIN_C1, 7) == State(0xd1876c0f, 0x79c4300a, 0xb45594ad, 0xd66ff41f)
    ensures CipherRounds(SBox(), KEY_C1, PLAIN_C1, 8) == State(0xfde3bad2, 0x05e5d0d7, 0x3547964e, 0xf1fe37f1)
    ensures CipherRounds(SBox(), KEY_C1, PLAIN_C1, 9) == State(0xbd6e7c3d, 0xf2b5779e, 0x0b61216e, 0x8b10b689)
  {
    hide SBox, SubByte, RoundKey, CipherRounds;
    Turns0();
    Turns1();
    Turns33();
    Turns65();
    Turns97();
    Turns129();
    Turns161();
    Turns193();
    Turns225();
    KeysC1();
    RoundsC1();
    NextRound(SBox(), KEY_C1, PLAIN_C1, 4);
    NextRound(SBox(), KEY_C1, PLAIN_C1, 5);
    NextRound(SBox(), KEY_C1, PLAIN_C1, 6);
    NextRound(SBox(), KEY_C1, PLAIN_C1, 7);
    NextRound(SBox(), KEY_C1, PLAIN_C1, 8);
  }

  /** The example of appendix C.1. */
  lemma CipherC1()
    ensures Cipher(SBox(), KEY_C1, PLAIN_C1) == CIPHERTEXT_C1
  {
    hide SBox, SubByte, RoundKey, CipherRounds;
    Turns0();
    Turns1();
    Turns33();
    Turns65();
    Turns97();
    Turns129();
    Turns161();
    Turns193();
    Turns225();
    KeysC1();
    LastRoundsC1();
  }

  // ---------- the same as the player sees it ----------

  const KEY_BYTES: Cbc.Bytes :=
    [0x00, 0x01, 0x02, 0x03, 0x04, 0x05, 0x06, 0x07, 0x08, 0x09, 0x0a, 0x0b, 0x0c, 0x0d, 0x0e, 0x0f]

  const PLAIN_BYTES: Cbc.Bytes :=
    [0x00, 0x11, 0x22, 0x33, 0x44, 0x55, 0x66, 0x77, 0x88, 0x99, 0xaa, 0xbb, 0xcc, 0xdd, 0xee, 0xff]

  const CIPHER_BYTES: Cbc.Bytes :=
    [0x69, 0xc4, 0xe0, 0xd8, 0x6a, 0x7b, 0x04, 0x30, 0xd8, 0xcd, 0xb7, 0x80, 0x70, 0xb4, 0xc5, 0x5a]

  /** Bytes added one by one. */
  function AddBytes(a: Cbc.Bytes, b: Cbc.Bytes): (s: Cbc.Bytes)
    requires |a| == |b|
    ensures |s| == |a|
  {
    seq(|a|, i requires 0 <= i < |a| => Add8(a[i], b[i]))
  }

  lemma KeyC1()
    ensures Cbc.Block(KEY_BYTES) == KEY_C1
  {
    BlockWords(KEY_BYTES);
    assert KEY_BYTES[0..4] == [0x00, 0x01, 0x02, 0x03] && KEY_BYTES[4..8] == [0x04, 0x05, 0x06, 0x07];
    assert KEY_BYTES[8..12] == [0x08, 0x09, 0x0a, 0x0b] && KEY_BYTES[12..16] == [0x0c, 0x0d, 0x0e, 0x0f];
    assert Pack(0x00, 0x01, 0x02, 0x03) == 0x00010203 && Pack(0x04, 0x05, 0x06, 0x07) == 0x04050607;
    assert Pack(0x08, 0x09, 0x0a, 0x0b) == 0x08090a0b && Pack(0x0c, 0x0d, 0x0e, 0x0f) == 0x0c0d0e0f;
  }

  lemma CiphertextC1()
    ensures Cbc.Block(CIPHER_BYTES) == CIPHERTEXT_C1
  {
    BlockWords(CIPHER_BYTES);
    assert CIPHER_BYTES[0..4] == [0x69, 0xc4, 0xe0, 0xd8] && CIPHER_BYTES[4..8] == [0x6a, 0x7b, 0x04, 0x30];
    assert CIPHER_BYTES[8..12] == [0xd8, 0xcd, 0xb7, 0x80] && CIPHER_BYTES[12..16] == [0x70, 0xb4, 0xc5, 0x5a];
    assert Pack(0x69, 0xc4, 0xe0, 0xd8) == 0x69c4e0d8 && Pack(0x6a, 0x7b, 0x04, 0x30) == 0x6a7b0430;
    assert Pack(0xd8, 0xcd, 0xb7, 0x80) == 0xd8cdb780 && Pack(0x70, 0xb4, 0xc5, 0x5a) == 0x70b4c55a;
  }

  lemma PlaintextC1()
    ensures Cbc.BlockBytes(PLAIN_C1) == PLAIN_BYTES
  {
    assert Cbc.WordBytes(0x00112233) == [0x00, 0x11, 0x22, 0x33];
    assert Cbc.WordBytes(0x44556677) == [0x44, 0x55, 0x66, 0x77];
    assert Cbc.WordBytes(0x8899aabb) == [0x88, 0x99, 0xaa, 0xbb];
    assert Cbc.WordBytes(0xccddeeff) == [0xcc, 0xdd, 0xee, 0xff];
  }

  lemma WordAdd(v: bv32, w: bv32)
    ensures Cbc.WordBytes(Add(v, w)) == AddBytes(Cbc.WordBytes(v), Cbc.WordBytes(w))
  {
    hide Row0, Row1, Row2, Row3, Add, Add8;
    RowsAdd(v, w);
  }

  lemma AddBytesAppend(a: Cbc.Bytes, b: Cbc.Bytes, c: Cbc.Bytes, d: Cbc.Bytes)
    requires |a| == |c| && |b| == |d|
    ensures AddBytes(a + b, c + d) == AddBytes(a, c) + AddBytes(b, d)
  {
    hide Add8;
  }

  lemma BlockAdd(s: State, t: State)
    ensures Cbc.BlockBytes(AddRoundKey(s, t)) == AddBytes(Cbc.BlockBytes(s), Cbc.BlockBytes(t))
  {
    hide Cbc.WordBytes, Add, AddBytes;
    WordLengths(s);
    WordLengths(t);
    WordAdd(s.c0, t.c0);
    WordAdd(s.c1, t.c1);
    WordAdd(s.c2, t.c2);
    WordAdd(s.c3, t.c3);
    var a, b := Cbc.WordBytes(s.c0), Cbc.WordBytes(t.c0);
    AddBytesAppend(a, Cbc.WordBytes(s.c1), b, Cbc.WordBytes(t.c1));
    a, b := a + Cbc.WordBytes(s.c1), b + Cbc.WordBytes(t.c1);
    AddBytesAppend(a, Cbc.WordBytes(s.c2), b, Cbc.WordBytes(t.c2));
    AddBytesAppend(a + Cbc.WordBytes(s.c2), Cbc.WordBytes(s.c3), b + Cbc.WordBytes(t.c2), Cbc.WordBytes(t.c3));
  }

  lemma WordLengths(s: State)
    ensures |Cbc.WordBytes(s.c0)| == |Cbc.WordBytes(s.c1)| == |Cbc.WordBytes(s.c2)| == |Cbc.WordBytes(s.c3)| == 4
  {
  }

  /** Decrypted under any initial vector, the ciphertext of appendix C.1 is its plaintext added to the vector. */
  lemma DecryptsC1(iv: Cbc.Bytes)
    requires |iv| == 16
    ensures Cbc.DecryptBytes(StandardBoxes(), KEY_BYTES, iv, CIPHER_BYTES) == AddBytes(PLAIN_BYTES, iv)
  {
    hide Cbc.Block, Cbc.BlockBytes, SBox, InvSBox, Cipher, InvCipher, AddRoundKey, AddBytes;
    KeyC1();
    CiphertextC1();
    PlaintextC1();
    CipherC1();
    StandardBoxesValid();
    InvCipherUndoes(SBox(), InvSBox(), KEY_C1, PLAIN_C1);
    Cbc.BytesOfBlock(iv);
    BlockAdd(PLAIN_C1, Cbc.Block(iv));
    OneBlock(StandardBoxes(), KEY_C1, iv, CIPHER_BYTES);
  }

  lemma OneBlock(boxes: Cbc.Boxes, key: State, iv: Cbc.Bytes, c: Cbc.Bytes)
    requires |iv| == |c| == 16
    ensures Cbc.DecryptWith(boxes, key, iv, c) ==
      Cbc.BlockBytes(Cbc.DecryptBlock(boxes, key, Cbc.Block(iv), Cbc.Block(c)))
  {
    hide Cbc.Block, Cbc.BlockBytes, Cbc.DecryptBlock;
    assert c[..16] == c && c[16..] == [];
    assert Cbc.Blocks(c) == [Cbc.Block(c)] && [Cbc.Block(c)][1..] == [];
    var p := Cbc.DecryptBlock(boxes, key, Cbc.Block(iv), Cbc.Block(c));
    assert Cbc.Decrypt(boxes, key, Cbc.Block(iv), [Cbc.Block(c)]) == [p] && [p][1..] == [];
  }

  /** The player's own decrypter object, from the bytes of the key on. */
  method PlayerDecryptsC1(iv: Cbc.Bytes) returns (plain: Cbc.Bytes)
    requires |iv| == 16
    ensures plain == AddBytes(PLAIN_BYTES, iv)
  {
    hide Cbc.DecryptWith, Cbc.Block, AddBytes, StandardBoxes, IsSchedule, IsInvSchedule;
    var decrypter := new Decrypter();
    assert KEY_BYTES[..16] == KEY_BYTES && iv[..16] == iv;
    decrypter.ExpandKey(KEY_BYTES);
    plain := decrypter.Decrypt(CIPHER_BYTES, iv);
    DecryptsC1(iv);
  }
}
