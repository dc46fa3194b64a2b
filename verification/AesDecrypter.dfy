/** The table-driven AES-128 CBC decrypter of the player: its key schedule and its block loop. */
module AesDecrypter {
  import opened AesField
  import opened AesCipher
  import opened AesTables
  import Cbc = AesCbc

  type Bytes = Cbc.Bytes

  /** The byte swap between the host's little-endian words and big-endian words. */
  function NetworkToHostOrderSwap(t: bv32): bv32 {
    (t << 24) | ((0xff00 & t) << 8) | ((0xff0000 & t) >> 8) | (t >> 24)
  }

  function HostWord(b: Bytes): bv32
    requires |b| == 4
  {
    Pack(b[3], b[2], b[1], b[0])
  }

  lemma SwapPack(a: bv8, b: bv8, c: bv8, d: bv8)
    ensures NetworkToHostOrderSwap(Pack(d, c, b, a)) == Pack(a, b, c, d)
  {
  }

  lemma SwapRows(w: bv32)
    ensures var v := NetworkToHostOrderSwap(w);
      Row0(v) == Row3(w) && Row1(v) == Row2(w) && Row2(v) == Row1(w) && Row3(v) == Row0(w)
  {
  }

  /** Word by word, a typed-array view of a buffer on a little-endian host. */
  function HostWords(b: Bytes): (w: seq<bv32>)
    requires |b| % 4 == 0
    ensures |w| == |b| / 4
    ensures forall i :: 0 <= i < |w| ==> w[i] == HostWord(b[4 * i..4 * i + 4])
  {
    seq(|b| / 4, i requires 0 <= i < |b| / 4 => HostWord(b[4 * i..4 * i + 4]))
  }

  /** One word of a middle round: four table words and a key word, combined by exclusive or. */
  function RoundWord(t: Tables, a: bv32, b: bv32, c: bv32, d: bv32, k: bv32): bv32 {
    Add(Sum4(Look(t.mix0, Row0(a)), Look(t.mix1, Row1(b)), Look(t.mix2, Row2(c)), Look(t.mix3, Row3(d))), k)
  }

  function Shifted(b: bv8, bits: nat): bv32
    requires bits <= 24
  {
    (b as bv32) << bits
  }

  /** One word of the last round: four S-box bytes moved to their rows, and a key word. */
  function LastWord(t: ByteTable, a: bv32, b: bv32, c: bv32, d: bv32, k: bv32): bv32 {
    Add(Sum4(Shifted(SubByte(t, Row0(a)), 24), Shifted(SubByte(t, Row1(b)), 16),
             Shifted(SubByte(t, Row2(c)), 8), Shifted(SubByte(t, Row3(d)), 0)), k)
  }

  lemma ShiftedPack(b: bv8)
    ensures Shifted(b, 24) == Pack(b, 0, 0, 0) && Shifted(b, 16) == Pack(0, b, 0, 0)
    ensures Shifted(b, 8) == Pack(0, 0, b, 0) && Shifted(b, 0) == Pack(0, 0, 0, b)
  {
  }

  lemma LastWordIs(t: ByteTable, a: bv32, b: bv32, c: bv32, d: bv32, k: bv32)
    ensures LastWord(t, a, b, c, d, k) == Add(SubWord(t, Diagonal(a, b, c, d)), k)
  {
    hide Pack, Row0, Row1, Row2, Row3, SubByte, Add, Sum4, Diagonal, Shifted;
    ShiftedPack(SubByte(t, Row0(a)));
    ShiftedPack(SubByte(t, Row1(b)));
    ShiftedPack(SubByte(t, Row2(c)));
    ShiftedPack(SubByte(t, Row3(d)));
    PackSplit(SubByte(t, Row0(a)), SubByte(t, Row1(b)), SubByte(t, Row2(c)), SubByte(t, Row3(d)));
    DiagonalRows(a, b, c, d);
  }

  /** One word of a round: a whole InvSubBytes, InvShiftRows, AddRoundKey and InvMixColumns step (section 5.3.5). */
  lemma RoundWordIs(t: Tables, a: bv32, b: bv32, c: bv32, d: bv32, k: bv32)
    requires t.Valid()
    ensures RoundWord(t, a, b, c, d, InvMixColumn(k)) == InvMixColumn(Add(SubWord(t.invSBox, Diagonal(a, b, c, d)), k))
  {
    hide Pack, Row0, Row1, Row2, Row3, SubByte, Look, InvMix0, InvMix1, InvMix2, InvMix3, InvMixColumn, Add, Sum4,
      Diagonal, SubWord;
    var w := SubWord(t.invSBox, Diagonal(a, b, c, d));
    InvMixColumnAdd(w, k);
    SubWordRows(t.invSBox, Diagonal(a, b, c, d));
    DiagonalRows(a, b, c, d);
    InvMixColumnOf(w);
  }

  lemma InvMixColumnOf(w: bv32)
    ensures InvMixColumn(w) == Sum4(InvMix0(Row0(w)), InvMix1(Row1(w)), InvMix2(Row2(w)), InvMix3(Row3(w)))
  {
  }

  /** Word `s` of the decryption schedule: round keys backwards, columns in the order 0, 3, 2, 1, the inner rounds
      mixed. */
  function InvKeyWord(sBox: ByteTable, key: State, s: nat): bv32
    requires s < 44
  {
    var k := KeyWord(sBox, key, if s % 4 == 0 then 40 - s else 44 - s);
    if s < 4 || s >= 40 then k else InvMixColumn(k)
  }

  ghost predicate IsSchedule(t: Tables, key: State, h: seq<bv32>) {
    |h| == 44 && forall a: nat :: a < 44 ==> h[a] == KeyWord(t.sBox, key, a)
  }

  ghost predicate IsInvSchedule(t: Tables, key: State, d: seq<bv32>) {
    |d| == 44 && forall s: nat :: s < 44 ==> d[s] == InvKeyWord(t.sBox, key, s)
  }

  const RCON: seq<bv8> := [0, 1, 2, 4, 8, 16, 32, 64, 128, 27, 54]

  lemma RconTable(j: nat)
    requires 1 <= j <= 10
    ensures RCON[j] == Rcon(j)
  {
    assert Rcon(1) == 1 && Rcon(2) == 2 && Rcon(3) == 4 && Rcon(4) == 8 && Rcon(5) == 16;
    assert Rcon(6) == 32 && Rcon(7) == 64 && Rcon(8) == 128 && Rcon(9) == 27 && Rcon(10) == 54;
  }

  function RotateByte(l: bv32): bv32 { (l << 8) | (l >> 24) }

  lemma RotateByteIs(l: bv32)
    ensures RotateByte(l) == RotWord(l)
  {
  }

  /** A middle round on the four registers: columns 0, 1, 2, 3 are the source's o, h, u, l. */
  function Round(t: Tables, s: State, y: seq<bv32>, v: nat): State
    requires v + 4 <= |y|
  {
    var (o, h, u, l) := (s.c0, s.c1, s.c2, s.c3);
    State(RoundWord(t, o, l, u, h, y[v]), RoundWord(t, h, o, l, u, y[v + 3]),
          RoundWord(t, u, h, o, l, y[v + 2]), RoundWord(t, l, u, h, o, y[v + 1]))
  }

  function LastRound(t: Tables, s: State, y: seq<bv32>, v: nat): State
    requires v + 4 <= |y|
  {
    var (o, h, u, l) := (s.c0, s.c1, s.c2, s.c3);
    State(LastWord(t.invSBox, o, l, u, h, y[v]), LastWord(t.invSBox, h, o, l, u, y[v + 3]),
          LastWord(t.invSBox, u, h, o, l, y[v + 2]), LastWord(t.invSBox, l, u, h, o, y[v + 1]))
  }

  lemma FirstStep(t: Tables, key: State, block: State, y: seq<bv32>)
    requires IsInvSchedule(t, key, y)
    ensures State(Add(block.c0, y[0]), Add(block.c1, y[3]), Add(block.c2, y[2]), Add(block.c3, y[1]))
         == InvCipherRounds(t.sBox, t.invSBox, key, block, 0)
  {
    hide KeyWord, Add;
  }

  /** A round of the inverse cipher, column by column. */
  lemma InvRoundColumns(t: Tables, key: State, block: State, m: nat)
    requires 1 <= m < ROUNDS
    ensures var s := InvCipherRounds(t.sBox, t.invSBox, key, block, m - 1);
      var k := RoundKey(t.sBox, key, ROUNDS - m);
      InvCipherRounds(t.sBox, t.invSBox, key, block, m)
        == State(InvMixColumn(Add(SubWord(t.invSBox, Diagonal(s.c0, s.c3, s.c2, s.c1)), k.c0)),
                 InvMixColumn(Add(SubWord(t.invSBox, Diagonal(s.c1, s.c0, s.c3, s.c2)), k.c1)),
                 InvMixColumn(Add(SubWord(t.invSBox, Diagonal(s.c2, s.c1, s.c0, s.c3)), k.c2)),
                 InvMixColumn(Add(SubWord(t.invSBox, Diagonal(s.c3, s.c2, s.c1, s.c0)), k.c3)))
  {
    hide InvMixColumn, KeyWord, Add, SubWord, Diagonal;
  }

  /** The words of the decryption schedule for a middle round are the mixed words of its round key. */
  lemma InvKeyWords(t: Tables, key: State, y: seq<bv32>, m: nat)
    requires IsInvSchedule(t, key, y) && 1 <= m < ROUNDS
    ensures var k := RoundKey(t.sBox, key, ROUNDS - m);
      y[4 * m] == InvMixColumn(k.c0) && y[4 * m + 3] == InvMixColumn(k.c1) && y[4 * m + 2] == InvMixColumn(k.c2) &&
        y[4 * m + 1] == InvMixColumn(k.c3)
  {
    hide InvMixColumn, KeyWord;
  }

  /** A middle round of the block loop is a round of the inverse cipher. */
  lemma RoundStep(t: Tables, key: State, block: State, y: seq<bv32>, m: nat)
    requires t.Valid() && IsInvSchedule(t, key, y) && 1 <= m < ROUNDS
    ensures Round(t, InvCipherRounds(t.sBox, t.invSBox, key, block, m - 1), y, 4 * m)
         == InvCipherRounds(t.sBox, t.invSBox, key, block, m)
  {
    hide RoundWord, InvMixColumn, KeyWord, RoundKey, Add, SubWord, Diagonal, InvCipherRounds;
    var k := RoundKey(t.sBox, key, ROUNDS - m);
    var s := InvCipherRounds(t.sBox, t.invSBox, key, block, m - 1);
    InvRoundColumns(t, key, block, m);
    InvKeyWords(t, key, y, m);
    RoundWordIs(t, s.c0, s.c3, s.c2, s.c1, k.c0);
    RoundWordIs(t, s.c1, s.c0, s.c3, s.c2, k.c1);
    RoundWordIs(t, s.c2, s.c1, s.c0, s.c3, k.c2);
    RoundWordIs(t, s.c3, s.c2, s.c1, s.c0, k.c3);
  }

  lemma LastStep(t: Tables, key: State, block: State, y: seq<bv32>)
    requires IsInvSchedule(t, key, y)
    ensures LastRound(t, InvCipherRounds(t.sBox, t.invSBox, key, block, ROUNDS - 1), y, 40)
         == InvCipher(t.sBox, t.invSBox, key, block)
  {
    hide LastWord, KeyWord, Add, SubWord, Diagonal, InvCipherRounds;
    var s := InvCipherRounds(t.sBox, t.invSBox, key, block, ROUNDS - 1);
    LastWordIs(t.invSBox, s.c0, s.c3, s.c2, s.c1, y[40]);
    LastWordIs(t.invSBox, s.c1, s.c0, s.c3, s.c2, y[43]);
    LastWordIs(t.invSBox, s.c2, s.c1, s.c0, s.c3, y[42]);
    LastWordIs(t.invSBox, s.c3, s.c2, s.c1, s.c0, y[41]);
  }

  /** The bytes of a word array of whole blocks on a little-endian host. */
  function HostBytes(w: seq<bv32>): Bytes
    requires |w| % 4 == 0
  {
    if w == [] then []
    else LittleEndian(w[0]) + LittleEndian(w[1]) + LittleEndian(w[2]) + LittleEndian(w[3]) + HostBytes(w[4..])
  }

  function LittleEndian(w: bv32): Bytes { [Row3(w), Row2(w), Row1(w), Row0(w)] }

  ghost predicate HoldsBlock(w: seq<bv32>, i: nat, s: State)
    requires i + 4 <= |w|
  {
    && w[i] == NetworkToHostOrderSwap(s.c0) && w[i + 1] == NetworkToHostOrderSwap(s.c1)
    && w[i + 2] == NetworkToHostOrderSwap(s.c2) && w[i + 3] == NetworkToHostOrderSwap(s.c3)
  }

  lemma SwappedBlockBytes(w: seq<bv32>, s: State)
    requires |w| >= 4 && HoldsBlock(w, 0, s)
    ensures LittleEndian(w[0]) + LittleEndian(w[1]) + LittleEndian(w[2]) + LittleEndian(w[3]) == Cbc.BlockBytes(s)
  {
    hide NetworkToHostOrderSwap, Row0, Row1, Row2, Row3;
    SwapRows(s.c0);
    SwapRows(s.c1);
    SwapRows(s.c2);
    SwapRows(s.c3);
  }

  lemma {:induction false} HostBytesAre(w: seq<bv32>, ps: seq<State>)
    requires |w| == 4 * |ps|
    requires Stored(w, ps, |ps|)
    ensures HostBytes(w) == Cbc.Flatten(ps)
  {
    hide NetworkToHostOrderSwap, LittleEndian, Cbc.BlockBytes;
    if ps == [] {
    } else {
      assert HoldsBlock(w, 4 * 0, ps[0]);
      forall j: nat | j < |ps[1..]| ensures HoldsBlock(w[4..], 4 * j, ps[1..][j]) {
        assert HoldsBlock(w, 4 * (j + 1), ps[j + 1]);
      }
      HostBytesAre(w[4..], ps[1..]);
      SwappedBlockBytes(w, ps[0]);
    }
  }

  lemma HostWordSwapped(b: Bytes)
    requires |b| == 4
    ensures NetworkToHostOrderSwap(HostWord(b)) == Cbc.Word(b)
  {
    hide NetworkToHostOrderSwap, Pack;
    SwapPack(b[0], b[1], b[2], b[3]);
  }

  lemma SliceOfSlice<T>(b: seq<T>, lo: nat, hi: nat, i: nat, j: nat)
    requires lo <= hi <= |b| && i <= j <= hi - lo
    ensures b[lo..hi][i..j] == b[lo + i..lo + j]
  {
    var l, r := b[lo..hi][i..j], b[lo + i..lo + j];
    assert |l| == |r| && forall k :: 0 <= k < |l| ==> l[k] == b[lo + i + k] && r[k] == b[lo + i + k];
  }

  lemma SwappedWord(b: Bytes, w: seq<bv32>, k: nat)
    requires |b| == 4 * |w| && k < |w| && w == HostWords(b)
    ensures NetworkToHostOrderSwap(w[k]) == Cbc.Word(b[4 * k..4 * k + 4])
  {
    hide NetworkToHostOrderSwap, HostWord, HostWords, Cbc.Word;
    HostWordSwapped(b[4 * k..4 * k + 4]);
  }

  /** The i-th word of block j. */
  lemma SwappedWordOf(b: Bytes, w: seq<bv32>, j: nat, i: nat, n: nat)
    requires |b| == 16 * n && |w| == 4 * n && j < n && i < 4 && w == HostWords(b)
    ensures NetworkToHostOrderSwap(w[4 * j + i]) == Cbc.Word(b[16 * j..16 * j + 16][4 * i..4 * i + 4])
  {
    hide NetworkToHostOrderSwap, HostWords, Cbc.Word;
    SwappedWord(b, w, 4 * j + i);
    SliceOfSlice(b, 16 * j, 16 * j + 16, 4 * i, 4 * i + 4);
  }

  lemma BlockWords(c: Bytes)
    requires |c| == 16
    ensures Cbc.Block(c) == State(Cbc.Word(c[0..4]), Cbc.Word(c[4..8]), Cbc.Word(c[8..12]), Cbc.Word(c[12..16]))
  {
    hide Cbc.Word;
    assert c[..4] == c[0..4] && c[12..] == c[12..16];
  }

  function HostBlock(w: seq<bv32>, e: nat): State
    requires e + 4 <= |w|
  {
    State(NetworkToHostOrderSwap(w[e]), NetworkToHostOrderSwap(w[e + 1]), NetworkToHostOrderSwap(w[e + 2]),
      NetworkToHostOrderSwap(w[e + 3]))
  }

  /** The words read from a host-order view, swapped, are the columns of the block. */
  lemma SwappedWords(b: Bytes, w: seq<bv32>, j: nat, n: nat)
    requires |b| == 16 * n && |w| == 4 * n && j < n && w == HostWords(b)
    ensures |Cbc.Blocks(b)| == n && Cbc.Blocks(b)[j] == HostBlock(w, 4 * j)
  {
    hide NetworkToHostOrderSwap, Cbc.Word, Cbc.Block, HostWords, Cbc.Blocks;
    Cbc.BlocksAt(b, j);
    SwappedWordOf(b, w, j, 0, n);
    SwappedWordOf(b, w, j, 1, n);
    SwappedWordOf(b, w, j, 2, n);
    SwappedWordOf(b, w, j, 3, n);
    BlockWords(b[16 * j..16 * j + 16]);
  }

  class Decrypter {
    const tables: Tables
    var key: seq<bv32>
    var keySize: nat
    var ksRows: nat
    var keySchedule: seq<bv32>
    var invKeySchedule: seq<bv32>

    ghost function KeyState(): State
      reads this
      requires |key| == 4
    {
      State(key[0], key[1], key[2], key[3])
    }

    ghost predicate Valid()
      reads this
    {
      && tables.Valid() && tables.Boxes() == StandardBoxes()
      && (key != [] ==>
            && |key| == 4 && keySize == 4 && ksRows == 44
            && IsSchedule(tables, KeyState(), keySchedule) && IsInvSchedule(tables, KeyState(), invKeySchedule))
    }

    constructor ()
      ensures Valid()
    {
      var t := InitTable();
      tables := t;
      key, keySize, ksRows, keySchedule, invKeySchedule := [], 0, 0, [], [];
    }

    /** Installs a key, unless it is the one already installed. */
    method ExpandKey(k: Bytes)
      requires Valid() && |k| >= 16
      modifies this
      ensures Valid() && |key| == 4 && KeyState() == Cbc.Block(k[..16])
      ensures old(key) != [] && old(KeyState()) == Cbc.Block(k[..16]) ==> unchanged(this)
    {
      hide KeyWord, Add, SubWord, Pack, InvMixColumn, RotWord, Look, RotateByte, IsSchedule, IsInvSchedule,
        StandardBoxes, Cbc.Word, Cbc.Block;
      var e := [Cbc.Word(k[0..4]), Cbc.Word(k[4..8]), Cbc.Word(k[8..12]), Cbc.Word(k[12..16])];
      assert k[..16][0..4] == k[0..4] && k[..16][4..8] == k[4..8];
      assert k[..16][8..12] == k[8..12] && k[..16][12..16] == k[12..16];
      BlockWords(k[..16]);
      var same, i := true, 0;
      while i < |e| && same
        invariant 0 <= i <= 4 && (same ==> i <= |key| && e[..i] == key[..i])
        invariant !same ==> e != key
      {
        same := i < |key| && e[i] == key[i];
        i := i + 1;
      }
      if !same {
        key, keySize, ksRows := e, 4, 44;
        ghost var ks := KeyState();
        keySchedule := ForwardSchedule(tables, e);
        invKeySchedule := InverseSchedule(tables, ks, keySchedule);
      } else {
        assert e == key;
      }
    }

    /** Decrypts a buffer of whole blocks. */
    method Decrypt(buffer: Bytes, iv: Bytes) returns (result: Bytes)
      requires Valid() && key != []
      requires Cbc.Aligned(buffer) && |iv| >= 16
      ensures result == Cbc.DecryptWith(StandardBoxes(), KeyState(), iv[..16], buffer)
    {
      hide Cbc.Block, Cbc.DecryptBlock, Cbc.Decrypt, Cbc.Previous, NetworkToHostOrderSwap, AddRoundKey, IsSchedule,
        IsInvSchedule, HoldsBlock, InvCipher, IvWords, Stored, StandardBoxes, HostBytes, HostWords;
      var c := HostWords(buffer);
      var out := new bv32[|c|];
      ghost var first := Cbc.Block(iv[..16]);
      ghost var cs := Cbc.Blocks(buffer);
      ghost var ps := Cbc.Decrypt(tables.Boxes(), KeyState(), first, cs);
      ghost var n := 0;
      IvIsBlock(iv);
      PreviousFirst(first, cs);
      StoredNone(out[..], ps);
      var prev, e := IvWords(iv), 0;
      while e < |c|
        invariant 0 <= n <= |cs| && e == 4 * n
        invariant prev == Cbc.Previous(first, cs, n)
        invariant Stored(out[..], ps, n)
      {
        var block := LoadBlock(buffer, c, e, n, |cs|);
        var x := DecryptWords(tables, KeyState(), invKeySchedule, block);
        PlainBlock(tables, KeyState(), first, cs, n);
        ghost var was := out[..];
        StoreBlock(out, e, AddRoundKey(x, prev));
        StoredStep(was, out[..], ps, n);
        PreviousNext(first, cs, n);
        prev := block;
        e, n := e + 4, n + 1;
      }
      HostBytesAre(out[..], ps);
      result := HostBytes(out[..]);
    }
  }

  lemma PreviousFirst(iv: State, cs: seq<State>)
    ensures Cbc.Previous(iv, cs, 0) == iv
  {
  }

  lemma PreviousNext(iv: State, cs: seq<State>, n: nat)
    requires n < |cs|
    ensures Cbc.Previous(iv, cs, n + 1) == cs[n]
  {
  }

  lemma StoredNone(w: seq<bv32>, ps: seq<State>)
    requires |w| == 4 * |ps|
    ensures Stored(w, ps, 0)
  {
  }

  ghost predicate Stored(w: seq<bv32>, ps: seq<State>, n: nat)
    requires |w| == 4 * |ps| && n <= |ps|
  {
    forall j: nat :: j < n ==> HoldsBlock(w, 4 * j, ps[j])
  }

  lemma StoredStep(was: seq<bv32>, w: seq<bv32>, ps: seq<State>, n: nat)
    requires |was| == |w| == 4 * |ps| && n < |ps|
    requires Stored(was, ps, n)
    requires forall i :: 0 <= i < |w| && !(4 * n <= i < 4 * n + 4) ==> w[i] == was[i]
    requires HoldsBlock(w, 4 * n, ps[n])
    ensures Stored(w, ps, n + 1)
  {
    hide NetworkToHostOrderSwap;
    forall j: nat | j < n ensures HoldsBlock(w, 4 * j, ps[j]) {
      assert HoldsBlock(was, 4 * j, ps[j]);
    }
  }

  lemma PlainBlock(t: Tables, key: State, iv: State, cs: seq<State>, n: nat)
    requires n < |cs|
    ensures Cbc.Decrypt(t.Boxes(), key, iv, cs)[n] ==
      AddRoundKey(InvCipher(t.sBox, t.invSBox, key, cs[n]), Cbc.Previous(iv, cs, n))
  {
    hide InvCipher, AddRoundKey;
    Cbc.DecryptAt(t.Boxes(), key, iv, cs, n);
  }

  /** One block of the buffer, which has `size` of them, from its host-order words. */
  method LoadBlock(ghost buffer: Bytes, c: seq<bv32>, e: nat, ghost n: nat, ghost size: nat) returns (block: State)
    requires |buffer| == 16 * size && |c| == 4 * size && c == HostWords(buffer)
    requires e == 4 * n && n < size
    ensures n < |Cbc.Blocks(buffer)| && block == Cbc.Blocks(buffer)[n]
  {
    hide NetworkToHostOrderSwap, HostWords, Cbc.Blocks;
    SwappedWords(buffer, c, n, size);
    block := HostBlock(c, e);
  }

  lemma KeyWordStep(sBox: ByteTable, key: State, i: nat)
    requires 4 <= i < 44
    ensures KeyWord(sBox, key, i) == Add(KeyWord(sBox, key, i - 4),
      if i % 4 == 0 then Add(SubWord(sBox, RotateByte(KeyWord(sBox, key, i - 1))), Shifted(RCON[i / 4], 24))
      else KeyWord(sBox, key, i - 1))
  {
    hide Add, SubWord, Pack, RotWord, RotateByte, Rcon;
    if i % 4 == 0 {
      RotateByteIs(KeyWord(sBox, key, i - 1));
      RconTable(i / 4);
      ShiftedPack(RCON[i / 4]);
    }
  }

  lemma KeyWordFirst(sBox: ByteTable, e: seq<bv32>)
    requires |e| == 4
    ensures forall i: nat :: i < 4 ==> KeyWord(sBox, State(e[0], e[1], e[2], e[3]), i) == e[i]
  {
  }

  method ForwardSchedule(t: Tables, e: seq<bv32>) returns (h: seq<bv32>)
    requires |e| == 4
    ensures IsSchedule(t, State(e[0], e[1], e[2], e[3]), h)
  {
    hide Add, SubWord, RotateByte, KeyWord, Shifted;
    ghost var ks := State(e[0], e[1], e[2], e[3]);
    KeyWordFirst(t.sBox, e);
    var a := new bv32[44];
    var o := e[0];
    for i := 0 to 44
      invariant forall j: nat :: j < i ==> a[j] == KeyWord(t.sBox, ks, j)
      invariant i > 0 ==> o == a[i - 1]
    {
      if i < 4 {
        o := e[i];
      } else {
        var l := o;
        KeyWordStep(t.sBox, ks, i);
        if i % 4 == 0 {
          l := Add(SubWord(t.sBox, RotateByte(l)), Shifted(RCON[i / 4], 24));
        }
        o := Add(a[i - 4], l);
      }
      a[i] := o;
    }
    h := a[..];
  }

  method InverseSchedule(t: Tables, ghost key: State, h: seq<bv32>) returns (d: seq<bv32>)
    requires t.Valid() && IsSchedule(t, key, h)
    ensures IsInvSchedule(t, key, d)
  {
    hide Add, SubWord, Pack, InvMixColumn, KeyWord, Look;
    var r := new bv32[44];
    for s := 0 to 44
      invariant forall j: nat :: j < s ==> r[j] == InvKeyWord(t.sBox, key, j)
    {
      var a := 44 - s;
      var l := if s % 4 != 0 then h[a] else h[a - 4];
      if s < 4 || a <= 4 {
        r[s] := l;
      } else {
        MixedKeyWord(t, l);
        r[s] := Sum4(Look(t.mix0, SubByte(t.sBox, Row0(l))), Look(t.mix1, SubByte(t.sBox, Row1(l))),
                     Look(t.mix2, SubByte(t.sBox, Row2(l))), Look(t.mix3, SubByte(t.sBox, Row3(l))));
      }
    }
    d := r[..];
  }

  /** Mixing a key word by looking up the S-box image of each of its bytes. */
  lemma MixedKeyWord(t: Tables, l: bv32)
    requires t.Valid()
    ensures Sum4(Look(t.mix0, SubByte(t.sBox, Row0(l))), Look(t.mix1, SubByte(t.sBox, Row1(l))),
                 Look(t.mix2, SubByte(t.sBox, Row2(l))), Look(t.mix3, SubByte(t.sBox, Row3(l)))) == InvMixColumn(l)
  {
    hide Row0, Row1, Row2, Row3, Look, SubByte, InvMixColumn, InvMix0, InvMix1, InvMix2, InvMix3, Sum4;
    InvMixColumnOf(l);
  }

  /** The block loop's work on one block, before chaining. */
  method DecryptWords(t: Tables, ghost key: State, y: seq<bv32>, block: State) returns (x: State)
    requires t.Valid() && IsInvSchedule(t, key, y)
    ensures x == InvCipher(t.sBox, t.invSBox, key, block)
  {
    hide Round, LastRound, InvKeyWord, InvCipher, InvCipherRounds, Add;
    var s := State(Add(block.c0, y[0]), Add(block.c1, y[3]), Add(block.c2, y[2]), Add(block.c3, y[1]));
    var v := 4;
    FirstStep(t, key, block, y);
    for m := 1 to 10
      invariant v == 4 * m
      invariant s == InvCipherRounds(t.sBox, t.invSBox, key, block, m - 1)
    {
      RoundStep(t, key, block, y, m);
      s := Round(t, s, y, v);
      v := v + 4;
    }
    LastStep(t, key, block, y);
    x := LastRound(t, s, y, v);
  }

  /** Writes four words of output, back in host order. */
  method StoreBlock(out: array<bv32>, e: nat, s: State)
    requires e + 4 <= out.Length
    modifies out
    ensures HoldsBlock(out[..], e, s)
    ensures forall i :: 0 <= i < out.Length && !(e <= i < e + 4) ==> out[i] == old(out[i])
  {
    hide NetworkToHostOrderSwap;
    out[e] := NetworkToHostOrderSwap(s.c0);
    out[e + 1] := NetworkToHostOrderSwap(s.c1);
    out[e + 2] := NetworkToHostOrderSwap(s.c2);
    out[e + 3] := NetworkToHostOrderSwap(s.c3);
  }

  function IvWords(iv: Bytes): State
    requires |iv| >= 16
  {
    State(Cbc.Word(iv[..4]), Cbc.Word(iv[4..8]), Cbc.Word(iv[8..12]), Cbc.Word(iv[12..16]))
  }

  lemma IvIsBlock(iv: Bytes)
    requires |iv| >= 16
    ensures IvWords(iv) == Cbc.Block(iv[..16])
  {
    hide Cbc.Word;
    assert iv[..16][..4] == iv[..4] && iv[..16][4..8] == iv[4..8];
    assert iv[..16][8..12] == iv[8..12] && iv[..16][12..] == iv[12..16];
  }
}
