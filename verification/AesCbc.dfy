/** AES-128 in CBC mode (section 6.2 of NIST SP 800-38A), over blocks and over bytes. */
module AesCbc {
  import opened AesField
  import opened AesCipher
  import opened Sequences

  type Bytes = seq<bv8>

  /** A pair of S-boxes, each undoing the other. */
  datatype Boxes = Boxes(fwd: ByteTable, inv: ByteTable) {
    ghost predicate Valid() { Inverses(fwd, inv) && Inverses(inv, fwd) }
  }

  function Encrypt(boxes: Boxes, key: State, iv: State, ps: seq<State>): (cs: seq<State>)
    ensures |cs| == |ps|
    decreases |ps|
  {
    if ps == [] then []
    else
      var c := Cipher(boxes.fwd, key, AddRoundKey(ps[0], iv));
      [c] + Encrypt(boxes, key, c, ps[1..])
  }

  function DecryptBlock(boxes: Boxes, key: State, iv: State, c: State): State {
    AddRoundKey(InvCipher(boxes.fwd, boxes.inv, key, c), iv)
  }

  function Decrypt(boxes: Boxes, key: State, iv: State, cs: seq<State>): (ps: seq<State>)
    ensures |ps| == |cs|
    decreases |cs|
  {
    if cs == [] then []
    else [DecryptBlock(boxes, key, iv, cs[0])] + Decrypt(boxes, key, cs[0], cs[1..])
  }

  /** CBC decryption inverts CBC encryption, for every key, initial vector and number of blocks. */
  lemma {:induction false} DecryptEncrypt(boxes: Boxes, key: State, iv: State, ps: seq<State>)
    requires boxes.Valid()
    ensures Decrypt(boxes, key, iv, Encrypt(boxes, key, iv, ps)) == ps
    decreases |ps|
  {
    hide Cipher, InvCipher, AddRoundKey;
    if ps == [] {
    } else {
      var c := Cipher(boxes.fwd, key, AddRoundKey(ps[0], iv));
      InvCipherUndoes(boxes.fwd, boxes.inv, key, AddRoundKey(ps[0], iv));
      AddKeyTwice(ps[0], iv);
      DecryptEncrypt(boxes, key, c, ps[1..]);
      assert Encrypt(boxes, key, iv, ps)[1..] == Encrypt(boxes, key, c, ps[1..]);
    }
  }

  function LastOr<T>(s: seq<T>, default: T): T { if s == [] then default else s[|s| - 1] }

  /** Decryption can be cut between any two blocks, the last ciphertext block becoming the next initial vector. */
  lemma {:induction false} DecryptAppend(boxes: Boxes, key: State, iv: State, a: seq<State>, b: seq<State>)
    ensures Decrypt(boxes, key, iv, a + b) == Decrypt(boxes, key, iv, a) + Decrypt(boxes, key, LastOr(a, iv), b)
    decreases |a|
  {
    hide DecryptBlock;
    if a == [] {
      assert a + b == b;
    } else {
      assert (a + b)[1..] == a[1..] + b;
      DecryptAppend(boxes, key, a[0], a[1..], b);
    }
  }

  // ---------- blocks as bytes ----------

  function Word(b: Bytes): bv32
    requires |b| == 4
  {
    Pack(b[0], b[1], b[2], b[3])
  }

  function WordBytes(w: bv32): Bytes { [Row0(w), Row1(w), Row2(w), Row3(w)] }

  function Block(b: Bytes): State
    requires |b| == 16
  {
    State(Word(b[..4]), Word(b[4..8]), Word(b[8..12]), Word(b[12..]))
  }

  function BlockBytes(s: State): (b: Bytes)
    ensures |b| == 16
  {
    WordBytes(s.c0) + WordBytes(s.c1) + WordBytes(s.c2) + WordBytes(s.c3)
  }

  ghost predicate Aligned(b: Bytes) { |b| % 16 == 0 }

  function Blocks(b: Bytes): (s: seq<State>)
    requires Aligned(b)
    ensures |s| == |b| / 16
  {
    if b == [] then [] else [Block(b[..16])] + Blocks(b[16..])
  }

  function Flatten(s: seq<State>): (b: Bytes)
    ensures |b| == 16 * |s|
  {
    if s == [] then [] else BlockBytes(s[0]) + Flatten(s[1..])
  }

  lemma BlockOfBytes(s: State)
    ensures Block(BlockBytes(s)) == s
  {
    hide Pack, Row0, Row1, Row2, Row3;
    RowsPack(s.c0);
    RowsPack(s.c1);
    RowsPack(s.c2);
    RowsPack(s.c3);
    var b := BlockBytes(s);
    assert b[..4] == WordBytes(s.c0) && b[4..8] == WordBytes(s.c1);
    assert b[8..12] == WordBytes(s.c2) && b[12..] == WordBytes(s.c3);
  }

  lemma BytesOfBlock(b: Bytes)
    requires |b| == 16
    ensures BlockBytes(Block(b)) == b
  {
    hide Pack, Row0, Row1, Row2, Row3;
    PackRows(b[0], b[1], b[2], b[3]);
    PackRows(b[4], b[5], b[6], b[7]);
    PackRows(b[8], b[9], b[10], b[11]);
    PackRows(b[12], b[13], b[14], b[15]);
  }

  lemma {:induction false} BlocksFlatten(s: seq<State>)
    ensures Aligned(Flatten(s)) && Blocks(Flatten(s)) == s
  {
    hide Block, BlockBytes;
    if s == [] {
    } else {
      BlockOfBytes(s[0]);
      BlocksFlatten(s[1..]);
      assert Flatten(s)[..16] == BlockBytes(s[0]) && Flatten(s)[16..] == Flatten(s[1..]);
    }
  }

  lemma {:induction false} FlattenBlocks(b: Bytes)
    requires Aligned(b)
    ensures Flatten(Blocks(b)) == b
  {
    hide Block, BlockBytes;
    if b == [] {
    } else {
      BytesOfBlock(b[..16]);
      FlattenBlocks(b[16..]);
      assert Blocks(b)[1..] == Blocks(b[16..]);
      assert b == b[..16] + b[16..];
    }
  }

  lemma BlocksOnce(b: Bytes)
    ensures Aligned(b) ==> Blocks(b) == if b == [] then [] else [Block(b[..16])] + Blocks(b[16..])
  {
  }

  lemma FrontBlock(a: Bytes, b: Bytes)
    requires |a| >= 16
    ensures (a + b)[..16] == a[..16] && (a + b)[16..] == a[16..] + b
  {
  }

  lemma {:induction false} BlocksAppend(a: Bytes, b: Bytes)
    requires Aligned(a) && Aligned(b)
    ensures Aligned(a + b) && Blocks(a + b) == Blocks(a) + Blocks(b)
  {
    hide Block, Blocks;
    BlocksOnce(a);
    BlocksOnce(a + b);
    if a == [] {
      assert a + b == b;
    } else {
      BlocksAppend(a[16..], b);
      FrontBlock(a, b);
    }
  }

  lemma FlattenOnce(s: seq<State>)
    ensures Flatten(s) == if s == [] then [] else BlockBytes(s[0]) + Flatten(s[1..])
  {
  }

  lemma {:induction false} FlattenAppend(s: seq<State>, t: seq<State>)
    ensures Flatten(s + t) == Flatten(s) + Flatten(t)
  {
    hide BlockBytes, Flatten;
    if s == [] {
      assert s + t == t;
      FlattenOnce(s);
    } else {
      FlattenAppend(s[1..], t);
      assert (s + t)[1..] == s[1..] + t;
      FlattenOnce(s);
      FlattenOnce(s + t);
      Regroup(BlockBytes(s[0]), Flatten(s[1..]), Flatten(t));
    }
  }

  function EncryptBytes(boxes: Boxes, key: Bytes, iv: Bytes, p: Bytes): (c: Bytes)
    requires |key| == |iv| == 16 && Aligned(p)
    ensures |c| == |p|
  {
    Flatten(Encrypt(boxes, Block(key), Block(iv), Blocks(p)))
  }

  function DecryptWith(boxes: Boxes, key: State, iv: Bytes, c: Bytes): (p: Bytes)
    requires |iv| == 16 && Aligned(c)
    ensures |p| == |c|
  {
    Flatten(Decrypt(boxes, key, Block(iv), Blocks(c)))
  }

  function DecryptBytes(boxes: Boxes, key: Bytes, iv: Bytes, c: Bytes): (p: Bytes)
    requires |key| == |iv| == 16 && Aligned(c)
    ensures |p| == |c|
  {
    DecryptWith(boxes, Block(key), iv, c)
  }

  lemma DecryptEncryptBytes(boxes: Boxes, key: Bytes, iv: Bytes, p: Bytes)
    requires boxes.Valid()
    requires |key| == |iv| == 16 && Aligned(p)
    ensures DecryptBytes(boxes, key, iv, EncryptBytes(boxes, key, iv, p)) == p
  {
    hide Block;
    BlocksFlatten(Encrypt(boxes, Block(key), Block(iv), Blocks(p)));
    DecryptEncrypt(boxes, Block(key), Block(iv), Blocks(p));
    FlattenBlocks(p);
  }

  lemma {:induction false} LastBlock(c: Bytes)
    requires Aligned(c) && c != []
    ensures LastOr(Blocks(c), Block(c[|c| - 16..])) == Block(c[|c| - 16..])
  {
    hide Block;
    if |c| == 16 {
      assert c[..16] == c;
      assert c[16..] == [];
    } else {
      LastBlock(c[16..]);
      assert c[16..][|c| - 32..] == c[|c| - 16..];
    }
  }

  /** Decrypting in two pieces: the second starts from the last sixteen bytes of the first. */
  lemma DecryptBytesAppend(boxes: Boxes, key: Bytes, iv: Bytes, a: Bytes, b: Bytes)
    requires |key| == |iv| == 16 && Aligned(a) && Aligned(b) && a != []
    ensures Aligned(a + b)
    ensures DecryptBytes(boxes, key, iv, a + b)
         == DecryptBytes(boxes, key, iv, a) + DecryptBytes(boxes, key, a[|a| - 16..], b)
  {
    hide Block;
    BlocksAppend(a, b);
    DecryptAppend(boxes, Block(key), Block(iv), Blocks(a), Blocks(b));
    LastBlock(a);
    FlattenAppend(Decrypt(boxes, Block(key), Block(iv), Blocks(a)),
                  Decrypt(boxes, Block(key), Block(a[|a| - 16..]), Blocks(b)));
  }

  /** The block that block `j` is chained to. */
  function Previous(iv: State, cs: seq<State>, j: nat): State
    requires j <= |cs|
  {
    if j == 0 then iv else cs[j - 1]
  }

  lemma {:induction false} DecryptAt(boxes: Boxes, key: State, iv: State, cs: seq<State>, j: nat)
    requires j < |cs|
    ensures Decrypt(boxes, key, iv, cs)[j] == DecryptBlock(boxes, key, Previous(iv, cs, j), cs[j])
    decreases j
  {
    hide DecryptBlock;
    if j == 0 {
    } else {
      DecryptAt(boxes, key, cs[0], cs[1..], j - 1);
    }
  }

  lemma LaterBlock(b: Bytes, i: nat)
    requires i + 32 <= |b|
    ensures b[16..][i..i + 16] == b[i + 16..i + 32]
  {
  }

  lemma {:induction false} BlocksAt(b: Bytes, j: nat)
    requires Aligned(b) && j < |b| / 16
    ensures 16 * j + 16 <= |b| && Blocks(b)[j] == Block(b[16 * j..16 * j + 16])
    decreases j
  {
    hide Block;
    if j == 0 {
    } else {
      BlocksAt(b[16..], j - 1);
      LaterBlock(b, 16 * (j - 1));
    }
  }
}
