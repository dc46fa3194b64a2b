/** Progressive decryption: ciphertext arrives in arbitrary pieces, plaintext leaves one piece late. */
module StreamDecrypter {
  import opened Sequences
  import opened Wrappers
  import Cbc = AesCbc
  import Aes = AesDecrypter
  import opened AesTables

  type Bytes = Cbc.Bytes

  /** An initial vector: one block. */
  type Iv = b: Bytes | |b| == 16 witness seq(16, _ => 0)

  /** What is carried from one push to the next. */
  datatype Stream = Stream(remainder: Option<Bytes>, iv: Option<Iv>, result: Option<Bytes>)

  const FRESH := Stream(None, None, None)

  datatype Cut<T> = Cut(chunk: seq<T>, remainder: Option<seq<T>>)

  /** The longest prefix of whole blocks, and what is left over. */
  function GetValidChunk<T>(t: seq<T>): (cut: Cut<T>)
    ensures |cut.chunk| % 16 == 0
    ensures cut.chunk + cut.remainder.GetOr([]) == t
    ensures cut.remainder.Some? ==> 0 < |cut.remainder.value| < 16
  {
    var r := |t| - |t| % 16;
    if r != |t| then Cut(t[..r], Some(t[r..])) else Cut(t, None)
  }

  /** One push: the new state and the piece of plaintext handed out, if any. */
  function Push(boxes: Cbc.Boxes, key: Bytes, iv: Bytes, s: Stream, data: Bytes): (Stream, Option<Bytes>)
    requires |key| == |iv| == 16
  {
    var cut := GetValidChunk(s.remainder.GetOr([]) + data);
    if cut.chunk == [] then (s.(remainder := cut.remainder), None)
    else
      var from: Iv := s.iv.GetOr(iv);
      (Stream(cut.remainder, Some(cut.chunk[|cut.chunk| - 16..]), Some(Cbc.DecryptBytes(boxes, key, from, cut.chunk))),
        s.result)
  }

  function RemovePadding(b: Bytes): Bytes {
    if b == [] then b
    else
      var n := b[|b| - 1] as int;
      if n != 0 then SliceTo(b, |b| - n) else b
  }

  /** The end of the stream: the last piece of plaintext, unless a partial block is left. */
  function Flush(s: Stream, removePadding: bool): Option<Bytes> {
    if s.result.None? || s.remainder.Some? then None
    else Some(if removePadding then RemovePadding(s.result.value) else s.result.value)
  }

  /** Everything handed out by a run of pushes followed by a flush. */
  function Run(boxes: Cbc.Boxes, key: Bytes, iv: Bytes, removePadding: bool, s: Stream, pieces: seq<Bytes>): Bytes
    requires |key| == |iv| == 16
    decreases |pieces|
  {
    if pieces == [] then Flush(s, removePadding).GetOr([])
    else
      var (next, out) := Push(boxes, key, iv, s, pieces[0]);
      out.GetOr([]) + Run(boxes, key, iv, removePadding, next, pieces[1..])
  }

  /** The stream after `fed` has been pushed and `out` handed out. */
  ghost predicate Represents(boxes: Cbc.Boxes, key: Bytes, iv: Bytes, s: Stream, fed: Bytes, out: Bytes)
    requires |key| == |iv| == 16
  {
    var cut := GetValidChunk(fed);
    && s.remainder == cut.remainder
    && (if cut.chunk == [] then s.iv == None && s.result == None && out == []
        else
          && s.iv == Some(cut.chunk[|cut.chunk| - 16..])
          && s.result.Some? && |s.result.value| >= 16
          && out + s.result.value == Cbc.DecryptBytes(boxes, key, iv, cut.chunk))
  }

  lemma CutUnique<T>(t: seq<T>, cut: Cut<T>)
    requires |cut.chunk| % 16 == 0 && t == cut.chunk + cut.remainder.GetOr([])
    requires cut.remainder.Some? ==> 0 < |cut.remainder.value| < 16
    ensures GetValidChunk(t) == cut
  {
    var rest := |cut.remainder.GetOr([])|;
    assert (|cut.chunk| + rest) % 16 == rest;
    assert |t| - |t| % 16 == |cut.chunk|;
  }

  lemma ChunkOfMore<T>(fed: seq<T>, data: seq<T>)
    ensures var before := GetValidChunk(fed);
            var cut := GetValidChunk(before.remainder.GetOr([]) + data);
            && GetValidChunk(fed + data) == Cut(before.chunk + cut.chunk, cut.remainder)
  {
    hide GetValidChunk;
    var before := GetValidChunk(fed);
    var cut := GetValidChunk(before.remainder.GetOr([]) + data);
    assert fed + data == (before.chunk + cut.chunk) + cut.remainder.GetOr([]) by {
      assert fed + data == before.chunk + (before.remainder.GetOr([]) + data);
    }
    assert (|before.chunk| + |cut.chunk|) % 16 == 0;
    CutUnique(fed + data, Cut(before.chunk + cut.chunk, cut.remainder));
  }

  lemma PushKeeps(boxes: Cbc.Boxes, key: Bytes, iv: Bytes, s: Stream, fed: Bytes, out: Bytes, data: Bytes)
    requires |key| == |iv| == 16
    requires Represents(boxes, key, iv, s, fed, out)
    ensures var (next, piece) := Push(boxes, key, iv, s, data);
            Represents(boxes, key, iv, next, fed + data, out + piece.GetOr([]))
  {
    hide Cbc.DecryptBytes, GetValidChunk;
    var before := GetValidChunk(fed);
    var cut := GetValidChunk(before.remainder.GetOr([]) + data);
    ChunkOfMore(fed, data);
    if cut.chunk == [] {
      assert before.chunk + [] == before.chunk;
      assert out + [] == out;
    } else if before.chunk == [] {
      assert before.chunk + cut.chunk == cut.chunk;
    } else {
      Cbc.DecryptBytesAppend(boxes, key, iv, before.chunk, cut.chunk);
      var all := before.chunk + cut.chunk;
      assert all[|all| - 16..] == cut.chunk[|cut.chunk| - 16..];
    }
  }

  /** How many bytes the withheld result has. */
  function ResultLength(s: Stream): nat { if s.result.Some? then |s.result.value| else 0 }

  /** How many bytes the last push that completed a block decrypts: what a flush removes padding from. It depends on the
      cutting alone; `rest` bytes are left over and `last` were decrypted last. */
  function LastLength(rest: nat, last: nat, pieces: seq<Bytes>): nat
    decreases |pieces|
  {
    if pieces == [] then last
    else
      var t := rest + |pieces[0]|;
      LastLength(t % 16, if t < 16 then last else t - t % 16, pieces[1..])
  }

  lemma PushLengths(boxes: Cbc.Boxes, key: Bytes, iv: Bytes, s: Stream, data: Bytes)
    requires |key| == |iv| == 16
    ensures var next, t := Push(boxes, key, iv, s, data).0, |s.remainder.GetOr([])| + |data|;
      && |next.remainder.GetOr([])| == t % 16
      && ResultLength(next) == if t < 16 then ResultLength(s) else t - t % 16
  {
    hide Cbc.DecryptBytes;
  }

  lemma {:induction false} RunFrom(boxes: Cbc.Boxes, key: Bytes, iv: Bytes, removePadding: bool, s: Stream, fed: Bytes,
    out: Bytes, pieces: seq<Bytes>)
    returns (last: Stream, before: Bytes)
    requires |key| == |iv| == 16
    requires Represents(boxes, key, iv, s, fed, out)
    ensures Represents(boxes, key, iv, last, fed + Concat(pieces), before)
    ensures out + Run(boxes, key, iv, removePadding, s, pieces) == before + Flush(last, removePadding).GetOr([])
    ensures ResultLength(last) == LastLength(|s.remainder.GetOr([])|, ResultLength(s), pieces)
    decreases |pieces|
  {
    hide Represents, Push, Flush, ResultLength;
    if pieces == [] {
      last, before := s, out;
      assert fed + [] == fed;
    } else {
      var (next, piece) := Push(boxes, key, iv, s, pieces[0]);
      PushKeeps(boxes, key, iv, s, fed, out, pieces[0]);
      PushLengths(boxes, key, iv, s, pieces[0]);
      last, before := RunFrom(boxes, key, iv, removePadding, next, fed + pieces[0], out + piece.GetOr([]), pieces[1..]);
      Regroup(fed, pieces[0], Concat(pieces[1..]));
      Regroup(out, piece.GetOr([]), Run(boxes, key, iv, removePadding, next, pieces[1..]));
    }
  }

  /** Without padding removal, every cutting of an aligned ciphertext yields its one-shot decryption. */
  lemma RunDecrypts(boxes: Cbc.Boxes, key: Bytes, iv: Bytes, pieces: seq<Bytes>)
    requires |key| == |iv| == 16 && Cbc.Aligned(Concat(pieces))
    ensures Run(boxes, key, iv, false, FRESH, pieces) == Cbc.DecryptBytes(boxes, key, iv, Concat(pieces))
  {
    hide Run, Concat, Cbc.DecryptBytes;
    var last, before := RunFrom(boxes, key, iv, false, FRESH, [], [], pieces);
    assert [] + Concat(pieces) == Concat(pieces);
    assert [] + Run(boxes, key, iv, false, FRESH, pieces) == Run(boxes, key, iv, false, FRESH, pieces);
    CutUnique(Concat(pieces), Cut(Concat(pieces), None));
  }

  /** The last byte of a non-empty plaintext: with valid padding, the number of bytes to drop. */
  function PadLength(d: Bytes): nat
    requires d != []
  {
    d[|d| - 1] as int
  }

  /** What a run with padding removal hands out, in terms of the piece decrypted last. */
  lemma RunEnds(boxes: Cbc.Boxes, key: Bytes, iv: Bytes, pieces: seq<Bytes>) returns (before: Bytes, b: Bytes)
    requires |key| == |iv| == 16 && Cbc.Aligned(Concat(pieces)) && Concat(pieces) != []
    ensures before + b == Cbc.DecryptBytes(boxes, key, iv, Concat(pieces)) && 16 <= |b| == LastLength(0, 0, pieces)
    ensures Run(boxes, key, iv, true, FRESH, pieces) == before + RemovePadding(b)
  {
    hide Run, Concat, Cbc.DecryptBytes, LastLength, RemovePadding;
    var last;
    last, before := RunFrom(boxes, key, iv, true, FRESH, [], [], pieces);
    assert [] + Concat(pieces) == Concat(pieces);
    assert [] + Run(boxes, key, iv, true, FRESH, pieces) == Run(boxes, key, iv, true, FRESH, pieces);
    CutUnique(Concat(pieces), Cut(Concat(pieces), None));
    b := last.result.value;
  }

  /** With padding removal, the count in the last plaintext byte is taken off the piece decrypted last. That drops the
      counted bytes from the whole if and only if that piece has as many, so only then is the cutting of no account. */
  lemma RunUnpads(boxes: Cbc.Boxes, key: Bytes, iv: Bytes, pieces: seq<Bytes>)
    requires |key| == |iv| == 16 && Cbc.Aligned(Concat(pieces)) && Concat(pieces) != []
    ensures var d, k := Cbc.DecryptBytes(boxes, key, iv, Concat(pieces)), LastLength(0, 0, pieces);
            && 16 <= k <= |d|
            && Run(boxes, key, iv, true, FRESH, pieces) == d[..|d| - k] + SliceTo(d[|d| - k..], k - PadLength(d))
            && (PadLength(d) <= k <==>
                  PadLength(d) <= |d| && Run(boxes, key, iv, true, FRESH, pieces) == d[..|d| - PadLength(d)])
  {
    hide Run, Concat, Cbc.DecryptBytes, LastLength, SliceTo, RemovePadding;
    var before, b := RunEnds(boxes, key, iv, pieces);
    FlushOf(b);
    Parts(before, b);
    CutTail(before, b, PadLength(before + b));
  }

  /** A ciphertext that ends within a block: the piece decrypted last is never handed out, whatever padding is asked
      for, and everything before it is. */
  lemma RunUnaligned(boxes: Cbc.Boxes, key: Bytes, iv: Bytes, removePadding: bool, pieces: seq<Bytes>)
    requires |key| == |iv| == 16 && !Cbc.Aligned(Concat(pieces))
    ensures var d, k := Cbc.DecryptBytes(boxes, key, iv, GetValidChunk(Concat(pieces)).chunk), LastLength(0, 0, pieces);
            k <= |d| && Run(boxes, key, iv, removePadding, FRESH, pieces) == d[..|d| - k]
  {
    hide Run, Concat, Cbc.DecryptBytes, LastLength;
    var c := Concat(pieces);
    var last, before := RunFrom(boxes, key, iv, removePadding, FRESH, [], [], pieces);
    assert [] + c == c;
    assert [] + Run(boxes, key, iv, removePadding, FRESH, pieces) == Run(boxes, key, iv, removePadding, FRESH, pieces);
    if last.result.Some? {
      Parts(before, last.result.value);
    }
    assert before + [] == before;
  }

  lemma FlushOf(b: Bytes)
    requires b != []
    ensures RemovePadding(b) == SliceTo(b, |b| - PadLength(b))
  {
  }

  lemma Parts<T>(a: seq<T>, b: seq<T>)
    ensures (a + b)[..|a + b| - |b|] == a && (a + b)[|a + b| - |b|..] == b
    ensures b != [] ==> (a + b)[|a + b| - 1] == b[|b| - 1]
  {
  }

  lemma CutTail<T>(a: seq<T>, b: seq<T>, n: nat)
    ensures n <= |b| <==> n <= |a + b| && a + SliceTo(b, |b| - n) == (a + b)[..|a + b| - n]
  {
    if n <= |b| {
      assert a + b[..|b| - n] == (a + b)[..|a + b| - n];
    }
  }

  /** Two blocks of plaintext whose last byte counts one byte more than a block has. */
  const COUNTS_17: Bytes := seq(31, _ => 0) + [17]

  lemma LengthsOf(c: Bytes)
    requires |c| == 32
    ensures Concat([c]) == c && Concat([c[..16], c[16..]]) == c
    ensures LastLength(0, 0, [c]) == 32 && LastLength(0, 0, [c[..16], c[16..]]) == 16
  {
    var first, second := c[..16], c[16..];
    assert [c][1..] == [] && [first, second][1..] == [second] && [second][1..] == [];
    assert LastLength(0, 16, [second]) == LastLength(0, 16, []);
    assert LastLength(0, 0, [c]) == LastLength(0, 32, []);
    assert Concat([second]) == second;
  }

  lemma CountOf17()
    ensures PadLength(COUNTS_17) == 17 && |COUNTS_17| == 32
    ensures COUNTS_17[..16] + SliceTo(COUNTS_17[16..], -1) == COUNTS_17[..31]
    ensures COUNTS_17[..0] + SliceTo(COUNTS_17[0..], 15) == COUNTS_17[..15]
  {
  }

  /** Under every key, one ciphertext cut in two ways: whole, the seventeen counted bytes go; cut between its two
      blocks, a single byte goes, because the count exceeds the piece decrypted last. */
  lemma CutBetweenBlocks(key: Bytes, iv: Bytes) returns (c: Bytes)
    requires |key| == |iv| == 16
    ensures |c| == 32 && Cbc.DecryptBytes(StandardBoxes(), key, iv, c) == COUNTS_17
    ensures Run(StandardBoxes(), key, iv, true, FRESH, [c]) == COUNTS_17[..15]
    ensures Run(StandardBoxes(), key, iv, true, FRESH, [c[..16], c[16..]]) == COUNTS_17[..31]
  {
    hide Run, Concat, Cbc.DecryptBytes, Cbc.EncryptBytes, LastLength, PadLength, StandardBoxes, SliceTo;
    StandardBoxesValid();
    CountOf17();
    c := Cbc.EncryptBytes(StandardBoxes(), key, iv, COUNTS_17);
    Cbc.DecryptEncryptBytes(StandardBoxes(), key, iv, COUNTS_17);
    LengthsOf(c);
    RunUnpads(StandardBoxes(), key, iv, [c]);
    RunUnpads(StandardBoxes(), key, iv, [c[..16], c[16..]]);
  }

  /** PKCS #7 padding (section 6.3 of RFC 5652) to whole blocks of sixteen bytes. */
  function Pad(p: Bytes): (d: Bytes)
    ensures Cbc.Aligned(d) && d != []
  {
    var n := 16 - |p| % 16;
    p + seq(n, _ => n as bv8)
  }

  lemma SmallByte(n: nat)
    requires n <= 16
    ensures (n as bv8) as int == n
  {
  }

  lemma PadIs(p: Bytes)
    ensures PadLength(Pad(p)) == 16 - |p| % 16 && Pad(p)[..|p|] == p && |Pad(p)| == |p| + 16 - |p| % 16
  {
    SmallByte(16 - |p| % 16);
  }

  /** Any plaintext, padded, encrypted and delivered in any pieces, comes back whole. */
  lemma StreamRoundTrip(boxes: Cbc.Boxes, key: Bytes, iv: Bytes, p: Bytes, pieces: seq<Bytes>)
    requires boxes.Valid() && |key| == |iv| == 16
    requires Concat(pieces) == Cbc.EncryptBytes(boxes, key, iv, Pad(p))
    ensures Run(boxes, key, iv, true, FRESH, pieces) == p
  {
    hide Run, Concat, Cbc.DecryptBytes, Cbc.EncryptBytes, Pad, PadLength;
    PadIs(p);
    Cbc.DecryptEncryptBytes(boxes, key, iv, Pad(p));
    RunUnpads(boxes, key, iv, pieces);
  }

  /** The same for the standard's boxes, which are the ones the player builds: no assumption is left. */
  lemma PlayerRoundTrip(key: Bytes, iv: Bytes, p: Bytes, pieces: seq<Bytes>)
    requires |key| == |iv| == 16
    requires Concat(pieces) == Cbc.EncryptBytes(StandardBoxes(), key, iv, Pad(p))
    ensures Run(StandardBoxes(), key, iv, true, FRESH, pieces) == p
  {
    hide Run, Concat, Cbc.DecryptBytes, Cbc.EncryptBytes, Pad, PadLength, StandardBoxes;
    StandardBoxesValid();
    StreamRoundTrip(StandardBoxes(), key, iv, p, pieces);
  }

  /** The progressive decrypter object: the stream state and the block decrypter it creates on demand. */
  class Decrypter {
    const removePKCS7Padding: bool
    var softwareDecrypter: Aes.Decrypter?
    var remainderData: Option<Bytes>
    var currentIV: Option<Iv>
    var currentResult: Option<Bytes>

    ghost predicate Valid()
      reads this, softwareDecrypter
    {
      softwareDecrypter != null ==> softwareDecrypter.Valid()
    }

    ghost function State(): Stream
      reads this
    {
      Stream(remainderData, currentIV, currentResult)
    }

    constructor (removePadding: bool)
      ensures Valid() && State() == FRESH && softwareDecrypter == null
      ensures removePKCS7Padding == removePadding
    {
      removePKCS7Padding := removePadding;
      softwareDecrypter, remainderData, currentIV, currentResult := null, None, None, None;
    }

    method Reset()
      requires Valid()
      modifies this
      ensures Valid() && State() == FRESH && softwareDecrypter == null
    {
      currentResult, currentIV, remainderData := None, None, None;
      softwareDecrypter := null;
    }

    /** The block decrypter, made on first use, applied to whole blocks. */
    method DecryptChunk(chunk: Bytes, key: Bytes, from: Bytes) returns (plain: Bytes)
      requires Valid() && |key| >= 16 && |from| >= 16 && Cbc.Aligned(chunk)
      modifies this`softwareDecrypter, softwareDecrypter
      ensures Valid() && (softwareDecrypter == old(softwareDecrypter) || fresh(softwareDecrypter))
      ensures plain == Cbc.DecryptBytes(StandardBoxes(), key[..16], from[..16], chunk)
    {
      hide Cbc.DecryptWith, Cbc.Block, Aes.IsSchedule, Aes.IsInvSchedule, StandardBoxes;
      var decrypter := softwareDecrypter;
      if decrypter == null {
        decrypter := new Aes.Decrypter();
        softwareDecrypter := decrypter;
      }
      decrypter.ExpandKey(key);
      plain := decrypter.Decrypt(chunk, from);
    }

    method SoftwareDecrypt(data: Bytes, key: Bytes, iv: Bytes) returns (out: Option<Bytes>)
      requires Valid() && |key| >= 16 && |iv| >= 16
      modifies this, softwareDecrypter
      ensures Valid() && (softwareDecrypter == old(softwareDecrypter) || fresh(softwareDecrypter))
      ensures (State(), out) == Push(StandardBoxes(), key[..16], iv[..16], old(State()), data)
    {
      hide Cbc.DecryptBytes, StandardBoxes, GetValidChunk;
      var t := data;
      if remainderData.Some? {
        t := remainderData.value + t;
        remainderData := None;
      }
      assert t == old(State()).remainder.GetOr([]) + data;
      var cut := GetValidChunk(t);
      if cut.remainder.Some? {
        remainderData := cut.remainder;
      }
      if cut.chunk == [] {
        return None;
      }
      var from := if currentIV.Some? then currentIV.value else iv;
      assert from[..16] == old(State()).iv.GetOr(iv[..16]);
      out := currentResult;
      var plain := DecryptChunk(cut.chunk, key, from);
      currentResult := Some(plain);
      currentIV := Some(cut.chunk[|cut.chunk| - 16..]);
    }

    method Finish() returns (out: Option<Bytes>)
      requires Valid()
      modifies this
      ensures Valid() && State() == FRESH && softwareDecrypter == null
      ensures out == Flush(old(State()), removePKCS7Padding)
    {
      var result, remainder := currentResult, remainderData;
      Reset();
      if result.None? || remainder.Some? {
        return None;
      }
      var r := result.value;
      if removePKCS7Padding {
        var i := |r|;
        var n := if i != 0 then r[i - 1] as int else 0;
        out := Some(if n != 0 then SliceTo(r, i - n) else r);
      } else {
        out := Some(r);
      }
    }
  }
}
