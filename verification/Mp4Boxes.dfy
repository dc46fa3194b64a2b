/** ISO base media boxes (section 4.2 of ISO/IEC 14496-12): the writer, and the reader that searches by path. */
module Mp4Boxes {
  import opened Sequences

  /** Bytes; the writers below only produce values from 0 to 255. */
  type Bytes = seq<int>

  /** The four bytes of a box name. */
  type Name = n: Bytes | |n| == 4 witness [0, 0, 0, 0]

  const TWO32: nat := 0x1_0000_0000

  /** The big-endian 32-bit word of an integer, as the shifts and masks compute it: modulo 2^32. */
  function Be32(v: int): (b: Bytes)
    ensures |b| == 4
  {
    [v / 0x100_0000 % 0x100, v / 0x1_0000 % 0x100, v / 0x100 % 0x100, v % 0x100]
  }

  /** A byte of an array; reading past the end yields undefined, which the shifts turn into 0. */
  function ByteAt(t: Bytes, i: nat): int { if i < |t| then t[i] else 0 }

  /** Reads an unsigned 32-bit word. */
  function ReadU32(t: Bytes, i: nat): int {
    ByteAt(t, i) * 0x100_0000 + ByteAt(t, i + 1) * 0x1_0000 + ByteAt(t, i + 2) * 0x100 + ByteAt(t, i + 3)
  }

  lemma Divisions(v: int)
    ensures v / 0x100 / 0x100 == v / 0x1_0000 && v / 0x1_0000 / 0x100 == v / 0x100_0000
    ensures v / 0x100_0000 / 0x100 == v / 0x1_0000_0000
  {
  }

  lemma ReadWritten(v: int)
    ensures var b := Be32(v); b[0] * 0x100_0000 + b[1] * 0x1_0000 + b[2] * 0x100 + b[3] == v % TWO32
  {
    var a, b, c := v / 0x100, v / 0x1_0000, v / 0x100_0000;
    Divisions(v);
    assert v == a * 0x100 + v % 0x100;
    assert a == b * 0x100 + a % 0x100;
    assert b == c * 0x100 + b % 0x100;
    assert c == v / 0x1_0000_0000 * 0x100 + c % 0x100;
  }

  /** Reading a word back from where it was written. */
  lemma ReadBack(before: Bytes, v: int, after: Bytes)
    ensures ReadU32(before + Be32(v) + after, |before|) == v % TWO32
  {
    hide Be32;
    ReadWritten(v);
    var t := before + Be32(v) + after;
    assert forall k :: 0 <= k < 4 ==> t[|before| + k] == Be32(v)[k];
  }

  function BoxBytes(name: Name, payload: Bytes): (b: Bytes)
    ensures |b| == 8 + |payload|
  {
    Be32(8 + |payload|) + name + payload
  }

  // ---------- reading ----------

  /** `subarray(lo, hi)` for non-negative bounds. */
  function Sub(t: Bytes, lo: nat, hi: nat): Bytes {
    var h := if hi > |t| then |t| else hi;
    if lo >= h then [] else t[lo..h]
  }

  /** Where the box at `n` ends: sizes 0 and 1 mean the rest of the data. */
  function BoxEnd(t: Bytes, n: nat): (s: nat)
    requires n < |t|
    ensures s > n
  {
    var a := ReadU32(t, n);
    if a > 1 then n + a else |t|
  }

  /** What the box at `n` contributes. */
  function FindHere(t: Bytes, path: seq<Name>, n: nat): seq<Bytes>
    requires path != [] && n < |t|
    decreases |path|, 0, 0
  {
    if Sub(t, n + 4, n + 8) != path[0] then []
    else if |path| == 1 then [Sub(t, n + 8, BoxEnd(t, n))]
    else FindFrom(Sub(t, n + 8, BoxEnd(t, n)), path[1..], 0)
  }

  /** The payloads found from offset `n` on, in order. */
  function FindFrom(t: Bytes, path: seq<Name>, n: nat): seq<Bytes>
    decreases |path|, 1, if n < |t| then |t| - n else 0
  {
    if path == [] || n >= |t| then [] else FindHere(t, path, n) + FindFrom(t, path, BoxEnd(t, n))
  }

  /** The search, with its loop over the boxes of one level. Any bytes at all make it end. */
  method FindBox(t: Bytes, path: seq<Name>) returns (r: seq<Bytes>)
    ensures r == FindFrom(t, path, 0)
    decreases |path|
  {
    hide Sub, BoxEnd;
    r := [];
    if path == [] {
      return;
    }
    var n := 0;
    while n < |t|
      invariant FindFrom(t, path, 0) == r + FindFrom(t, path, n)
      decreases |t| - n
    {
      var s := BoxEnd(t, n);
      Regroup(r, FindHere(t, path, n), FindFrom(t, path, s));
      if Sub(t, n + 4, n + 8) == path[0] {
        if |path| == 1 {
          r := r + [Sub(t, n + 8, s)];
        } else {
          var o := FindBox(Sub(t, n + 8, s), path[1..]);
          r := r + o;
        }
      }
      n := s;
    }
  }

  /** The writer: sums the sizes, then copies the parts one after the other. */
  method WriteBox(name: Name, parts: seq<Bytes>) returns (o: array<int>)
    ensures fresh(o) && o[..] == BoxBytes(name, Concat(parts))
  {
    var e, a := 8, |parts|;
    while a > 0
      invariant 0 <= a <= |parts| && e == 8 + |Concat(parts[a..])|
    {
      a := a - 1;
      assert parts[a..][1..] == parts[a + 1..];
      e := e + |parts[a]|;
    }
    assert parts[0..] == parts;
    o := new int[e];
    var head := Be32(e);
    o[0], o[1], o[2], o[3] := head[0], head[1], head[2], head[3];
    o[4], o[5], o[6], o[7] := name[0], name[1], name[2], name[3];
    a, e := 0, 8;
    while a < |parts|
      invariant 0 <= a <= |parts| && e + |Concat(parts[a..])| == o.Length && 8 <= e
      invariant o[..e] + Concat(parts[a..]) == BoxBytes(name, Concat(parts))
    {
      assert parts[a..][1..] == parts[a + 1..];
      Set(o, parts[a], e);
      e := e + |parts[a]|;
      a := a + 1;
    }
    assert o[..] == o[..e];
  }

  /** `o.set(part, at)`. */
  method Set(o: array<int>, part: Bytes, at: nat)
    requires at + |part| <= o.Length
    modifies o
    ensures o[..at + |part|] == old(o[..at]) + part
    ensures forall i :: at + |part| <= i < o.Length ==> o[i] == old(o[i])
  {
    for i := 0 to |part|
      invariant o[..at] == old(o[..at])
      invariant forall j :: 0 <= j < i ==> o[at + j] == part[j]
      invariant forall j :: at + i <= j < o.Length ==> o[j] == old(o[j])
    {
      o[at + i] := part[i];
    }
  }
}
