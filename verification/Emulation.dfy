/** Emulation prevention (section 7.3.1 of ITU-T H.264): 03 breaks up 00 00, so that no unit contains a start code. */
module Emulation {
  import opened Sequences

  type Bytes = seq<int>

  // ---------- the plain definitions ----------

  /** Dropping every 03 that follows 00 00. */
  function Remove(s: Bytes): Bytes {
    if |s| < 3 then s
    else if s[0] == 0 && s[1] == 0 && s[2] == 3 then [0, 0] + Remove(s[3..])
    else [s[0]] + Remove(s[1..])
  }

  /** The payload after its one-byte header, without emulation prevention bytes. */
  function Unescape(t: Bytes): Bytes { if t == [] then [] else [t[0]] + Remove(t[1..]) }

  /** Inserting 03 before a byte of at most 3 that follows two zeros; `z` zeros have just been written.
      A payload that ends in two zeros may be closed by a 03 as well. */
  function Insert(p: Bytes, z: nat, close: bool): Bytes {
    if p == [] then if z == 2 && close then [3] else []
    else if z == 2 && p[0] <= 3 then [3, p[0]] + Insert(p[1..], if p[0] == 0 then 1 else 0, close)
    else [p[0]] + Insert(p[1..], if p[0] == 0 then z + 1 else 0, close)
  }

  function Zeros(z: nat): Bytes { seq(z, _ => 0) }

  lemma {:induction false} RemoveInsert(p: Bytes, z: nat, close: bool)
    requires z <= 2 && forall i :: 0 <= i < |p| ==> 0 <= p[i]
    ensures Remove(Zeros(z) + Insert(p, z, close)) == Zeros(z) + p
    decreases |p|
  {
    hide Remove;
    if p == [] {
      Closed(z, close);
    } else {
      var b, rest := p[0], p[1..];
      assert p == [b] + rest;
      var z' := if z == 2 && b <= 3 then (if b == 0 then 1 else 0) else if b == 0 then z + 1 else 0;
      RemoveInsert(rest, z', close);
      if z == 2 && b <= 3 {
        Escaped(b, Insert(rest, z', close));
        After(b, z', rest, Insert(rest, z', close));
      } else if b == 0 {
        Shift(z, Insert(rest, z', close));
        Shift(z, rest);
      } else {
        NoZeros(Insert(rest, 0, close));
        NoZeros(rest);
        ZerosThen(z, b, Insert(rest, 0, close));
        Regroup(Zeros(z), [b], Insert(rest, 0, close));
        Regroup(Zeros(z), [b], rest);
      }
    }
  }

  lemma Closed(z: nat, close: bool)
    requires z <= 2
    ensures Remove(Zeros(z) + Insert([], z, close)) == Zeros(z) + []
  {
  }

  lemma NoZeros(s: Bytes)
    ensures Zeros(0) + s == s
  {
  }

  lemma Shift(z: nat, s: Bytes)
    ensures Zeros(z) + ([0] + s) == Zeros(z + 1) + s
  {
  }

  /** Two zeros and an inserted 03. */
  lemma Escaped(b: int, more: Bytes)
    ensures Remove(Zeros(2) + ([3, b] + more)) == Zeros(2) + Remove([b] + more)
  {
    var s := Zeros(2) + ([3, b] + more);
    assert s[3..] == [b] + more;
    assert [0, 0] == Zeros(2);
  }

  lemma After(b: int, z: nat, rest: Bytes, more: Bytes)
    requires z == (if b == 0 then 1 else 0) && Remove(Zeros(z) + more) == Zeros(z) + rest
    ensures Remove([b] + more) == [b] + rest
  {
    hide Remove;
    if b == 0 {
      assert Zeros(1) == [0];
    } else {
      NoZeros(more);
      NoZeros(rest);
      Plain(b, more);
    }
  }

  lemma Plain(b: int, more: Bytes)
    requires b != 0
    ensures Remove([b] + more) == [b] + Remove(more)
  {
    assert ([b] + more)[1..] == more;
    if |more| < 2 {
      assert Remove(more) == more;
    }
  }

  lemma ZerosThen(z: nat, b: int, more: Bytes)
    requires z <= 2 && b != 0 && (z == 2 ==> b != 3)
    ensures Remove(Zeros(z) + [b] + more) == Zeros(z) + [b] + Remove(more)
  {
    hide Remove;
    Plain(b, more);
    if z == 0 {
      assert Zeros(0) + [b] + more == [b] + more;
    } else {
      OneZero(b, more);
      if z == 1 {
        assert Zeros(1) + [b] + more == [0, b] + more;
      } else {
        TwoZeros(b, more);
        assert Zeros(2) + [b] + more == [0, 0, b] + more;
      }
    }
  }

  lemma OneZero(b: int, more: Bytes)
    requires b != 0
    ensures Remove([0, b] + more) == [0] + Remove([b] + more)
  {
    assert ([0, b] + more)[1..] == [b] + more;
  }

  lemma TwoZeros(b: int, more: Bytes)
    requires b != 0 && b != 3
    ensures Remove([0, 0, b] + more) == [0] + Remove([0, b] + more)
  {
    assert ([0, 0, b] + more)[1..] == [0, b] + more;
  }

  /** Removing undoes inserting, for every payload behind its header byte. */
  lemma UnescapeEscaped(header: int, p: Bytes, close: bool)
    requires forall i :: 0 <= i < |p| ==> 0 <= p[i]
    ensures Unescape([header] + Insert(p, 0, close)) == [header] + p
  {
    var t := [header] + Insert(p, 0, close);
    assert t[1..] == Zeros(0) + Insert(p, 0, close);
    RemoveInsert(p, 0, close);
    assert Zeros(0) + p == p;
  }

  /** Two zeros are never followed by a byte below 3, so no start code is written. */
  ghost predicate Clean(s: Bytes) { forall k :: 0 <= k < |s| - 2 && s[k] == 0 && s[k + 1] == 0 ==> s[k + 2] >= 3 }

  lemma CleanAfter(a: int, s: Bytes)
    requires Clean(s) && (a == 0 && |s| >= 2 && s[0] == 0 ==> s[1] >= 3)
    ensures Clean([a] + s)
  {
    var t := [a] + s;
    forall k | 0 <= k < |t| - 2 && t[k] == 0 && t[k + 1] == 0 ensures t[k + 2] >= 3 {
      if k > 0 {
        assert t[k] == s[k - 1] && t[k + 1] == s[k] && t[k + 2] == s[k + 1];
      }
    }
  }

  lemma {:induction false} InsertClean(p: Bytes, z: nat, close: bool)
    requires z <= 2
    ensures Clean(Zeros(z) + Insert(p, z, close))
    decreases |p|
  {
    hide Clean;
    if p == [] {
      FewBytes(z, close);
    } else {
      var b, rest := p[0], p[1..];
      var z' := if z == 2 && b <= 3 then (if b == 0 then 1 else 0) else if b == 0 then z + 1 else 0;
      var more := Insert(rest, z', close);
      InsertClean(rest, z', close);
      if b == 0 && z < 2 {
        assert Zeros(z) + ([0] + more) == Zeros(z + 1) + more;
      } else {
        OneMore(b, more);
        if z == 2 && b <= 3 {
          EscapedByte([b] + more);
          assert [3, b] + more == [3] + ([b] + more);
        } else {
          BehindZeros(z, b, more);
        }
      }
    }
  }

  lemma EscapedByte(s: Bytes)
    requires Clean(s)
    ensures Clean(Zeros(2) + ([3] + s))
  {
    hide Clean;
    CleanAfter(3, s);
    CleanAfter(0, [3] + s);
    CleanAfter(0, [0] + ([3] + s));
    assert Zeros(2) + ([3] + s) == [0] + ([0] + ([3] + s));
  }

  lemma FewBytes(z: nat, close: bool)
    requires z <= 2
    ensures Clean(Zeros(z) + Insert([], z, close))
  {
  }

  lemma OneMore(b: int, more: Bytes)
    requires Clean(if b == 0 then Zeros(1) + more else Zeros(0) + more)
    ensures Clean([b] + more)
  {
    if b == 0 {
      assert Zeros(1) + more == [b] + more;
    } else {
      assert Zeros(0) + more == more;
      CleanAfter(b, more);
    }
  }

  lemma BehindZeros(z: nat, b: int, more: Bytes)
    requires z <= 2 && b != 0 && (z == 2 ==> b > 3) && Clean([b] + more)
    ensures Clean(Zeros(z) + ([b] + more))
  {
    hide Clean;
    if z == 0 {
      assert Zeros(0) + ([b] + more) == [b] + more;
    } else {
      CleanAfter(0, [b] + more);
      if z == 1 {
        assert Zeros(1) + ([b] + more) == [0] + ([b] + more);
      } else {
        CleanAfter(0, [0] + ([b] + more));
        assert Zeros(2) + ([b] + more) == [0] + ([0] + ([b] + more));
      }
    }
  }

  /** What is inserted is what the standard asks for: no two zeros are followed by a byte below 3. */
  lemma EscapedIsClean(p: Bytes, close: bool)
    ensures Clean(Insert(p, 0, close))
  {
    InsertClean(p, 0, close);
    assert Zeros(0) + Insert(p, 0, close) == Insert(p, 0, close);
  }

  /** Whatever stands before and behind it, a 03 that follows 00 00 is dropped, and nothing else is. */
  lemma {:induction false} RemoveDrops(p: Bytes, more: Bytes)
    ensures Remove(p + [0, 0, 3] + more) == Remove(p) + [0, 0] + Remove(more)
    decreases |p|
  {
    hide Remove;
    var s := p + [0, 0, 3] + more;
    if p == [] {
      assert s[3..] == more;
      RemoveOnce(s);
      RemoveOnce(p);
    } else if |p| >= 3 && p[0] == 0 && p[1] == 0 && p[2] == 3 {
      assert s[3..] == p[3..] + [0, 0, 3] + more;
      RemoveOnce(s);
      RemoveOnce(p);
      RemoveDrops(p[3..], more);
    } else {
      assert s[1..] == p[1..] + [0, 0, 3] + more;
      RemoveOnce(s);
      RemoveOnce(p);
      RemoveOnce(p[1..]);
      RemoveDrops(p[1..], more);
    }
  }

  lemma RemoveOnce(s: Bytes)
    ensures Remove(s) ==
      if |s| < 3 then s
      else if s[0] == 0 && s[1] == 0 && s[2] == 3 then [0, 0] + Remove(s[3..])
      else [s[0]] + Remove(s[1..])
  {
  }

  /** Bytes without 00 00 03 stay as they are. */
  lemma {:induction false} RemoveKeeps(s: Bytes)
    requires forall k :: 0 <= k < |s| - 2 ==> !(s[k] == 0 && s[k + 1] == 0 && s[k + 2] == 3)
    ensures Remove(s) == s
  {
    if |s| >= 3 {
      RemoveKeeps(s[1..]);
    }
  }

  // ---------- the two loops ----------

  /** The indices the scan collects from `i` on. */
  function Positions(t: Bytes, i: nat): seq<nat>
    decreases |t| - i
  {
    if i + 2 >= |t| then []
    else if t[i] == 0 && t[i + 1] == 0 && t[i + 2] == 3 then [i + 2] + Positions(t, i + 2)
    else Positions(t, i + 1)
  }

  /** The bytes from `s` on, without those at the given indices. */
  function Without(t: Bytes, s: nat, r: seq<nat>): Bytes
    decreases |t| - s
  {
    if s >= |t| then []
    else if r != [] && r[0] == s then Without(t, s + 1, r[1..])
    else [t[s]] + Without(t, s + 1, r)
  }

  /** Indices from `s` on, in range, no two of them adjacent. */
  ghost predicate Spaced(r: seq<nat>, s: nat, n: nat) {
    r == [] || (s <= r[0] < n && Spaced(r[1..], r[0] + 2, n))
  }

  lemma {:induction false} SpacedMore(r: seq<nat>, s: nat, s': nat, n: nat)
    requires Spaced(r, s, n) && s' <= s
    ensures Spaced(r, s', n)
  {
  }

  lemma {:induction false} PositionsSpaced(t: Bytes, i: nat)
    ensures Spaced(Positions(t, i), i + 2, |t|)
    decreases |t| - i
  {
    if i + 2 < |t| {
      if t[i] == 0 && t[i + 1] == 0 && t[i + 2] == 3 {
        PositionsSpaced(t, i + 2);
        assert Positions(t, i)[1..] == Positions(t, i + 2);
      } else {
        PositionsSpaced(t, i + 1);
        SpacedMore(Positions(t, i + 1), i + 3, i + 2, |t|);
      }
    }
  }

  lemma {:induction false} WithoutLength(t: Bytes, s: nat, r: seq<nat>)
    requires s <= |t| && Spaced(r, s, |t|)
    ensures |Without(t, s, r)| == |t| - s - |r|
    decreases |t| - s
  {
    if s < |t| {
      if r != [] && r[0] == s {
        SpacedMore(r[1..], s + 2, s + 1, |t|);
        WithoutLength(t, s + 1, r[1..]);
      } else {
        WithoutLength(t, s + 1, r);
      }
    }
  }

  /** Dropping the collected indices is removal. */
  lemma {:induction false} WithoutPositions(t: Bytes, i: nat)
    requires i <= |t|
    ensures Without(t, i, Positions(t, i)) == Remove(t[i..])
    decreases |t| - i
  {
    var s := t[i..];
    if i + 2 >= |t| {
      WithoutNone(t, i);
    } else if s[0] == 0 && s[1] == 0 && s[2] == 3 {
      WithoutPositions(t, i + 3);
      assert s[3..] == t[i + 3..];
      NextPositions(t, i);
      var r := Positions(t, i);
      assert r[0] == i + 2 && r[1..] == Positions(t, i + 3);
      assert Without(t, i + 2, r) == Without(t, i + 3, r[1..]);
      assert Without(t, i + 1, r) == [0] + Without(t, i + 2, r);
    } else {
      WithoutPositions(t, i + 1);
      assert s[1..] == t[i + 1..];
      PositionsSpaced(t, i + 1);
    }
  }

  lemma NextPositions(t: Bytes, i: nat)
    requires i + 2 < |t| && t[i + 2] == 3
    ensures Positions(t, i + 2) == Positions(t, i + 3)
  {
  }

  lemma {:induction false} WithoutNone(t: Bytes, i: nat)
    requires i <= |t|
    ensures Without(t, i, []) == t[i..]
    decreases |t| - i
  {
    if i < |t| {
      WithoutNone(t, i + 1);
    }
  }

  /** Collects the indices, then copies around them, skipping at most one byte at a time. */
  method RemoveEmulationPrevention(t: Bytes) returns (a: Bytes)
    ensures a == Unescape(t)
  {
    var e := |t|;
    var r: seq<nat> := [];
    var i := 1;
    while i < e - 2
      invariant 1 <= i && r + Positions(t, i) == Positions(t, 1)
      decreases e - i
    {
      if t[i] == 0 && t[i + 1] == 0 && t[i + 2] == 3 {
        r := r + [i + 2];
        i := i + 2;
      } else {
        i := i + 1;
      }
    }
    assert r == Positions(t, 1);
    if t == [] {
      return t;
    }
    PositionsSpaced(t, 1);
    WithoutPositions(t, 1);
    assert Without(t, 0, r) == Unescape(t);
    if |r| == 0 {
      WithoutNone(t, 0);
      return t;
    }
    var n := e - |r|;
    SpacedMore(r, 3, 0, e);
    WithoutLength(t, 0, r);
    a := CopyAround(t, r, n);
  }

  /** The copy loop: indices are never adjacent, so one skip per byte is enough. */
  method CopyAround(t: Bytes, indices: seq<nat>, n: nat) returns (a: Bytes)
    requires Spaced(indices, 0, |t|) && n == |t| - |indices|
    ensures a == Without(t, 0, indices)
  {
    hide Spaced, Without;
    WithoutLength(t, 0, indices);
    var copy := new int[n];
    var r, s, i := indices, 0, 0;
    while i < n
      invariant 0 <= i <= n && 0 <= s <= |t| && Spaced(r, s, |t|)
      invariant |Without(t, s, r)| == n - i && copy[..i] + Without(t, s, r) == Without(t, 0, indices)
    {
      NextKept(t, s, r);
      if r != [] && s == r[0] {
        s := s + 1;
        r := r[1..];
      }
      copy[i] := t[s];
      s, i := s + 1, i + 1;
    }
    a := copy[..];
  }

  lemma NextKept(t: Bytes, s: nat, r: seq<nat>)
    requires s <= |t| && Spaced(r, s, |t|) && Without(t, s, r) != []
    ensures var skip := r != [] && r[0] == s;
            var s', r' := if skip then s + 1 else s, if skip then r[1..] else r;
            && s' < |t| && Spaced(r', s' + 1, |t|)
            && Without(t, s, r) == [t[s']] + Without(t, s' + 1, r')
  {
  }
}
