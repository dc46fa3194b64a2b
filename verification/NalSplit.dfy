/** Annex B byte streams (ITU-T H.264): the plain definition of how start codes cut a stream into units. */
module NalSplit {
  /** Bytes; nothing here depends on their range. */
  type Bytes = seq<int>

  datatype Unit = Unit(kind: nat, data: Bytes)

  ghost predicate StartAt(s: Bytes, p: int) {
    0 <= p && p + 3 <= |s| && s[p] == 0 && s[p + 1] == 0 && s[p + 2] == 1
  }

  /** The first start code at or after `i`, or the length when there is none. */
  ghost function FindStart(s: Bytes, i: nat): (p: nat)
    requires i <= |s|
    ensures i <= p <= |s|
    ensures p < |s| ==> StartAt(s, p) && p + 3 <= |s|
    ensures forall q :: i <= q < p ==> !StartAt(s, q)
    decreases |s| - i
  {
    if i + 3 > |s| then |s| else if StartAt(s, i) then i else FindStart(s, i + 1)
  }

  /** The units of a stream whose last start code ends at `i`. */
  ghost function UnitsFrom(s: Bytes, i: nat): seq<Unit>
    requires i <= |s|
    decreases |s| - i
  {
    if i == |s| then []
    else
      var p := FindStart(s, i);
      [Unit(s[i] % 32, s[i..p])] + if p < |s| then UnitsFrom(s, p + 3) else []
  }

  ghost function Split(s: Bytes): seq<Unit> {
    var p := FindStart(s, 0);
    if p < |s| then UnitsFrom(s, p + 3) else []
  }

  // ---------- the same cut, one byte at a time ----------

  /** Zeros seen so far (at most 3), or -1 right after a start code. */
  function Step(a: int, r: int): int {
    if a == 0 || a == -1 then if r == 0 then 1 else 0
    else if a == 1 then if r == 0 then 2 else 0
    else if r == 0 then 3
    else if r == 1 then -1
    else 0
  }

  ghost function Scan(a: int, e: Bytes): int {
    if e == [] then a else Step(Scan(a, e[..|e| - 1]), e[|e| - 1])
  }

  lemma {:induction false} ScanAppend(a: int, x: Bytes, y: Bytes)
    ensures Scan(a, x + y) == Scan(Scan(a, x), y)
  {
    if y == [] {
      assert x + y == x;
    } else {
      assert (x + y)[..|x + y| - 1] == x + y[..|y| - 1];
      ScanAppend(a, x, y[..|y| - 1]);
    }
  }

  ghost function Zeros(s: Bytes): (z: nat)
    ensures z <= |s| && (forall k :: |s| - z <= k < |s| ==> s[k] == 0)
    ensures z < |s| ==> s[|s| - 1 - z] != 0
  {
    if s == [] || s[|s| - 1] != 0 then 0 else 1 + Zeros(s[..|s| - 1])
  }

  ghost predicate EndsWithStart(s: Bytes) { StartAt(s, |s| - 3) }

  /** What the scanning state means. */
  lemma {:induction false} ScanIs(s: Bytes)
    ensures Scan(0, s) == if EndsWithStart(s) then -1 else if Zeros(s) > 3 then 3 else Zeros(s)
  {
    if s == [] {
    } else {
      var t := s[..|s| - 1];
      ScanIs(t);
      if EndsWithStart(t) {
        assert t[|t| - 1] == 1;
      }
      if Zeros(t) >= 2 {
        assert t[|t| - 1] == 0 && t[|t| - 2] == 0;
      }
    }
  }

  ghost function Last<T>(s: seq<T>): T
    requires s != []
  {
    s[|s| - 1]
  }

  ghost function Extend(us: seq<Unit>, more: Bytes): seq<Unit> {
    if us == [] then [] else us[|us| - 1 := Last(us).(data := Last(us).data + more)]
  }

  ghost function Shorten(us: seq<Unit>, n: nat): seq<Unit> {
    if us == [] then []
    else
      var d := Last(us).data;
      us[|us| - 1 := Last(us).(data := if n <= |d| then d[..|d| - n] else [])]
  }

  lemma FindSnoc(s: Bytes, b: int, i: nat)
    requires i <= |s|
    ensures var t := s + [b];
            var p := FindStart(s, i);
            FindStart(t, i) == if p < |s| then p else if i + 3 <= |t| && EndsWithStart(t) then |t| - 3 else |t|
  {
    var t := s + [b];
    var p, q := FindStart(s, i), FindStart(t, i);
    assert forall k :: i <= k < |s| - 2 ==> (StartAt(t, k) <==> StartAt(s, k));
    if p < |s| {
      assert StartAt(t, p);
    }
  }

  /** How the units `us` of a stream become the units `vs` of the stream grown by the byte `b`. */
  ghost predicate Snoc(s: Bytes, b: int, us: seq<Unit>, vs: seq<Unit>) {
    var t := s + [b];
    && (EndsWithStart(t) && us != [] ==> |Last(us).data| >= 2 && Zeros(Last(us).data) >= 2)
    && (EndsWithStart(s) ==> !EndsWithStart(t))
    && vs == if EndsWithStart(t) then Shorten(us, 2)
             else if EndsWithStart(s) then us + [Unit(b % 32, [b])]
             else Extend(us, [b])
  }

  lemma SnocCons(s: Bytes, b: int, u: Unit, us: seq<Unit>, vs: seq<Unit>)
    requires Snoc(s, b, us, vs) && (us == [] ==> EndsWithStart(s))
    ensures Snoc(s, b, [u] + us, [u] + vs)
  {
    hide StartAt, Zeros;
    if us != [] {
      assert Last([u] + us) == Last(us);
    }
  }

  lemma UnitsOnce(s: Bytes, i: nat)
    requires i <= |s|
    ensures i == |s| ==> UnitsFrom(s, i) == []
    ensures i < |s| ==> var p := FindStart(s, i);
      UnitsFrom(s, i) == [Unit(s[i] % 32, s[i..p])] + if p < |s| then UnitsFrom(s, p + 3) else []
  {
  }

  /** A unit that no start code ends runs to the end of the stream. */
  lemma OneUnit(s: Bytes, i: nat, p: nat)
    requires i < |s| && FindStart(s, i) == p && (p < |s| ==> p + 3 == |s|)
    ensures UnitsFrom(s, i) == [Unit(s[i] % 32, s[i..p])]
  {
    hide FindStart;
    if p < |s| {
      assert UnitsFrom(s, |s|) == [];
    }
  }

  /** The last unit of a stream, grown by a byte. */
  lemma LastUnitSnoc(s: Bytes, b: int, i: nat)
    requires 3 <= i < |s| && StartAt(s, i - 3) && FindStart(s, i) == |s|
    ensures Snoc(s, b, UnitsFrom(s, i), UnitsFrom(s + [b], i))
  {
    hide FindStart, Zeros, UnitsFrom, StartAt;
    var t, d := s + [b], s[i..];
    FindSnoc(s, b, i);
    NoOverlap(s, b, i);
    OneUnit(s, i, |s|);
    assert s[i..|s|] == d;
    if EndsWithStart(t) {
      assert t[i..|t| - 3] == d[..|d| - 2];
      OneUnit(t, i, |t| - 3);
      TwoZeros(d);
    } else {
      assert t[i..|t|] == d + [b];
      OneUnit(t, i, |t|);
    }
  }

  /** Start codes do not overlap. */
  lemma NoOverlap(s: Bytes, b: int, i: nat)
    requires 3 <= i < |s| && StartAt(s, i - 3) && FindStart(s, i) == |s|
    ensures !EndsWithStart(s)
    ensures EndsWithStart(s + [b]) ==> i + 3 <= |s| + 1 && s[|s| - 1] == 0 && s[|s| - 2] == 0
  {
    hide FindStart;
    assert s[i - 1] == 1;
    var t := s + [b];
    if EndsWithStart(t) {
      assert t[|t| - 2] == 0 && t[|t| - 3] == 0;
    }
  }

  lemma TwoZeros(d: Bytes)
    requires |d| >= 2 && d[|d| - 1] == 0 && d[|d| - 2] == 0
    ensures Zeros(d) >= 2
  {
    assert d[..|d| - 1][|d| - 2] == 0;
  }

  lemma {:induction false} UnitsSnoc(s: Bytes, b: int, i: nat)
    requires 3 <= i <= |s| && StartAt(s, i - 3)
    ensures Snoc(s, b, UnitsFrom(s, i), UnitsFrom(s + [b], i))
    ensures UnitsFrom(s, i) == [] ==> EndsWithStart(s)
    decreases |s| - i
  {
    hide Snoc, FindStart, UnitsFrom, StartAt;
    var t := s + [b];
    UnitsOnce(s, i);
    UnitsOnce(t, i);
    if i == |s| {
      OneByteUnit(s, b);
    } else {
      var p := FindStart(s, i);
      if p < |s| {
        FindSnoc(s, b, i);
        UnitsSnoc(s, b, p + 3);
        assert t[i] == s[i] && t[i..p] == s[i..p];
        SnocCons(s, b, Unit(s[i] % 32, s[i..p]), UnitsFrom(s, p + 3), UnitsFrom(t, p + 3));
      } else {
        LastUnitSnoc(s, b, i);
      }
    }
  }

  lemma OneByteUnit(s: Bytes, b: int)
    requires EndsWithStart(s)
    ensures Snoc(s, b, [], UnitsFrom(s + [b], |s|))
  {
    hide FindStart, UnitsFrom;
    var t := s + [b];
    assert t[|s|..|t|] == [b];
    assert s[|s| - 1] == 1;
    UnitsOnce(t, |s|);
  }

  /** How one more byte changes the split of a stream. */
  lemma SplitSnoc(s: Bytes, b: int)
    ensures Snoc(s, b, Split(s), Split(s + [b]))
  {
    hide FindStart, StartAt, Snoc;
    FindSnoc(s, b, 0);
    var p := FindStart(s, 0);
    if p < |s| {
      UnitsSnoc(s, b, p + 3);
    } else {
      NoStart(s, b);
    }
  }

  lemma NoStart(s: Bytes, b: int)
    requires FindStart(s, 0) == |s|
    ensures Snoc(s, b, [], [])
    ensures EndsWithStart(s + [b]) ==> |s| >= 2 && UnitsFrom(s + [b], |s| + 1) == []
  {
    hide FindStart;
    assert !EndsWithStart(s);
  }

  // ---------- what a split is worth ----------

  /** A stream put back together from units: a start code before each. */
  ghost function Join(us: seq<Unit>): Bytes {
    if us == [] then [] else [0, 0, 1] + us[0].data + Join(us[1..])
  }

  ghost function Tail(s: Bytes): Bytes { if EndsWithStart(s) then [0, 0, 1] else [] }

  lemma {:induction false} JoinFrom(s: Bytes, i: nat)
    requires 3 <= i <= |s| && StartAt(s, i - 3)
    ensures Join(UnitsFrom(s, i)) + Tail(s) == s[i - 3..]
    decreases |s| - i
  {
    hide FindStart, UnitsFrom, Tail, Join, StartAt;
    JoinNil();
    UnitsOnce(s, i);
    if i == |s| {
      TailIs(s, i);
      Reassemble(s, i, i);
    } else {
      var p := FindStart(s, i);
      Reassemble(s, i, p);
      if p < |s| {
        JoinFrom(s, p + 3);
        JoinCons(Unit(s[i] % 32, s[i..p]), UnitsFrom(s, p + 3), Tail(s));
      } else {
        TailIs(s, i);
        JoinCons(Unit(s[i] % 32, s[i..p]), [], Tail(s));
      }
    }
  }

  lemma JoinNil()
    ensures Join([]) == []
  {
  }

  lemma JoinCons(u: Unit, us: seq<Unit>, tail: Bytes)
    ensures Join([u] + us) + tail == [0, 0, 1] + u.data + (Join(us) + tail)
  {
    assert ([u] + us)[1..] == us;
    assert Join([u] + us) == [0, 0, 1] + u.data + Join(us);
  }

  lemma TailIs(s: Bytes, i: nat)
    requires 3 <= i <= |s| && StartAt(s, i - 3) && FindStart(s, i) == |s|
    ensures Tail(s) == if i == |s| then [0, 0, 1] else []
  {
    hide FindStart;
    assert s[i - 1] == 1;
  }

  lemma Reassemble(s: Bytes, i: nat, p: nat)
    requires 3 <= i <= p <= |s| && StartAt(s, i - 3)
    ensures [0, 0, 1] + s[i..p] + s[p..] == s[i - 3..]
  {
  }

  /** Nothing after the first start code is lost. */
  lemma SplitLossless(s: Bytes)
    ensures Join(Split(s)) + Tail(s) == s[FindStart(s, 0)..]
  {
    var p := FindStart(s, 0);
    if p < |s| {
      JoinFrom(s, p + 3);
    }
  }

  lemma {:induction false} UnitsClean(s: Bytes, i: nat, k: nat, q: int)
    requires i <= |s| && k < |UnitsFrom(s, i)|
    ensures !StartAt(UnitsFrom(s, i)[k].data, q)
    decreases |s| - i
  {
    hide FindStart, UnitsFrom, StartAt;
    UnitsOnce(s, i);
    var p := FindStart(s, i);
    if k > 0 {
      UnitsClean(s, p + 3, k - 1, q);
    } else {
      SliceClean(s, i, p, q);
    }
  }

  lemma SliceClean(s: Bytes, i: nat, p: nat, q: int)
    requires i <= |s| && p == FindStart(s, i)
    ensures !StartAt(s[i..p], q)
  {
    hide FindStart;
    assert 0 <= q && i + q < p ==> !StartAt(s, i + q);
  }

  /** No unit contains a start code. */
  lemma SplitClean(s: Bytes, k: nat, q: int)
    requires k < |Split(s)|
    ensures !StartAt(Split(s)[k].data, q)
  {
    UnitsClean(s, FindStart(s, 0) + 3, k, q);
  }

  lemma {:induction false} UnitsKinds(s: Bytes, i: nat, k: nat)
    requires i <= |s| && k < |UnitsFrom(s, i)|
    ensures var u := UnitsFrom(s, i)[k]; u.kind == if u.data == [] then 0 else u.data[0] % 32
    decreases |s| - i
  {
    hide FindStart, UnitsFrom;
    UnitsOnce(s, i);
    var p := FindStart(s, i);
    if k == 0 {
      if p == i {
        assert StartAt(s, i);
      }
    } else {
      UnitsKinds(s, p + 3, k - 1);
    }
  }

  /** The type of a unit is in the low five bits of its header byte; a unit without one counts as type 0. */
  lemma SplitKinds(s: Bytes, k: nat)
    requires k < |Split(s)|
    ensures var u := Split(s)[k]; u.kind == if u.data == [] then 0 else u.data[0] % 32
  {
    hide FindStart, UnitsFrom;
    UnitsKinds(s, FindStart(s, 0) + 3, k);
  }
}
