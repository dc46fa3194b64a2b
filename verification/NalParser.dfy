/** The streaming NAL unit splitter: packets cut the byte stream anywhere, and a carried state joins the pieces. */
module NalParser {
  import opened NalSplit
  import opened Sequences

  /** A unit as it is stored: its bytes, its type, and the zeros it ended with when its packet ended. */
  datatype NalUnit = NalUnit(unit: Unit, state: int)

  ghost function Strip(d: Bytes): Bytes { d[..|d| - Zeros(d)] }

  ghost predicate Same(u: Unit, v: Unit) { u.kind == v.kind && Strip(u.data) == Strip(v.data) }

  /** The stored units are the units of the stream up to trailing zeros, except exactly those in `bad`;
      the unit still open is exact. */
  ghost predicate Represents(us: seq<NalUnit>, s: Bytes, bad: set<nat>) {
    var vs := Split(s);
    && |us| == |vs|
    && (forall k :: k in bad ==> k < |us|)
    && (forall k :: 0 <= k < |us| ==> (Same(us[k].unit, vs[k]) <==> k !in bad))
    && (us != [] && !EndsWithStart(s) ==> Last(us).unit == Last(vs))
  }

  function Append(us: seq<NalUnit>, more: Bytes): (r: seq<NalUnit>)
    ensures |r| == |us|
  {
    if us == [] then us
    else
      var v := us[|us| - 1];
      us[|us| - 1 := v.(unit := v.unit.(data := v.unit.data + more))]
  }

  /** The first start code of a packet falls at its very end, and there are earlier units (`n` of them). */
  ghost predicate StartCodeLast(n: nat, a: int, e: Bytes) {
    n > 0 && a != -1 && Scan(a, e) == -1 && forall l :: 0 < l < |e| ==> Scan(a, e[..l]) != -1
  }

  lemma {:induction false} StripPrefix(d: Bytes, m: nat)
    requires m <= |d| && |d| - m <= Zeros(d)
    ensures Strip(d[..m]) == Strip(d)
    decreases |d|
  {
    if m == |d| {
      assert d[..m] == d;
    } else {
      var c := d[..|d| - 1];
      assert c[..m] == d[..m] && Strip(c) == Strip(d);
      StripPrefix(c, m);
    }
  }

  lemma RepresentsGrow(us: seq<NalUnit>, s: Bytes, bad: set<nat>, r: int)
    requires Represents(us, s, bad) && !EndsWithStart(s) && !EndsWithStart(s + [r])
    ensures Represents(Append(us, [r]), s + [r], bad)
  {
    hide StartAt, Split, Strip;
    SplitSnoc(s, r);
  }

  lemma RepresentsOpen(us: seq<NalUnit>, s: Bytes, bad: set<nat>, r: int, state: int)
    requires Represents(us, s, bad) && EndsWithStart(s)
    ensures Represents(us + [NalUnit(Unit(r % 32, [r]), state)], s + [r], bad)
  {
    hide StartAt, Split, Strip;
    SplitSnoc(s, r);
  }

  /** Closing the open unit: any stored bytes that agree with it up to trailing zeros will do. */
  lemma RepresentsClose(us: seq<NalUnit>, s: Bytes, bad: set<nat>, r: int, patched: seq<NalUnit>)
    requires Represents(us, s, bad) && EndsWithStart(s + [r])
    requires |patched| == |us| &&
      (us != [] ==> patched[..|us| - 1] == us[..|us| - 1] && Same(Last(patched).unit, Last(us).unit))
    ensures Represents(patched, s + [r], bad)
  {
    hide StartAt, Split, Strip;
    SplitSnoc(s, r);
    if us != [] {
      var d := Last(Split(s)).data;
      StripPrefix(d, |d| - 2);
      forall k | 0 <= k < |us| - 1 ensures Same(patched[k].unit, Split(s + [r])[k]) <==> k !in bad {
        assert patched[k] == patched[..|us| - 1][k] == us[k];
      }
    }
  }

  /** These bytes end the stream, and a start code stands right before them. */
  ghost predicate AtEnd(s: Bytes, d: Bytes) { |d| < |s| && s[|s| - |d|..] == d && s[|s| - |d| - 1] == 1 }

  lemma {:induction false} OpenFrom(s: Bytes, i: nat)
    requires 3 <= i < |s| && StartAt(s, i - 3) && !EndsWithStart(s)
    ensures UnitsFrom(s, i) != [] && AtEnd(s, Last(UnitsFrom(s, i)).data)
    decreases |s| - i
  {
    hide FindStart, StartAt, AtEnd;
    var p := FindStart(s, i);
    if p < |s| {
      NotLast(s, p);
      OpenFrom(s, p + 3);
      assert Last(UnitsFrom(s, i)) == Last(UnitsFrom(s, p + 3));
    } else {
      OneUnit(s, i, |s|);
      AfterStart(s, i);
    }
  }

  lemma NotLast(s: Bytes, p: nat)
    requires StartAt(s, p) && !EndsWithStart(s)
    ensures p + 3 < |s|
  {
  }

  lemma AfterStart(s: Bytes, i: nat)
    requires 3 <= i <= |s| && StartAt(s, i - 3)
    ensures AtEnd(s, s[i..|s|])
  {
  }

  lemma OpenUnit(s: Bytes)
    requires Split(s) != [] && !EndsWithStart(s)
    ensures AtEnd(s, Last(Split(s)).data)
  {
    hide FindStart, StartAt, UnitsFrom, AtEnd;
    var p := FindStart(s, 0);
    if p + 3 < |s| {
      OpenFrom(s, p + 3);
    } else {
      StartEnds(s, p);
    }
  }

  lemma StartEnds(s: Bytes, p: nat)
    requires p == FindStart(s, 0) && p + 3 >= |s| && !EndsWithStart(s)
    ensures p == |s|
  {
  }

  /** Every zero a stream ends with, up to the state's cap, belongs to the open unit. */
  lemma OpenZeros(s: Bytes)
    requires Split(s) != [] && !EndsWithStart(s)
    ensures Zeros(Last(Split(s)).data) == Zeros(s)
  {
    hide StartAt, Split;
    OpenUnit(s);
    var d := Last(Split(s)).data;
    SuffixZeros(s, |s| - |d|);
  }

  lemma {:induction false} SuffixZeros(s: Bytes, i: nat)
    requires 0 < i <= |s| && s[i - 1] != 0
    ensures Zeros(s[i..]) == Zeros(s)
    decreases |s|
  {
    if i < |s| && s[|s| - 1] == 0 {
      var c := s[..|s| - 1];
      assert c[i..] == s[i..][..|s| - i - 1];
      SuffixZeros(c, i);
    }
  }

  /** The open unit when the packet's first start code has been read: what is kept of it, and what is added. */
  function Patch(c: NalUnit, s: int, a: int, l: nat, e: Bytes): NalUnit
    requires l <= |e| && a >= 0 && s >= 0
  {
    var d := c.unit.data;
    var kept := if s != 0 && l <= 4 - s && c.state != 0 then SliceTo(d, |d| - s) else d;
    var i := l - a - 1;
    if i > 0 then NalUnit(c.unit.(data := kept + e[..i]), 0) else c.(unit := c.unit.(data := kept))
  }

  lemma {:induction false} ZerosAppend(d: Bytes, x: Bytes)
    requires Zeros(d + x) >= |x|
    ensures Zeros(d + x) == |x| + Zeros(d)
  {
    if x == [] {
      assert d + x == d;
    } else {
      assert (d + x)[..|d + x| - 1] == d + x[..|x| - 1];
      ZerosAppend(d, x[..|x| - 1]);
    }
  }

  function AtMost3(z: nat): nat { if z > 3 then 3 else z }

  /** Whatever the patch leaves out is zeros. */
  lemma PatchIsPrefix(c: NalUnit, s: int, a: int, l: nat, e: Bytes)
    requires 1 <= l <= |e| && a >= 2
    requires s == AtMost3(Zeros(c.unit.data)) && a == AtMost3(Zeros(c.unit.data + e[..l - 1]))
    ensures var d := c.unit.data + e[..l - 1];
            var p := Patch(c, s, a, l, e).unit.data;
            |p| <= |d| && p == d[..|p|] && |d| - |p| <= Zeros(d)
  {
    hide Zeros;
    var x := e[..l - 1];
    if l - 1 <= a {
      ZerosAppend(c.unit.data, x);
    } else {
      assert e[..l - a - 1] == x[..l - a - 1];
    }
  }

  lemma PatchDropsZeros(us: seq<NalUnit>, t: Bytes, bad: set<nat>, x: Bytes, e: Bytes, s: int, a: int)
    requires us != [] && x < e && s >= 0 && a >= 2
    requires s == Scan(0, t) && a == Scan(0, t + x)
    requires Represents(us, t, bad) && Represents(Append(us, x), t + x, bad)
    ensures Same(Patch(Last(us), s, a, |x| + 1, e).unit, Last(Append(us, x)).unit)
  {
    hide StartAt, Split, Strip, Zeros, Scan;
    var d := Last(us).unit.data + x;
    ScanIs(t);
    ScanIs(t + x);
    OpenZeros(t);
    OpenZeros(t + x);
    assert Last(Append(us, x)).unit.data == d;
    assert e[..|x| + 1 - 1] == x;
    PatchIsPrefix(Last(us), s, a, |x| + 1, e);
    StripPrefix(d, |Patch(Last(us), s, a, |x| + 1, e).unit.data|);
  }

  /** A closed unit with the whole packet appended once more is damaged. */
  lemma AppendedAgain(us: seq<NalUnit>, s: Bytes, bad: set<nat>, e: Bytes)
    requires us != [] && Represents(us, s, bad) && EndsWithStart(s) && |us| - 1 !in bad
    requires e != [] && e[|e| - 1] != 0
    ensures Represents(Append(us, e), s, bad + {|us| - 1})
  {
    hide EndsWithStart, Split, Same;
    assert Same(Last(us).unit, Last(Split(s)));
    var after := Append(us, e);
    LongerDiffers(Last(us).unit, Last(after).unit, Last(Split(s)), e);
    forall k | 0 <= k < |us| ensures Same(after[k].unit, Split(s)[k]) <==> k !in bad + {|us| - 1} {
      if k < |us| - 1 {
        assert after[k] == us[k];
      }
    }
  }

  lemma LongerDiffers(v: Unit, w: Unit, u: Unit, e: Bytes)
    requires Same(v, u) && w.data == v.data + e && e != [] && e[|e| - 1] != 0
    ensures !Same(w, u)
  {
    assert Zeros(w.data) == 0;
  }

  lemma LastGood(us: seq<NalUnit>, s: Bytes, bad: set<nat>)
    requires us != [] && Represents(us, s, bad) && !EndsWithStart(s)
    ensures |us| - 1 !in bad
  {
    hide EndsWithStart, Split, Strip;
    assert Same(us[|us| - 1].unit, Split(s)[|us| - 1]);
  }

  // ---------- how many trailing zeros are kept ----------

  /** A unit without the last of the zeros it ends with. */
  ghost function TrimOne(d: Bytes): Bytes { if d != [] && d[|d| - 1] == 0 then d[..|d| - 1] else d }

  lemma TrimTwo(d: Bytes)
    requires |d| >= 2
    ensures TrimOne(d[..|d| - 2]) == if |d| >= 3 && d[|d| - 3] == 0 then d[..|d| - 3] else d[..|d| - 2]
  {
    var t := d[..|d| - 2];
    if |d| >= 3 {
      assert t[|t| - 1] == d[|d| - 3] && t[..|t| - 1] == d[..|d| - 3];
    }
  }

  lemma ThirdZero(d: Bytes)
    requires Zeros(d) >= 2
    ensures |d| >= 2 && (Zeros(d) > 2 <==> |d| >= 3 && d[|d| - 3] == 0)
  {
    hide Zeros;
  }

  /** A start code behind `d` takes two of its zeros; the zeros counted, at most three, are what is left out. */
  lemma TrimIs(d: Bytes)
    requires Zeros(d) >= 2
    ensures |d| >= AtMost3(Zeros(d)) && TrimOne(d[..|d| - 2]) == d[..|d| - AtMost3(Zeros(d))]
  {
    hide TrimOne;
    ThirdZero(d);
    TrimTwo(d);
  }

  /** When the start code is read in a later packet than the unit's end, as much is left out if and only if the unit
      ended without zeros, or the code's zeros are all in the later packet, or the packet is the one after the unit was
      stored and what it brings of the code does not reach too far. */
  lemma PatchExactIff(c: NalUnit, s: int, a: int, l: nat, e: Bytes)
    requires 1 <= l <= |e| && a >= 2
    requires s == AtMost3(Zeros(c.unit.data)) && a == AtMost3(Zeros(c.unit.data + e[..l - 1]))
    ensures |c.unit.data + e[..l - 1]| >= 2
    ensures var d := c.unit.data + e[..l - 1];
      Patch(c, s, a, l, e).unit.data == TrimOne(d[..|d| - 2]) <==>
        s == 0 || l - 1 >= a || (l <= 4 - s && c.state != 0)
  {
    hide Zeros, TrimOne;
    var x, z := e[..l - 1], Zeros(c.unit.data);
    var d := c.unit.data + x;
    TrimIs(d);
    if Zeros(d) >= |x| {
      ZerosAppend(c.unit.data, x);
    }
    if l - 1 >= a {
      assert d[..|d| - a] == c.unit.data + x[..|x| - a] && e[..l - a - 1] == x[..|x| - a];
      assert x[..0] == [];
    } else {
      assert d[..|d| - a] == c.unit.data[..|d| - a];
      assert |d| - a < |c.unit.data|;
    }
  }

  // ---------- the loop over one packet ----------

  /** Everything the loop works with: the units and stream before the packet, and its variables. */
  datatype Loop = Loop(before: seq<NalUnit>, stream: Bytes, bad: set<nat>, start: int, e: Bytes,
                       units: seq<NalUnit>, o: seq<NalUnit>, l: nat, u: int, a: int, h: nat) {
    ghost function Read(): Bytes
      requires l <= |e|
    {
      stream + e[..l]
    }

    /** No start code ends inside the bytes read, short of the last. */
    ghost predicate NoneBefore(m: nat) { forall k :: 0 < k < m && k <= |e| ==> Scan(start, e[..k]) != -1 }

    ghost predicate Early() {
      before == [] || start == -1 || exists k :: 0 < k < |e| && Scan(start, e[..k]) == -1
    }

    function Open(): NalUnit
      requires 0 <= u <= l <= |e|
    {
      NalUnit(Unit(h, e[u..l]), a)
    }

    /** No start code yet: the packet so far belongs to the unit left open. */
    ghost predicate Continuing() {
      && l <= |e| && u == -1 && start != -1 && a == Scan(0, Read()) && a >= 0 && o == [] && units == before
      && NoneBefore(l + 1) && Represents(Append(before, e[..l]), Read(), bad)
    }

    /** A start code has just been read, more bytes follow. */
    ghost predicate Starting() {
      && u == l < |e| && a == 0 && h == e[u] % 32 && Scan(0, Read()) == -1
      && Early() && Represents(units + o, Read(), bad)
    }

    /** Inside a unit that began in this packet. */
    ghost predicate Inside() {
      && 0 <= u < l <= |e| && a == Scan(0, Read()) && a >= 0
      && Early() && Represents(units + o + [Open()], Read(), bad)
    }

    /** A start code ended the packet. */
    ghost predicate Ended() {
      && l == |e| && a == -1 && Scan(0, Read()) == -1 && Represents(units + o, Read(), bad)
      && (if u == -1 then
            && o == [] && start != -1 && |units| == |before| && NoneBefore(l)
            && (units != [] ==> |units| - 1 !in bad)
          else o != [] && Early())
    }

    /** The units closed in this packet are exact but for the last of their zeros. */
    ghost predicate Tight()
      requires l <= |e|
    {
      Trimmed(o, |before|, Split(Read()))
    }

    ghost predicate Valid() {
      && l <= |e|
      && start == Scan(0, stream)
      && (Continuing() || Starting() || Inside() || Ended())
    }
  }

  /** The units from `n` on of a split are `us`, each without the last of its zeros. */
  ghost predicate Trimmed(us: seq<NalUnit>, n: nat, vs: seq<Unit>) {
    && (us != [] ==> n + |us| <= |vs|)
    && forall k :: 0 <= k < |us| ==> us[k].unit.data == TrimOne(vs[n + k].data)
  }

  lemma ReadOn(p: Loop)
    requires p.l < |p.e| && p.start == Scan(0, p.stream)
    ensures p.stream + p.e[..p.l + 1] == p.Read() + [p.e[p.l]]
    ensures Scan(0, p.stream + p.e[..p.l + 1]) == Step(Scan(0, p.Read()), p.e[p.l])
    ensures Scan(p.start, p.e[..p.l + 1]) == Scan(0, p.stream + p.e[..p.l + 1])
  {
    var r := p.Read();
    assert p.stream + p.e[..p.l + 1] == r + [p.e[p.l]];
    assert (r + [p.e[p.l]])[..|r|] == r;
    ScanAppend(0, p.stream, p.e[..p.l + 1]);
  }

  lemma AppendTwice(us: seq<NalUnit>, x: Bytes, y: Bytes)
    ensures Append(Append(us, x), y) == Append(us, x + y)
  {
    if us != [] {
      assert Last(us).unit.data + x + y == Last(us).unit.data + (x + y);
    }
  }

  lemma {:induction false} ScanRange(e: Bytes)
    ensures -1 <= Scan(0, e) <= 3
  {
    if e == [] {
    } else {
      ScanRange(e[..|e| - 1]);
    }
  }

  lemma ScanStart(s: Bytes)
    ensures Scan(0, s) == -1 <==> EndsWithStart(s)
  {
    ScanIs(s);
  }

  lemma AdvanceContinuing(p: Loop, q: Loop)
    requires p.Continuing() && p.l < |p.e| && p.start == Scan(0, p.stream)
    requires Step(p.a, p.e[p.l]) != -1 && q == p.(l := p.l + 1, a := Step(p.a, p.e[p.l]))
    ensures q.Continuing()
  {
    hide EndsWithStart, Represents, Scan;
    ReadOn(p);
    ScanStart(p.Read());
    ScanStart(q.Read());
    RepresentsGrow(Append(p.before, p.e[..p.l]), p.Read(), p.bad, p.e[p.l]);
    AppendTwice(p.before, p.e[..p.l], [p.e[p.l]]);
    assert p.e[..p.l] + [p.e[p.l]] == p.e[..q.l];
  }

  lemma AdvanceStarting(p: Loop, q: Loop)
    requires p.Starting() && p.start == Scan(0, p.stream)
    requires Step(p.a, p.e[p.l]) != -1 && q == p.(l := p.l + 1, a := Step(p.a, p.e[p.l]))
    ensures q.Inside()
  {
    hide EndsWithStart, Represents, Scan;
    ReadOn(p);
    ScanStart(p.Read());
    RepresentsOpen(p.units + p.o, p.Read(), p.bad, p.e[p.l], q.a);
    assert q.e[q.u..q.l] == [p.e[p.l]];
  }

  lemma AdvanceInside(p: Loop, q: Loop)
    requires p.Inside() && p.l < |p.e| && p.start == Scan(0, p.stream)
    requires Step(p.a, p.e[p.l]) != -1 && q == p.(l := p.l + 1, a := Step(p.a, p.e[p.l]))
    ensures q.Inside()
  {
    hide EndsWithStart, Represents, Scan;
    ReadOn(p);
    ScanStart(p.Read());
    ScanStart(q.Read());
    RepresentsGrow(p.units + p.o + [p.Open()], p.Read(), p.bad, p.e[p.l]);
    assert p.e[p.u..p.l] + [p.e[p.l]] == q.e[q.u..q.l];
    Restate(p.units + p.o, p.Open(), q.Open(), [p.e[p.l]], q.Read(), p.bad);
  }

  /** Reading a byte that ends no start code. */
  lemma Advance(p: Loop, q: Loop)
    requires p.Valid() && p.l < |p.e| && p.a != -1
    requires Step(p.a, p.e[p.l]) != -1 && q == p.(l := p.l + 1, a := Step(p.a, p.e[p.l]))
    ensures q.Valid()
  {
    hide Loop.Continuing, Loop.Starting, Loop.Inside;
    if p.Continuing() {
      AdvanceContinuing(p, q);
    } else if p.Starting() {
      AdvanceStarting(p, q);
    } else {
      AdvanceInside(p, q);
    }
  }

  lemma ReadLength(us: seq<NalUnit>, s: Bytes, bad: set<nat>)
    requires Represents(us, s, bad)
    ensures |us| == |Split(s)|
  {
    hide Split, Same;
  }

  lemma NoneTrimmed(n: nat, vs: seq<Unit>)
    ensures Trimmed([], n, vs)
  {
  }

  lemma TrimmedKept(us: seq<NalUnit>, n: nat, vs: seq<Unit>, ws: seq<Unit>)
    requires Trimmed(us, n, vs) && n + |us| <= |ws| && forall k :: 0 <= k < n + |us| && k < |vs| ==> ws[k] == vs[k]
    ensures Trimmed(us, n, ws)
  {
    hide TrimOne;
  }

  /** A byte that ends no start code changes the unit it belongs to, which is still open. */
  lemma TightOn(p: Loop, q: Loop)
    requires p.Valid() && p.Tight() && p.l < |p.e| && p.a != -1 && |p.units| == |p.before|
    requires Step(p.a, p.e[p.l]) != -1 && q == p.(l := p.l + 1, a := Step(p.a, p.e[p.l]))
    ensures q.Tight()
  {
    hide EndsWithStart, Represents, Scan, Split, Trimmed, Loop.Early;
    ReadOn(p);
    ScanStart(p.Read());
    ScanStart(q.Read());
    SplitSnoc(p.Read(), p.e[p.l]);
    if p.o == [] {
      NoneTrimmed(|p.before|, Split(q.Read()));
    } else if p.Starting() {
      ReadLength(p.units + p.o, p.Read(), p.bad);
      TrimmedKept(p.o, |p.before|, Split(p.Read()), Split(q.Read()));
    } else {
      ReadLength(p.units + p.o + [p.Open()], p.Read(), p.bad);
      TrimmedKept(p.o, |p.before|, Split(p.Read()), Split(q.Read()));
    }
  }

  /** The recorded state of a unit does not matter to what it represents. */
  lemma Restate(us: seq<NalUnit>, g: NalUnit, g': NalUnit, more: Bytes, s: Bytes, bad: set<nat>)
    requires Represents(Append(us + [g], more), s, bad)
    requires g'.unit == g.unit.(data := g.unit.data + more)
    ensures Represents(us + [g'], s, bad)
  {
    hide StartAt, Split, Strip;
    var old', new' := Append(us + [g], more), us + [g'];
    forall k | 0 <= k < |new'| ensures Same(new'[k].unit, Split(s)[k]) <==> k !in bad {
      assert new'[k].unit == old'[k].unit;
    }
  }

  /** A start code ends the unit that began in this packet. */
  lemma CloseInside(p: Loop)
    requires p.Inside() && p.l < |p.e| && p.start == Scan(0, p.stream)
    requires p.a >= 2 && p.e[p.l] == 1
    ensures p.u <= p.l - p.a
    ensures Represents(p.units + p.o + [NalUnit(Unit(p.h, p.e[p.u..p.l - p.a]), 0)], p.stream + p.e[..p.l + 1], p.bad)
    ensures Scan(0, p.stream + p.e[..p.l + 1]) == -1
  {
    hide StartAt, Represents, Scan, Strip, Zeros, Split, Loop.Early;
    var us := p.units + p.o + [p.Open()];
    var d := p.Open().unit.data;
    ReadOn(p);
    ScanIs(p.Read());
    ScanStart(p.stream + p.e[..p.l + 1]);
    ExactLast(us, p.Read(), p.bad);
    OpenZeros(p.Read());
    StripPrefix(d, |d| - p.a);
    assert d[..|d| - p.a] == p.e[p.u..p.l - p.a];
    var closed := p.units + p.o + [NalUnit(Unit(p.h, p.e[p.u..p.l - p.a]), 0)];
    assert us[..|us| - 1] == p.units + p.o == closed[..|closed| - 1];
    RepresentsClose(us, p.Read(), p.bad, 1, closed);
  }

  lemma ExactLast(us: seq<NalUnit>, s: Bytes, bad: set<nat>)
    requires us != [] && Represents(us, s, bad) && !EndsWithStart(s)
    ensures Split(s) != [] && Last(us).unit == Last(Split(s))
  {
  }

  function PatchLast(us: seq<NalUnit>, s: int, a: int, l: nat, e: Bytes): (r: seq<NalUnit>)
    requires l <= |e| && a >= 0 && s >= 0
    ensures |r| == |us|
  {
    if us == [] then us else us[|us| - 1 := Patch(us[|us| - 1], s, a, l, e)]
  }

  /** A start code ends the unit left open by earlier packets. */
  lemma CloseContinuing(p: Loop)
    requires p.Continuing() && p.l < |p.e| && p.start == Scan(0, p.stream) && Represents(p.before, p.stream, p.bad)
    requires p.a >= 2 && p.e[p.l] == 1
    ensures p.before != [] ==> |p.before| - 1 !in p.bad
    ensures p.start >= 0 &&
      Represents(PatchLast(p.before, p.start, p.a, p.l + 1, p.e), p.stream + p.e[..p.l + 1], p.bad)
    ensures Scan(0, p.stream + p.e[..p.l + 1]) == -1 && Scan(p.start, p.e[..p.l + 1]) == -1
  {
    hide StartAt, Represents, Scan, Same;
    var us, x := p.before, p.e[..p.l];
    ReadOn(p);
    ScanRange(p.stream);
    ScanStart(p.stream + p.e[..p.l + 1]);
    var patched := PatchLast(us, p.start, p.a, p.l + 1, p.e);
    if us != [] {
      ScanStart(p.stream);
      LastGood(us, p.stream, p.bad);
      PatchDropsZeros(us, p.stream, p.bad, x, p.e, p.start, p.a);
      assert patched[..|us| - 1] == us[..|us| - 1] == Append(us, x)[..|us| - 1];
    }
    RepresentsClose(Append(us, x), p.Read(), p.bad, 1, patched);
  }

  lemma Begin(before: seq<NalUnit>, t: Bytes, bad: set<nat>, s: int, e: Bytes)
    requires s == Scan(0, t) && Represents(before, t, bad) && e != [] && (s == -1 ==> e[0] != 0)
    ensures (if s == -1 then Loop(before, t, bad, s, e, before, [], 1, 0, 0, e[0] % 32)
             else Loop(before, t, bad, s, e, before, [], 0, -1, s, 0)).Valid()
    ensures -1 <= s <= 3
  {
    hide EndsWithStart, Represents;
    ScanRange(t);
    if s == -1 {
      assert t + e[..1] == t + [e[0]] && (t + [e[0]])[..|t|] == t;
      ScanStart(t);
      RepresentsOpen(before, t, bad, e[0], 0);
      assert before + [] == before && e[0..1] == [e[0]];
    } else {
      assert t + e[..0] == t;
      AppendNothing(before);
    }
  }

  lemma AppendNothing(us: seq<NalUnit>)
    ensures Append(us, []) == us
  {
    if us != [] {
      assert us[|us| - 1].unit.data + [] == us[|us| - 1].unit.data;
    }
  }

  /** The branch taken at a start code. */
  function AtStartCode(p: Loop): Loop
    requires p.l < |p.e| && p.a >= 2 && (p.u >= 0 ==> p.u <= p.l - p.a) && (p.u < 0 ==> p.start >= 0)
  {
    var l := p.l + 1;
    var closed := if p.u >= 0 then p.(l := l, o := p.o + [NalUnit(Unit(p.h, p.e[p.u..l - p.a - 1]), 0)])
                  else p.(l := l, units := PatchLast(p.units, p.start, p.a, l, p.e));
    if l < |p.e| then closed.(u := l, h := p.e[l] % 32, a := 0) else closed.(a := -1)
  }

  lemma Close(p: Loop)
    requires p.Valid() && p.l < |p.e| && p.a >= 2 && p.e[p.l] == 1 && Represents(p.before, p.stream, p.bad)
    ensures p.u >= 0 ==> p.u <= p.l - p.a
    ensures p.u < 0 ==> p.start >= 0
    ensures AtStartCode(p).Valid()
  {
    hide EndsWithStart, Represents, Scan;
    if p.Continuing() {
      CloseContinuing(p);
      assert AtStartCode(p).units + [] == AtStartCode(p).units;
    } else {
      CloseInside(p);
      var closed := NalUnit(Unit(p.h, p.e[p.u..p.l - p.a]), 0);
      assert p.units + (p.o + [closed]) == p.units + p.o + [closed];
    }
  }

  lemma TrimmedMore(us: seq<NalUnit>, v: NalUnit, n: nat, vs: seq<Unit>)
    requires Trimmed(us, n, vs) && n + |us| < |vs| && v.unit.data == TrimOne(vs[n + |us|].data)
    ensures Trimmed(us + [v], n, vs)
  {
    hide TrimOne;
  }

  lemma AtWork(p: Loop)
    requires p.Valid() && p.l < |p.e| && p.a >= 2
    ensures (p.Continuing() || p.Inside()) && p.start == Scan(0, p.stream)
  {
    hide Loop.Continuing, Loop.Inside, Scan;
  }

  /** A start code closes the open unit and leaves the others alone. */
  lemma TightClose(p: Loop)
    requires p.l < |p.e| && p.Tight() && p.a >= 2 && p.e[p.l] == 1 && |p.units| == |p.before|
    requires (p.u >= 0 ==> p.u <= p.l - p.a) && (p.u < 0 ==> p.start >= 0)
    requires p.Continuing() || p.Inside()
    requires p.start == Scan(0, p.stream)
    ensures AtStartCode(p).Tight()
  {
    hide EndsWithStart, Represents, Scan, Split, Trimmed, Loop.Early;
    ReadOn(p);
    assert AtStartCode(p).Read() == p.Read() + [1];
    if p.Continuing() {
      NoneTrimmed(|p.before|, Split(p.Read() + [1]));
    } else {
      TightInside(p);
    }
  }

  /** The split of a stream whose open unit a start code has just closed. */
  lemma ClosedSplit(us: seq<NalUnit>, g: NalUnit, s: Bytes, bad: set<nat>, a: int)
    requires Represents(us + [g], s, bad) && a == Scan(0, s) && a >= 2 && EndsWithStart(s + [1])
    ensures |Split(s + [1])| == |Split(s)| == |us| + 1
    ensures forall k :: 0 <= k < |us| ==> Split(s + [1])[k] == Split(s)[k]
    ensures a <= |g.unit.data| && TrimOne(Split(s + [1])[|us|].data) == g.unit.data[..|g.unit.data| - a]
  {
    hide StartAt, Split, TrimOne, Zeros, Scan, Same;
    ScanIs(s);
    SplitSnoc(s, 1);
    ExactLast(us + [g], s, bad);
    OpenZeros(s);
    TrimIs(g.unit.data);
  }

  lemma TightInside(p: Loop)
    requires p.Inside() && p.Tight() && p.l < |p.e| && p.a >= 2 && |p.units| == |p.before| && p.u <= p.l - p.a
    requires p.start == Scan(0, p.stream) && Scan(0, p.Read() + [1]) == -1
    ensures Trimmed(p.o + [NalUnit(Unit(p.h, p.e[p.u..p.l - p.a]), 0)], |p.before|, Split(p.Read() + [1]))
  {
    hide EndsWithStart, Represents, Scan, Split, Trimmed, TrimOne, Loop.Early;
    var s, d := p.Read(), p.Open().unit.data;
    ScanStart(s + [1]);
    ClosedSplit(p.units + p.o, p.Open(), s, p.bad, p.a);
    assert d[..|d| - p.a] == p.e[p.u..p.l - p.a];
    TrimmedKept(p.o, |p.before|, Split(s), Split(s + [1]));
    TrimmedMore(p.o, NalUnit(Unit(p.h, p.e[p.u..p.l - p.a]), 0), |p.before|, Split(s + [1]));
  }

  /** After the last byte of the packet. */
  lemma Finish(q: Loop)
    requires q.Valid() && q.l == |q.e| && q.e != []
    ensures q.a == Scan(0, q.stream + q.e)
    ensures q.a >= 0 && q.u < 0 ==> q.o == [] && Represents(Append(q.units, q.e), q.stream + q.e, q.bad)
    ensures q.a >= 0 && q.u >= 0 ==> q.u < q.l && Represents(q.units + q.o + [q.Open()], q.stream + q.e, q.bad)
    ensures q.a == -1 && q.o != [] ==> Represents(q.units + q.o, q.stream + q.e, q.bad)
    ensures q.a == -1 && q.o == [] ==>
              Represents(Append(q.units, q.e), q.stream + q.e,
                         if q.before == [] then q.bad else q.bad + {|q.before| - 1})
              && |q.units| == |q.before|
    ensures StartCodeLast(|q.before|, q.start, q.e) <==> q.a == -1 && q.o == [] && q.before != []
  {
    hide EndsWithStart, Represents, Scan;
    assert q.e[..q.l] == q.e;
    ScanAppend(0, q.stream, q.e);
    ScanStart(q.stream + q.e);
    if q.Ended() && q.o == [] {
      assert q.units + [] == q.units;
      LastIsOne(q.stream + q.e);
      if q.before != [] {
        AppendedAgain(q.units, q.stream + q.e, q.bad, q.e);
      }
    }
  }

  lemma LastIsOne(s: Bytes)
    ensures EndsWithStart(s) ==> s != [] && s[|s| - 1] == 1
  {
  }

  // ---------- packets that do not begin as they should after a start code ----------

  /** A start code ended the packet before, and no NAL header byte follows, or a zero in its place. */
  predicate Headless(a: int, e: Bytes) { a == -1 && (e == [] || e[0] == 0) }

  /** What the splitter takes such a packet for: one with a header byte of the same type that is not zero. */
  function Shown(a: int, e: Bytes): Bytes {
    if Headless(a, e) then [0x20] + (if e == [] then [] else e[1..]) else e
  }

  /** What really stood at the packet's beginning. */
  function Head(e: Bytes): Bytes { if e == [] then [] else [e[0]] }

  function Beheaded(v: NalUnit, head: Bytes): NalUnit {
    if v.unit.data == [] then v else v.(unit := v.unit.(data := head + v.unit.data[1..]))
  }

  /** Units as they are stored: those of headless packets begin with what really stood there. */
  function Stored(seen: seq<NalUnit>, heads: map<nat, Bytes>): (us: seq<NalUnit>)
    ensures |us| == |seen|
  {
    seq(|seen|, k requires 0 <= k < |seen| => if k in heads then Beheaded(seen[k], heads[k]) else seen[k])
  }

  /** The stand-in bytes are where they are said to be. */
  ghost predicate HeadsOk(seen: seq<NalUnit>, heads: map<nat, Bytes>) {
    forall k :: k in heads ==> k < |seen| && seen[k].unit.data != [] && seen[k].unit.data[0] == 0x20 && |heads[k]| <= 1
  }

  lemma StoredNothing(seen: seq<NalUnit>)
    ensures Stored(seen, map[]) == seen
  {
  }

  lemma StoredAppend(seen: seq<NalUnit>, heads: map<nat, Bytes>, more: Bytes)
    requires HeadsOk(seen, heads)
    ensures Stored(Append(seen, more), heads) == Append(Stored(seen, heads), more) && HeadsOk(Append(seen, more), heads)
  {
    if seen != [] {
      var n := |seen| - 1;
      if n in heads {
        var d := seen[n].unit.data;
        assert (d + more)[1..] == d[1..] + more;
        assert heads[n] + d[1..] + more == heads[n] + (d[1..] + more);
      }
    }
  }

  /** Patching commutes with the stand-in: the zeros taken back never reach the first byte. */
  lemma PatchBeheaded(c: NalUnit, head: Bytes, s: int, a: int, l: nat, e: Bytes)
    requires l <= |e| && a >= 0 && 0 <= s < |c.unit.data| && |head| <= 1
    ensures Patch(Beheaded(c, head), s, a, l, e) == Beheaded(Patch(c, s, a, l, e), head)
    ensures var d := Patch(c, s, a, l, e).unit.data; d != [] && d[0] == c.unit.data[0]
  {
    hide Patch;
    var d, i := c.unit.data, l - a - 1;
    var back := if s != 0 && l <= 4 - s && c.state != 0 then s else 0;
    var more := if i > 0 then e[..i] else [];
    ShortenBeheaded(d, head, back);
    ExtendBeheaded(d[..|d| - back], head, more);
    PatchIs(c, s, a, l, e, back, more);
    PatchIs(Beheaded(c, head), s, a, l, e, back, more);
  }

  lemma PatchIs(c: NalUnit, s: int, a: int, l: nat, e: Bytes, back: nat, more: Bytes)
    requires l <= |e| && a >= 0 && s >= 0 && back <= |c.unit.data|
    requires back == if s != 0 && l <= 4 - s && c.state != 0 then s else 0
    requires more == if l - a - 1 > 0 then e[..l - a - 1] else []
    ensures var d, p := c.unit.data, Patch(c, s, a, l, e);
      && p.unit == c.unit.(data := d[..|d| - back] + more)
      && p.state == if l - a - 1 > 0 then 0 else c.state
  {
    var d := c.unit.data;
    assert d[..|d|] == d && d + [] == d;
    assert d[..|d| - back] + [] == d[..|d| - back];
  }

  lemma ShortenBeheaded(d: Bytes, head: Bytes, n: nat)
    requires n < |d|
    ensures |head + d[1..]| >= n
    ensures (head + d[1..])[..|head + d[1..]| - n] == head + d[..|d| - n][1..]
  {
    assert d[..|d| - n][1..] == d[1..|d| - n];
  }

  lemma ExtendBeheaded(d: Bytes, head: Bytes, more: Bytes)
    requires d != []
    ensures (head + d[1..]) + more == head + (d + more)[1..]
  {
    assert (d + more)[1..] == d[1..] + more;
  }

  lemma StoredPatch(seen: seq<NalUnit>, heads: map<nat, Bytes>, s: int, a: int, l: nat, e: Bytes)
    requires HeadsOk(seen, heads) && l <= |e| && a >= 0 && s >= 0
    requires seen != [] && |seen| - 1 in heads ==> s < |Last(seen).unit.data|
    ensures Stored(PatchLast(seen, s, a, l, e), heads) == PatchLast(Stored(seen, heads), s, a, l, e)
    ensures HeadsOk(PatchLast(seen, s, a, l, e), heads)
  {
    hide Patch, Beheaded;
    if seen != [] && |seen| - 1 in heads {
      PatchBeheaded(Last(seen), heads[|seen| - 1], s, a, l, e);
    }
  }

  /** The zeros the open unit ends with leave its first byte, when that is not zero. */
  lemma OpenKeepsFirst(us: seq<NalUnit>, t: Bytes, bad: set<nat>)
    requires us != [] && Represents(us, t, bad) && !EndsWithStart(t)
    requires Last(us).unit.data != [] && Last(us).unit.data[0] != 0
    ensures Scan(0, t) < |Last(us).unit.data|
  {
    hide EndsWithStart, Split, StartAt, Scan;
    ScanIs(t);
    ExactLast(us, t, bad);
    OpenZeros(t);
  }

  /** The new units of a packet, the first one with what really stood at its beginning. */
  function NewUnits(o: seq<NalUnit>, headless: bool, head: Bytes): (r: seq<NalUnit>)
    ensures |r| == |o|
  {
    if o == [] || !headless then o else [Beheaded(o[0], head)] + o[1..]
  }

  lemma NewUnitsSnoc(o: seq<NalUnit>, v: NalUnit, headless: bool, head: Bytes)
    ensures NewUnits(o + [v], headless, head) ==
      NewUnits(o, headless, head) + [if o == [] && headless then Beheaded(v, head) else v]
  {
    if o != [] {
      assert (o + [v])[1..] == o[1..] + [v];
    }
  }

  /** The heads after a packet. */
  function HeadsAfter(heads: map<nat, Bytes>, n: nat, a: int, e: Bytes): map<nat, Bytes> {
    if Headless(a, e) then heads[n := Head(e)] else heads
  }

  lemma StoredMore(seen: seq<NalUnit>, heads: map<nat, Bytes>, o: seq<NalUnit>, a: int, e: Bytes)
    requires HeadsOk(seen, heads)
    requires Headless(a, e) ==> o != [] && o[0].unit.data != [] && o[0].unit.data[0] == 0x20
    ensures Stored(seen + o, HeadsAfter(heads, |seen|, a, e)) ==
      Stored(seen, heads) + NewUnits(o, Headless(a, e), Head(e))
    ensures HeadsOk(seen + o, HeadsAfter(heads, |seen|, a, e))
  {
    hide Beheaded;
    var all, heads' := seen + o, HeadsAfter(heads, |seen|, a, e);
    var l, r := Stored(all, heads'), Stored(seen, heads) + NewUnits(o, Headless(a, e), Head(e));
    forall k | 0 <= k < |all| ensures l[k] == r[k] {
      if k < |seen| {
        assert all[k] == seen[k];
      } else {
        assert all[k] == o[k - |seen|];
      }
    }
  }

  /** A unit cut from the packet as it is shown, and as it is. */
  lemma CutShown(a: int, e: Bytes, u: nat, x: nat, h: nat, state: int)
    requires u <= x <= |Shown(a, e)| && (Headless(a, e) && u == 0 ==> x >= 1) && (e == [] ==> u == 0)
    ensures var v := NalUnit(Unit(h, Shown(a, e)[u..x]), state);
      var w := NalUnit(Unit(h, if x <= |e| then e[u..x] else []), state);
      && (Headless(a, e) && u == 0 ==> w == Beheaded(v, Head(e)) && v.unit.data != [] && v.unit.data[0] == 0x20)
      && (!Headless(a, e) || u > 0 ==> w == v)
  {
    if Headless(a, e) && e != [] {
      if u == 0 {
        assert Shown(a, e)[0..x] == [0x20] + e[1..x];
        assert e[0..x] == [e[0]] + e[1..x];
      } else {
        assert Shown(a, e)[u..x] == e[u..x];
      }
    }
  }

  /** The new units so far, as they are and as shown. */
  ghost predicate Mirrors(a: int, e: Bytes, o1: seq<NalUnit>, o: seq<NalUnit>) {
    && o == NewUnits(o1, Headless(a, e), Head(e))
    && (Headless(a, e) && o1 != [] ==> o1[0].unit.data != [] && o1[0].unit.data[0] == 0x20)
  }

  /** Cutting one more unit. */
  lemma MirrorsMore(a: int, e: Bytes, o1: seq<NalUnit>, o: seq<NalUnit>, u: nat, x: nat, h: nat, state: int)
    requires Mirrors(a, e, o1, o) && u <= x <= |Shown(a, e)| && (e == [] ==> u == 0)
    requires Headless(a, e) ==> (o1 == [] <==> u == 0) && (u == 0 ==> x >= 1)
    ensures Mirrors(a, e, o1 + [NalUnit(Unit(h, Shown(a, e)[u..x]), state)],
                    o + [NalUnit(Unit(h, if x <= |e| then e[u..x] else []), state)])
  {
    hide Shown, Beheaded;
    CutShown(a, e, u, x, h, state);
    NewUnitsSnoc(o1, NalUnit(Unit(h, Shown(a, e)[u..x]), state), Headless(a, e), Head(e));
  }

  lemma PatchStored(seen: seq<NalUnit>, t: Bytes, bad: set<nat>, heads: map<nat, Bytes>, a: int, l: nat, e: Bytes)
    requires Represents(seen, t, bad) && Scan(0, t) >= 0 && HeadsOk(seen, heads) && a >= 0 && l <= |e|
    ensures Stored(PatchLast(seen, Scan(0, t), a, l, e), heads) == PatchLast(Stored(seen, heads), Scan(0, t), a, l, e)
    ensures HeadsOk(PatchLast(seen, Scan(0, t), a, l, e), heads)
  {
    hide Represents, Scan, EndsWithStart, Stored, PatchLast;
    ScanStart(t);
    if seen != [] && |seen| - 1 in heads {
      OpenKeepsFirst(seen, t, bad);
    }
    StoredPatch(seen, heads, Scan(0, t), a, l, e);
  }

  lemma ShownStarts(a: int, e: Bytes)
    requires a == -1
    ensures Shown(a, e) != [] && Shown(a, e)[0] != 0
    ensures Shown(a, e)[0] % 32 == (if e == [] then 0 else e[0] % 32)
    ensures forall k :: 1 <= k < |e| ==> Shown(a, e)[k] == e[k]
    ensures |Shown(a, e)| == if e == [] then 1 else |e|
  {
  }

  /** An empty packet changes nothing, unless it follows directly on a start code. */
  lemma EmptyPacket(a: int, us: seq<NalUnit>, t: Bytes, bad: set<nat>)
    requires Represents(us, t, bad) && a == Scan(0, t) && a != -1
    ensures Represents(Append(us, []), t + [], bad) && Scan(0, t + []) == a && !StartCodeLast(|us|, a, [])
  {
    hide Represents, Scan;
    AppendNothing(us);
    assert t + [] == t;
    assert Scan(a, []) == a by {
      NoScan(a);
    }
  }

  lemma NoScan(a: int)
    ensures Scan(a, []) == a
  {
  }

  // ---------- the track ----------

  /** The part of the demuxer's track that the splitter uses. */
  class AvcTrack {
    var naluState: int
    var units: seq<NalUnit>
    /** All bytes so far, as they are and as the splitter takes them. */
    ghost var stream: Bytes
    ghost var shown: Bytes
    /** The units of the bytes as shown, those among them that were damaged, and what really stood at the beginning of
        the units of headless packets. */
    ghost var seen: seq<NalUnit>
    ghost var damaged: set<nat>
    ghost var heads: map<nat, Bytes>

    ghost predicate Valid()
      reads this
    {
      && -1 <= naluState <= 3 && naluState == Scan(0, shown)
      && Represents(seen, shown, damaged) && HeadsOk(seen, heads) && units == Stored(seen, heads)
      && (heads == map[] ==> shown == stream && units == seen)
    }

    constructor ()
      ensures Valid() && stream == [] && naluState == 0 && units == [] && damaged == {} && heads == map[]
    {
      naluState, units, stream, shown, seen, damaged, heads := 0, [], [], [], [], {}, map[];
    }

    /** Splits one packet, patching the last unit of the packets before it. */
    method ParseAvcNalu(e: Bytes)
      requires Valid()
      modifies this
      ensures Valid() && stream == old(stream) + e && shown == old(shown) + Shown(old(naluState), e)
      ensures heads == HeadsAfter(old(heads), |old(units)|, old(naluState), e)
      ensures damaged == DamagedAfter(old(damaged), |old(units)|, old(naluState), e)
      ensures ClosedTrimmed(seen, |old(units)|, shown)
    {
      hide ClosedTrimmed, Loop.Tight, Represents, Scan, Goes, Stored, HeadsOk, Append, Shown, Headless, HeadsAfter,
        DamagedAfter, Step, PatchLast, AtStartCode, StartLoop;
      ghost var bad, hs, str := damaged, heads, stream;
      var n, a := |e|, naluState;
      var s := a;
      var o: seq<NalUnit> := [];
      var l: nat, u: int, h: nat := 0, -1, 0;
      if a == -1 {
        u, h, a, l := 0, if n > 0 then e[0] % 32 else 0, 0, 1;
      }
      ghost var q := StartLoop(seen, shown, bad, s, e);
      GoesFrom(seen, shown, bad, s, e, hs);
      while l < n
        invariant Goes(q, e, hs, o, units) && q.l == l && q.u == u && q.a == a && q.h == h
        invariant q.start == s && q.stream == old(shown) && q.before == old(seen) && q.bad == bad
        invariant -1 <= a <= 3 && (a == -1 ==> l == n) && (l <= n || (n == 0 && l == 1))
        invariant if u < 0 then s >= 0 else u <= l && a <= l - u && (n == 0 ==> u == 0)
        invariant stream == str && damaged == bad
      {
        ghost var p := q;
        var r := e[l];
        l := l + 1;
        if a == 0 {
          a := if r != 0 then 0 else 1;
        } else if a == 1 {
          a := if r != 0 then 0 else 2;
        } else if r == 0 {
          a := 3;
        } else if r == 1 {
          GoesClose(p, e, hs, o, units);
          q := AtStartCode(p);
          if u >= 0 {
            o := o + [NalUnit(Unit(h, e[u..l - a - 1]), 0)];
          } else {
            units := PatchLast(units, s, a, l, e);
          }
          if l < n {
            u, h, a := l, e[l] % 32, 0;
          } else {
            a := -1;
          }
        } else {
          a := 0;
        }
        if !(p.a >= 2 && r == 1) {
          StepIs(p.a, r);
          GoesOn(p, e, hs, o, units);
          q := p.(l := l, a := a);
        }
      }
      ghost var seen' := PacketEnds(q, e, hs, o, units);
      if u >= 0 && a >= 0 {
        o := o + [NalUnit(Unit(h, e[u..n]), a)];
      }
      if o == [] {
        units := Append(units, e);
      } else {
        units := units + o;
      }
      naluState := a;
      stream, shown, seen := str + e, old(shown) + Shown(s, e), seen';
      heads, damaged := HeadsAfter(hs, |old(seen)|, s, e), DamagedAfter(bad, |old(seen)|, s, e);
      StoredNothing(seen');
      NoHeads(hs, |old(seen)|, s, e);
      Regularly(s, e);
    }
  }

  function StartLoop(before: seq<NalUnit>, t: Bytes, bad: set<nat>, s: int, e: Bytes): Loop {
    if s == -1 then Loop(before, t, bad, s, Shown(s, e), before, [], 1, 0, 0, if e == [] then 0 else e[0] % 32)
    else Loop(before, t, bad, s, Shown(s, e), before, [], 0, -1, s, 0)
  }

  /** What the loop keeps: the packet as shown goes through the loop regularly, and what is stored mirrors it. */
  ghost predicate Goes(q: Loop, e: Bytes, heads: map<nat, Bytes>, o: seq<NalUnit>, units: seq<NalUnit>) {
    && q.e == Shown(q.start, e) && q.start == Scan(0, q.stream) && Represents(q.before, q.stream, q.bad)
    && -1 <= q.a <= 3 && (q.a == -1 ==> q.l == |e|) && (q.l <= |e| || (e == [] && q.l == 1))
    && (e == [] ==> q.l == |q.e|) && q.l <= |q.e| && q.Tight()
    && (if q.e == [] then q.units == q.before && q.o == [] && q.u == -1 && q.a == q.start && q.l == 0 else q.Valid())
    && (if q.u < 0 then q.u == -1 && q.start >= 0 && (q.units == q.before || q.l == |e|)
        else q.u <= q.l && q.a <= q.l - q.u && (e == [] ==> q.u == 0))
    && (Headless(q.start, e) ==>
          q.u >= 0 && (if q.a >= 0 then (q.o == [] <==> q.u == 0) && (q.u == 0 ==> q.a < q.l) else q.o != []))
    && Mirrors(q.start, e, q.o, o) && units == Stored(q.units, heads) && HeadsOk(q.units, heads)
    && |q.units| == |q.before|
  }

  lemma GoesFrom(before: seq<NalUnit>, t: Bytes, bad: set<nat>, s: int, e: Bytes, heads: map<nat, Bytes>)
    requires Represents(before, t, bad) && s == Scan(0, t) && HeadsOk(before, heads)
    ensures var q := StartLoop(before, t, bad, s, e);
      && Goes(q, e, heads, [], Stored(before, heads))
      && q.start == s && q.stream == t && q.before == before && q.bad == bad && -1 <= s <= 3
      && (if s == -1 then q.l == 1 && q.u == 0 && q.a == 0 && q.h == (if e == [] then 0 else e[0] % 32)
          else q.l == 0 && q.u == -1 && q.a == s && q.h == 0)
  {
    hide Represents, Scan, Shown, Headless, Stored, HeadsOk, Mirrors, Loop.Valid, Trimmed, Split;
    ScanRange(t);
    Regularly(s, e);
    MirrorsNothing(s, e);
    if s == -1 {
      ShownStarts(s, e);
    }
    if Shown(s, e) != [] {
      Begin(before, t, bad, s, Shown(s, e));
    }
    NoneTrimmed(|before|, Split(StartLoop(before, t, bad, s, e).Read()));
  }

  lemma SameByte(q: Loop, e: Bytes, heads: map<nat, Bytes>, o: seq<NalUnit>, units: seq<NalUnit>)
    requires Goes(q, e, heads, o, units) && q.l < |e|
    ensures |q.e| == |e| && q.e[q.l] == e[q.l] && (q.l + 1 < |e| ==> q.e[q.l + 1] == e[q.l + 1])
    ensures q.u < 0 ==> q.e == e
  {
    hide Represents, Scan, Stored, HeadsOk, Mirrors, Loop.Valid, Loop.Tight;
  }

  lemma GoesOn(p: Loop, e: Bytes, heads: map<nat, Bytes>, o: seq<NalUnit>, units: seq<NalUnit>)
    requires Goes(p, e, heads, o, units) && p.l < |e| && p.a >= 0 && Step(p.a, e[p.l]) != -1
    ensures Goes(p.(l := p.l + 1, a := Step(p.a, e[p.l])), e, heads, o, units)
  {
    hide Represents, Scan, Stored, HeadsOk, Mirrors, Loop.Valid, Shown, Headless, Loop.Tight;
    SameByte(p, e, heads, o, units);
    Advance(p, p.(l := p.l + 1, a := Step(p.a, e[p.l])));
    TightOn(p, p.(l := p.l + 1, a := Step(p.a, e[p.l])));
  }

  lemma GoesClose(p: Loop, e: Bytes, heads: map<nat, Bytes>, o: seq<NalUnit>, units: seq<NalUnit>)
    requires Goes(p, e, heads, o, units) && p.l < |e| && p.a >= 2 && e[p.l] == 1
    ensures (p.u >= 0 ==> p.u <= p.l - p.a) && (p.u < 0 ==> p.start >= 0)
    ensures p.l < |p.e| && p.l < |e|
    ensures var q := AtStartCode(p);
      && Goes(q, e, heads, if p.u >= 0 then o + [NalUnit(Unit(p.h, e[p.u..p.l - p.a]), 0)] else o,
              if p.u >= 0 then units else PatchLast(units, p.start, p.a, p.l + 1, e))
      && q.start == p.start && q.stream == p.stream && q.before == p.before && q.bad == p.bad && q.l == p.l + 1
      && (if p.l + 1 < |e| then q.u == p.l + 1 && q.h == e[p.l + 1] % 32 && q.a == 0
          else q.u == p.u && q.h == p.h && q.a == -1)
  {
    hide Represents, Scan, Stored, HeadsOk, Mirrors, Loop.Valid, Shown, Headless, PatchLast, Loop.Tight;
    SameByte(p, e, heads, o, units);
    Close(p);
    AtWork(p);
    TightClose(p);
    if p.u >= 0 {
      MirrorsMore(p.start, e, p.o, o, p.u, p.l - p.a, p.h, 0);
    } else {
      PatchStored(p.units, p.stream, p.bad, heads, p.a, p.l + 1, e);
    }
  }

  /** The damaged units after a packet, when there were `n` before it. */
  ghost function DamagedAfter(bad: set<nat>, n: nat, a: int, e: Bytes): set<nat> {
    if StartCodeLast(n, a, e) then bad + {n - 1} else bad
  }

  lemma ShownDamage(bad: set<nat>, n: nat, a: int, e: Bytes)
    ensures DamagedAfter(bad, n, a, e) == if StartCodeLast(n, a, Shown(a, e)) then bad + {n - 1} else bad
  {
    hide Scan;
  }

  /** The packet ends inside a unit that began in it. */
  lemma OpenEnds(q: Loop, e: Bytes, heads: map<nat, Bytes>, o: seq<NalUnit>)
    requires q.e == Shown(q.start, e) && q.l == |q.e| && 0 <= q.u <= q.l && q.a >= 0 && (e == [] ==> q.u == 0)
    requires Represents(q.units + q.o + [q.Open()], q.stream + q.e, q.bad) && !StartCodeLast(|q.before|, q.start, q.e)
    requires Mirrors(q.start, e, q.o, o) && HeadsOk(q.units, heads) && |q.units| == |q.before|
    requires Headless(q.start, e) ==> (q.o == [] <==> q.u == 0) && q.l >= 1
    ensures var o1' := q.o + [NalUnit(Unit(q.h, q.e[q.u..]), q.a)];
      var o' := o + [NalUnit(Unit(q.h, if |q.e| <= |e| then e[q.u..|q.e|] else []), q.a)];
      var heads' := HeadsAfter(heads, |q.before|, q.start, e);
      && |o'| == |o1'| && Stored(q.units, heads) + o' == Stored(q.units + o1', heads') && HeadsOk(q.units + o1', heads')
      && Represents(q.units + o1', q.stream + q.e, DamagedAfter(q.bad, |q.before|, q.start, e))
  {
    hide Represents, Scan, Stored, HeadsOk, Mirrors, Shown, Headless, HeadsAfter, StartCodeLast, DamagedAfter;
    assert q.e[q.u..|q.e|] == q.e[q.u..];
    MirrorsMore(q.start, e, q.o, o, q.u, |q.e|, q.h, q.a);
    var o1' := q.o + [NalUnit(Unit(q.h, q.e[q.u..]), q.a)];
    var o' := o + [NalUnit(Unit(q.h, if |q.e| <= |e| then e[q.u..|q.e|] else []), q.a)];
    SameLength(q.start, e, o1', o');
    MirrorsStore(q.units, heads, o1', o', q.start, e);
    Regroup(q.units, q.o, [q.Open()]);
    ShownDamage(q.bad, |q.before|, q.start, e);
  }

  /** The end of a packet: what is stored then is what the packet as shown makes of the units as shown. */
  lemma PacketEnds(q: Loop, e: Bytes, heads: map<nat, Bytes>, o: seq<NalUnit>, units: seq<NalUnit>)
    returns (seen: seq<NalUnit>)
    requires Goes(q, e, heads, o, units) && q.l >= |e|
    ensures q.u >= 0 ==> q.u <= |e|
    ensures var o' := if q.u >= 0 && q.a >= 0 then o + [NalUnit(Unit(q.h, e[q.u..|e|]), q.a)] else o;
      var heads' := HeadsAfter(heads, |q.before|, q.start, e);
      && q.a == Scan(0, q.stream + Shown(q.start, e)) && -1 <= q.a <= 3
      && (if o' == [] then Append(units, e) else units + o') == Stored(seen, heads') && HeadsOk(seen, heads')
      && Represents(seen, q.stream + Shown(q.start, e), DamagedAfter(q.bad, |q.before|, q.start, e))
      && ClosedTrimmed(seen, |q.before|, q.stream + Shown(q.start, e))
  {
    hide EndsWithStart, Represents, Scan, Loop.Valid, Stored, HeadsOk, Mirrors, Append, Shown, Headless, HeadsAfter,
      StartCodeLast, Split, StartAt, Trimmed, ClosedTrimmed;
    var s := q.start;
    Regularly(s, e);
    SameLength(s, e, q.o, o);
    NoHeadless(heads, |q.before|, s, e);
    seen := Append(q.units, e);
    if q.e == [] {
      EmptyPacket(s, q.before, q.stream, q.bad);
      StoredAppend(q.units, heads, e);
    } else {
      Finish(q);
      ShownDamage(q.bad, |q.before|, s, e);
      if q.u >= 0 && q.a >= 0 {
        OpenEnds(q, e, heads, o);
        assert e[q.u..|e|] == if |q.e| <= |e| then e[q.u..|q.e|] else [];
        seen := q.units + (q.o + [NalUnit(Unit(q.h, q.e[q.u..]), q.a)]);
      } else if o == [] {
        StoredAppend(q.units, heads, e);
      } else {
        MirrorsStore(q.units, heads, q.o, o, s, e);
        seen := q.units + q.o;
        assert q.o + [] == q.o;
      }
    }
    TightPacket(q, seen, DamagedAfter(q.bad, |q.before|, s, e));
  }

  /** The units closed in a packet, at its end. */
  lemma TightPacket(q: Loop, seen: seq<NalUnit>, bad: set<nat>)
    requires q.l == |q.e| && q.Tight() && |q.units| == |q.before| && q.a == Scan(0, q.stream + q.e)
    requires seen == (if q.u >= 0 && q.a >= 0 && q.u <= |q.e|
                      then q.units + (q.o + [NalUnit(Unit(q.h, q.e[q.u..]), q.a)])
                      else if q.o == [] then Append(q.units, q.e) else q.units + (q.o + []))
    requires Represents(seen, q.stream + q.e, bad)
    ensures ClosedTrimmed(seen, |q.before|, q.stream + q.e)
  {
    hide EndsWithStart, Represents, Scan, Split, Trimmed, ClosedTrimmed, Append;
    var s := q.stream + q.e;
    assert q.e[..q.l] == q.e;
    ScanStart(s);
    ReadLength(seen, s, bad);
    if q.u >= 0 && q.a >= 0 && q.u <= |q.e| {
      TightEnds(q.units, q.o, [NalUnit(Unit(q.h, q.e[q.u..]), q.a)], s);
    } else if q.o == [] {
      NothingNew(seen, s);
    } else {
      TightEnds(q.units, q.o, [], s);
    }
  }

  /** The units from `n` on, except one still open, are those of the stream without the last of their zeros. */
  ghost predicate ClosedTrimmed(us: seq<NalUnit>, n: nat, s: Bytes) {
    && |us| == |Split(s)|
    && forall k: nat :: n <= k < |us| && (k < |us| - 1 || EndsWithStart(s)) ==>
         us[k].unit.data == TrimOne(Split(s)[k].data)
  }

  lemma TightEnds(units: seq<NalUnit>, o: seq<NalUnit>, tail: seq<NalUnit>, s: Bytes)
    requires Trimmed(o, |units|, Split(s)) && |tail| <= 1 && (tail != [] ==> !EndsWithStart(s))
    requires |units| + |o| + |tail| == |Split(s)|
    ensures ClosedTrimmed(units + (o + tail), |units|, s)
  {
    hide EndsWithStart, Split, TrimOne;
    var us := units + (o + tail);
    assert forall k: nat :: |units| <= k < |units| + |o| ==> us[k] == o[k - |units|];
    forall k: nat | |units| <= k < |units| + |o| ensures us[k].unit.data == TrimOne(Split(s)[k].data) {
      var j := k - |units|;
      assert o[j].unit.data == TrimOne(Split(s)[|units| + j].data);
    }
  }

  lemma NothingNew(us: seq<NalUnit>, s: Bytes)
    requires |us| == |Split(s)|
    ensures ClosedTrimmed(us, |us|, s)
  {
    hide Split, EndsWithStart;
  }

  lemma NoHeadless(heads: map<nat, Bytes>, n: nat, a: int, e: Bytes)
    ensures !Headless(a, e) ==> HeadsAfter(heads, n, a, e) == heads
  {
  }

  lemma SameLength(a: int, e: Bytes, o1: seq<NalUnit>, o: seq<NalUnit>)
    requires Mirrors(a, e, o1, o)
    ensures |o| == |o1|
  {
  }

  lemma MirrorsStore(seen: seq<NalUnit>, heads: map<nat, Bytes>, o1: seq<NalUnit>, o: seq<NalUnit>, a: int, e: Bytes)
    requires HeadsOk(seen, heads) && Mirrors(a, e, o1, o) && o1 != []
    ensures Stored(seen + o1, HeadsAfter(heads, |seen|, a, e)) == Stored(seen, heads) + o
    ensures HeadsOk(seen + o1, HeadsAfter(heads, |seen|, a, e))
  {
    hide Stored, HeadsOk, NewUnits;
    StoredMore(seen, heads, o1, a, e);
  }

  lemma MirrorsNothing(a: int, e: Bytes)
    ensures Mirrors(a, e, [], [])
  {
  }

  lemma StepIs(a: int, r: int)
    requires 0 <= a <= 3 && !(a >= 2 && r == 1)
    ensures Step(a, r) == if a == 0 then (if r != 0 then 0 else 1) else if a == 1 then (if r != 0 then 0 else 2)
                          else if r == 0 then 3 else 0
  {
  }

  lemma Regularly(a: int, e: Bytes)
    ensures !Headless(a, e) ==> Shown(a, e) == e
    ensures Headless(a, e) ==> a == -1
    ensures |Shown(a, e)| == if e == [] && a == -1 then 1 else |e|
  {
  }

  lemma NoHeads(heads: map<nat, Bytes>, n: nat, a: int, e: Bytes)
    ensures HeadsAfter(heads, n, a, e) == map[] ==> heads == map[] && !Headless(a, e)
  {
    if Headless(a, e) {
      assert n in HeadsAfter(heads, n, a, e);
    }
  }

  // ---------- two short streams ----------

  const CUT_UNIT: Bytes := [0, 0, 1, 0x65, 0xAA]
  const CODE_LAST: Bytes := [0xBB, 0, 0, 1]

  lemma CodeLastScans()
    ensures Scan(0, CUT_UNIT) == 0 && !StartCodeLast(0, 0, CUT_UNIT) && StartCodeLast(1, 0, CODE_LAST)
  {
    ScanIs(CUT_UNIT);
    assert Zeros(CUT_UNIT) == 0;
    var e: Bytes := CODE_LAST;
    assert e[..3] == [0xBB, 0, 0] && e[..2] == [0xBB, 0] && e[..1] == [0xBB];
  }

  lemma CutUnitSplits()
    ensures |Split(CUT_UNIT)| == 1 && |Split(CUT_UNIT + CODE_LAST)| == 1
  {
    var s, t := CUT_UNIT, CUT_UNIT + CODE_LAST;
    assert t == [0, 0, 1, 0x65, 0xAA, 0xBB, 0, 0, 1];
    assert StartAt(s, 0) && FindStart(s, 0) == 0 && FindStart(s, 3) == 5;
    OneUnit(s, 3, 5);
    assert StartAt(t, 0) && FindStart(t, 0) == 0 && StartAt(t, 6);
    assert FindStart(t, 6) == 6 && FindStart(t, 5) == 6 && FindStart(t, 4) == 6 && FindStart(t, 3) == 6;
    OneUnit(t, 3, 6);
  }

  /** A unit cut in two, the second packet ending with the next start code: its bytes are stored twice. */
  method StartCodeLastDamages() returns (t: AvcTrack)
    ensures t.Valid() && t.stream == CUT_UNIT + CODE_LAST && t.heads == map[]
    ensures |t.units| == |Split(t.stream)| == 1 && !Same(t.units[0].unit, Split(t.stream)[0])
  {
    hide Stored, HeadsOk, Same, Split, Scan, StartCodeLast, Shown, EndsWithStart;
    CodeLastScans();
    CutUnitSplits();
    t := new AvcTrack();
    t.ParseAvcNalu(CUT_UNIT);
    assert [] + CUT_UNIT == CUT_UNIT;
    assert t.damaged == {} && t.shown == CUT_UNIT;
    t.ParseAvcNalu(CODE_LAST);
    assert 0 in t.damaged;
  }

  const CODE: Bytes := [0, 0, 1]
  const ZERO_FIRST: Bytes := [0, 0, 1, 0x65]

  lemma ZeroFirstSplits()
    ensures Scan(0, CODE) == -1 && |Split(CODE + ZERO_FIRST)| == 2 && |Split(CODE + [0x20, 0, 1, 0x65])| == 1
  {
    ScanIs(CODE);
    var s, t: Bytes := CODE + ZERO_FIRST, CODE + [0x20, 0, 1, 0x65];
    assert s == [0, 0, 1, 0, 0, 1, 0x65] && t == [0, 0, 1, 0x20, 0, 1, 0x65];
    assert StartAt(s, 0) && FindStart(s, 0) == 0 && StartAt(s, 3) && FindStart(s, 3) == 3 && FindStart(s, 6) == 7;
    assert UnitsFrom(s, 6) == [Unit(0x65 % 32, s[6..7])] by {
      OneUnit(s, 6, 7);
    }
    assert StartAt(t, 0) && FindStart(t, 0) == 0;
    assert FindStart(t, 5) == 7 && FindStart(t, 4) == 7 && FindStart(t, 3) == 7;
    OneUnit(t, 3, 7);
  }

  /** A start code right behind the one that ended the packet before: it is not seen. */
  method ZeroHeaderMisses() returns (t: AvcTrack)
    ensures t.Valid() && t.stream == CODE + ZERO_FIRST && |t.units| == 1 && |Split(t.stream)| == 2
  {
    hide Stored, HeadsOk, Same, Split, Scan, StartCodeLast, EndsWithStart;
    ZeroFirstSplits();
    t := new AvcTrack();
    t.ParseAvcNalu(CODE);
    assert [] + CODE == CODE;
    t.ParseAvcNalu(ZERO_FIRST);
    assert t.shown == CODE + [0x20, 0, 1, 0x65];
  }
}
