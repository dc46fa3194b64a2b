/** Packets that do not begin with a NAL header byte after a packet-ending start code: when it makes no difference. */
module NalHeadless {
  import opened NalSplit
  import opened NalParser
  import opened Sequences

  // ---------- splits of streams that share a beginning or an end ----------

  lemma FindPrefix(t: Bytes, z: Bytes, i: nat)
    requires i <= |t| && FindStart(t, i) < |t|
    ensures FindStart(t + z, i) == FindStart(t, i)
  {
    hide FindStart;
    var p, q := FindStart(t, i), FindStart(t + z, i);
    assert StartAt(t + z, p);
    assert q < p ==> StartAt(t, q);
  }

  /** Start codes do not overlap, so the one that ends the stream lies after the one that ends here. */
  lemma RoomForLast(t: Bytes, i: nat)
    requires 3 <= i < |t| && StartAt(t, i - 3) && EndsWithStart(t)
    ensures FindStart(t, i) < |t|
  {
    hide FindStart;
    assert t[i - 1] == 1;
  }

  lemma {:induction false} UnitsAfter(t: Bytes, z: Bytes, i: nat)
    requires 3 <= i <= |t| && StartAt(t, i - 3) && EndsWithStart(t)
    ensures UnitsFrom(t + z, i) == UnitsFrom(t, i) + UnitsFrom(t + z, |t|)
    decreases |t| - i
  {
    hide FindStart, UnitsFrom, StartAt, EndsWithStart;
    UnitsOnce(t, i);
    if i < |t| {
      RoomForLast(t, i);
      FindPrefix(t, z, i);
      UnitsOnce(t + z, i);
      var p := FindStart(t, i);
      assert (t + z)[i..p] == t[i..p];
      UnitsAfter(t, z, p + 3);
    }
  }

  /** What follows a packet-ending start code is split on its own. */
  lemma SplitAfter(t: Bytes, z: Bytes)
    requires EndsWithStart(t)
    ensures Split(t + z) == Split(t) + UnitsFrom(t + z, |t|)
  {
    hide FindStart, UnitsFrom;
    assert FindStart(t, 0) < |t|;
    FindPrefix(t, z, 0);
    UnitsAfter(t, z, FindStart(t, 0) + 3);
  }

  lemma StartSuffix(a: Bytes, i: nat, b: Bytes, j: nat, k: nat)
    requires i <= |a| && j <= |b| && a[i..] == b[j..]
    ensures StartAt(a, i + k) <==> StartAt(b, j + k)
  {
    assert |a| - i == |b| - j;
    assert forall m :: 0 <= m < |a| - i ==> a[i + m] == a[i..][m] && b[j + m] == b[j..][m];
  }

  lemma FindSuffix(a: Bytes, i: nat, b: Bytes, j: nat)
    requires i <= |a| && j <= |b| && a[i..] == b[j..]
    ensures FindStart(a, i) - i == FindStart(b, j) - j
  {
    hide FindStart;
    assert |a| - i == |b| - j;
    assert forall k :: i <= k < |a| ==> a[k] == a[i..][k - i] == b[j + (k - i)];
    var p, q := FindStart(a, i), FindStart(b, j);
    assert p < |a| ==> StartAt(b, j + (p - i));
    assert q < |b| ==> StartAt(a, i + (q - j));
  }

  lemma {:induction false} UnitsSuffix(a: Bytes, i: nat, b: Bytes, j: nat)
    requires i <= |a| && j <= |b| && a[i..] == b[j..]
    ensures UnitsFrom(a, i) == UnitsFrom(b, j)
    decreases |a| - i
  {
    hide FindStart, UnitsFrom, StartAt;
    UnitsOnce(a, i);
    UnitsOnce(b, j);
    assert |a| - i == |b| - j;
    if i < |a| {
      FindSuffix(a, i, b, j);
      var p, q := FindStart(a, i), FindStart(b, j);
      assert a[i] == a[i..][0] == b[j];
      assert a[i..p] == a[i..][..p - i] == b[j..q];
      if p < |a| {
        assert a[p + 3..] == a[i..][p + 3 - i..] == b[q + 3..];
        UnitsSuffix(a, p + 3, b, q + 3);
      }
    }
  }

  // ---------- one such packet ----------

  /** The header byte that the splitter assumes is there, and no start code begins at it. An empty packet leaves it to
      the bytes that follow: their first has to be of the type assumed. */
  ghost predicate HeaderStands(t: Bytes, e: Bytes, x: Bytes) {
    if e == [] then x != [] && x[0] % 32 == 0 else !StartAt(t + e + x, |t|)
  }

  /** The stream as the splitter takes it: a byte stands in for the missing or zero one. */
  function Taken(t: Bytes, e: Bytes, x: Bytes): Bytes { t + Shown(-1, e) + x }

  lemma TakenSuffix(t: Bytes, e: Bytes, x: Bytes)
    requires Headless(-1, e)
    ensures var s, s', m := t + e + x, Taken(t, e, x), |t| + |e|;
      && |s| == m + |x| && s'[|t|..] == [0x20] + (if e == [] then x else e[1..] + x)
      && |s'| == |t| + 1 + (if e == [] then |x| else |e| - 1 + |x|)
      && s'[|t| + 1..] == s[if e == [] then |t| else |t| + 1..]
      && |t| < |s'| && s'[..|t|] == t
      && (e != [] ==> s[|t|] == 0 && s[|t|..] == [0] + s'[|t| + 1..])
  {
    if e != [] {
      assert t + e + x == t + ([e[0]] + (e[1..] + x));
    } else {
      assert t + e + x == t + x;
    }
  }

  /** The stand-in begins no start code. */
  lemma FindTaken(s': Bytes, i: nat)
    requires i < |s'| && s'[i] != 0
    ensures FindStart(s', i) == FindStart(s', i + 1)
  {
    hide FindStart;
    assert !StartAt(s', i);
  }

  lemma FindZero(s: Bytes, i: nat)
    requires i < |s|
    ensures FindStart(s, i) == if StartAt(s, i) then i else FindStart(s, i + 1)
  {
    hide FindStart;
  }

  /** The unit `first`, then the rest. */
  ghost predicate Begins(us: seq<Unit>, first: Unit, rest: seq<Unit>) { us == [first] + rest }

  /** The bytes from `j` up to the next start code, and the units after it. */
  ghost predicate Behind(s: Bytes, j: nat, d: Bytes, rest: seq<Unit>)
    requires j <= |s|
  {
    var p := FindStart(s, j);
    d == s[j..p] && rest == if p < |s| then UnitsFrom(s, p + 3) else []
  }

  lemma StandInUnit(s': Bytes, i: nat, s: Bytes, j: nat) returns (d: Bytes, rest: seq<Unit>)
    requires i < |s'| && s'[i] == 0x20 && j <= |s| && s'[i + 1..] == s[j..]
    ensures Begins(UnitsFrom(s', i), Unit(0, [0x20] + d), rest) && Behind(s, j, d, rest)
  {
    hide FindStart, UnitsFrom, StartAt;
    UnitsOnce(s', i);
    FindTaken(s', i);
    FindSuffix(s', i + 1, s, j);
    var p', p := FindStart(s', i + 1), FindStart(s, j);
    d := s'[i + 1..p'];
    rest := if p' < |s'| then UnitsFrom(s', p' + 3) else [];
    assert s'[i..p'] == [0x20] + d;
    assert d == s'[i + 1..][..p' - (i + 1)] == s[j..][..p - j] == s[j..p];
    if p' < |s'| {
      assert s'[p' + 3..] == s'[i + 1..][p' + 3 - (i + 1)..] == s[j..][p + 3 - j..] == s[p + 3..];
      UnitsSuffix(s', p' + 3, s, p + 3);
    }
  }

  /** Nothing stood where the stand-in is. */
  lemma NothingStood(s: Bytes, i: nat, d: Bytes, rest: seq<Unit>)
    requires i <= |s| && Behind(s, i, d, rest)
    ensures i == |s| ==> UnitsFrom(s, i) == []
    ensures i < |s| ==> Begins(UnitsFrom(s, i), Unit(s[i] % 32, [] + d), rest)
  {
    hide FindStart, UnitsFrom;
    UnitsOnce(s, i);
    assert [] + d == d;
  }

  /** A zero stood where the stand-in is. */
  lemma ZeroStood(s: Bytes, i: nat, d: Bytes, rest: seq<Unit>)
    requires i < |s| && s[i] == 0 && Behind(s, i + 1, d, rest)
    ensures var us := UnitsFrom(s, i);
      if StartAt(s, i) then us != [] && !Same(us[0], Unit(0, [0] + d)) else Begins(us, Unit(0, [0] + d), rest)
  {
    hide FindStart, UnitsFrom, StartAt, Same;
    UnitsOnce(s, i);
    FindZero(s, i);
    var p := FindStart(s, i + 1);
    if StartAt(s, i) {
      StartIsCut(s, i, p, d);
    } else {
      assert s[i..p] == [0] + d;
    }
  }

  /** The unit the packet opens, in the stream as taken, and what stands there in the real one. */
  lemma Opened(t: Bytes, e: Bytes, x: Bytes) returns (d: Bytes, rest: seq<Unit>)
    requires Headless(-1, e)
    ensures Begins(UnitsFrom(Taken(t, e, x), |t|), Unit(0, [0x20] + d), rest)
    ensures |t| <= |t + e + x|
    ensures var us := UnitsFrom(t + e + x, |t|);
      if HeaderStands(t, e, x) then Begins(us, Unit(0, Head(e) + d), rest)
      else us == [] || !Same(us[0], Unit(0, Head(e) + d))
  {
    hide FindStart, UnitsFrom, StartAt, Strip, Behind, Taken;
    var s, s', i := t + e + x, Taken(t, e, x), |t|;
    TakenSuffix(t, e, x);
    assert s'[i] == s'[i..][0] == 0x20;
    d, rest := StandInUnit(s', i, s, if e == [] then i else i + 1);
    if e == [] {
      assert x != [] ==> s[i] == x[0];
      NothingStood(s, i, d, rest);
    } else {
      ZeroStood(s, i, d, rest);
    }
  }

  /** A start code at the header itself: the real unit there is empty, and the stand-in runs on over the code. */
  lemma StartIsCut(s: Bytes, i: nat, p: nat, d: Bytes)
    requires i < p <= |s| && StartAt(s, i) && p == FindStart(s, i + 1) && d == s[i + 1..p]
    ensures forall u: Unit :: u.data == s[i..i] ==> !Same(u, Unit(0, [0] + d))
  {
    hide FindStart;
    assert s[i + 1] == 0 && s[i + 2] == 1;
    assert p < |s| ==> p != i + 1 && p != i + 2;
    assert ([0] + d)[2] == 1;
    StripKeeps([0] + d, 2);
  }

  lemma StripKeeps(d: Bytes, k: nat)
    requires k < |d| && d[k] != 0
    ensures |Strip(d)| > k && Strip(d) == d[..|Strip(d)|]
  {
    var z := Zeros(d);
    assert k < |d| - z;
  }

  // ---------- what is stored ----------

  lemma {:induction false} StripCons(h: int, f: Bytes)
    ensures Strip([h] + f) == if h == 0 && Strip(f) == [] then [] else [h] + Strip(f)
  {
    if f == [] {
      assert ([h] + f)[..0] == [];
    } else {
      var g := f[..|f| - 1];
      assert ([h] + f)[..|f|] == [h] + g;
      StripCons(h, g);
      StripZero(f);
      StripZero([h] + f);
    }
  }

  lemma StripZero(f: Bytes)
    requires f != []
    ensures Strip(f) == if f[|f| - 1] == 0 then Strip(f[..|f| - 1]) else f
  {
  }

  lemma ConsCancels(h: int, a: Bytes, b: Bytes)
    ensures [h] + a == [h] + b <==> a == b
  {
    assert ([h] + a)[1..] == a && ([h] + b)[1..] == b;
  }

  /** Putting back what stood there keeps units apart or equal, up to trailing zeros. */
  lemma SameBeheaded(v: NalUnit, head: Bytes, d: Bytes)
    requires v.unit.data != [] && v.unit.data[0] == 0x20 && (head == [] || head == [0])
    ensures Same(v.unit, Unit(0, [0x20] + d)) <==> Same(Beheaded(v, head).unit, Unit(0, head + d))
    ensures v.unit == Unit(0, [0x20] + d) ==> Beheaded(v, head).unit == Unit(0, head + d)
  {
    hide Strip;
    var f := v.unit.data[1..];
    assert v.unit.data == [0x20] + f;
    StripCons(0x20, f);
    StripCons(0x20, d);
    ConsCancels(0x20, Strip(f), Strip(d));
    ConsCancels(0x20, f, d);
    if head == [] {
      assert head + f == f && head + d == d;
    } else {
      StripCons(0, f);
      StripCons(0, d);
      ConsCancels(0, Strip(f), Strip(d));
    }
  }

  lemma TakenEnds(t: Bytes, e: Bytes, x: Bytes)
    requires EndsWithStart(t) && Headless(-1, e) && HeaderStands(t, e, x)
    ensures EndsWithStart(Taken(t, e, x)) ==> EndsWithStart(t + e + x)
  {
    hide Shown, Taken, HeaderStands, StartAt;
    TakenSuffix(t, e, x);
    var s, s', i := t + e + x, Taken(t, e, x), |t|;
    assert s'[i] == s'[i..][0] == 0x20;
    if EndsWithStart(s') {
      NotAcross(t, s');
      var j, k := if e == [] then i else i + 1, |s'| - 3 - (i + 1);
      assert j + k == |s| - 3;
      StartSuffix(s', i + 1, s, j, k);
    }
  }

  /** No start code goes over the stand-in. */
  lemma NotAcross(t: Bytes, s': Bytes)
    requires EndsWithStart(t) && EndsWithStart(s') && |t| < |s'| && s'[..|t|] == t && s'[|t|] == 0x20
    ensures |s'| - 3 > |t|
  {
    assert s'[|t| - 1] == s'[..|t|][|t| - 1] == t[|t| - 1] == 1;
  }

  /** The stored units in two streams that share the units before one place and after it. */
  lemma RepresentsSwapped(seen: seq<NalUnit>, us: seq<NalUnit>, s': Bytes, s: Bytes, n: nat, bad: set<nat>)
    requires Represents(seen, s', bad) && (EndsWithStart(s') ==> EndsWithStart(s))
    requires |us| == |seen| && |Split(s)| == |Split(s')| && n < |us|
    requires forall k :: 0 <= k < |us| && k != n ==> us[k] == seen[k] && Split(s)[k] == Split(s')[k]
    requires Same(us[n].unit, Split(s)[n]) <==> Same(seen[n].unit, Split(s')[n])
    requires seen[n].unit == Split(s')[n] ==> us[n].unit == Split(s)[n]
    ensures Represents(us, s, bad)
  {
    hide Split, EndsWithStart, Same;
  }

  lemma SplitsDiffer(us: seq<NalUnit>, s: Bytes, n: nat, bad: set<nat>)
    requires n < |us| && n !in bad && (|Split(s)| <= n || !Same(us[n].unit, Split(s)[n]))
    ensures !Represents(us, s, bad)
  {
    hide Split, Same;
  }

  lemma SameJoins(u: Unit, v: Unit, w: Unit)
    requires Same(u, v) && Same(u, w)
    ensures Same(w, v)
  {
  }

  lemma SameAt(us: seq<NalUnit>, s: Bytes, n: nat, bad: set<nat>)
    requires Represents(us, s, bad) && n < |us|
    ensures n < |Split(s)| && (Same(us[n].unit, Split(s)[n]) <==> n !in bad)
  {
    hide Split, Same;
  }

  lemma TakenSplit(t: Bytes, e: Bytes, x: Bytes)
    requires EndsWithStart(t)
    ensures Split(t + e + x) == Split(t) + UnitsFrom(t + e + x, |t|)
    ensures Split(Taken(t, e, x)) == Split(t) + UnitsFrom(Taken(t, e, x), |t|)
  {
    hide EndsWithStart, Split, UnitsFrom, Shown;
    SplitAfter(t, e + x);
    SplitAfter(t, Shown(-1, e) + x);
    assert t + e + x == t + (e + x) && t + Shown(-1, e) + x == t + (Shown(-1, e) + x);
  }

  /** What is stored of a headless packet's unit. */
  lemma StoredAt(seen: seq<NalUnit>, n: nat, head: Bytes)
    requires n < |seen|
    ensures var us := Stored(seen, map[n := head]);
      us[n] == Beheaded(seen[n], head) && forall k :: 0 <= k < |us| && k != n ==> us[k] == seen[k]
  {
  }

  /** Exactly when the stored units are still those of the real stream, whatever came before the packet and whatever
      comes after it. */
  lemma StoredStandsIff(seen: seq<NalUnit>, t: Bytes, e: Bytes, x: Bytes, bad: set<nat>)
    requires EndsWithStart(t) && Headless(-1, e) && Represents(seen, Taken(t, e, x), bad)
    requires HeadsOk(seen, map[|Split(t)| := Head(e)])
    ensures HeaderStands(t, e, x) ==> Represents(Stored(seen, map[|Split(t)| := Head(e)]), t + e + x, bad)
    ensures |Split(t)| !in bad && Represents(Stored(seen, map[|Split(t)| := Head(e)]), t + e + x, bad) ==>
              HeaderStands(t, e, x)
  {
    hide EndsWithStart, Represents, Split, UnitsFrom, HeaderStands, Stored, Beheaded, Same, Taken;
    var n, s, s' := |Split(t)|, t + e + x, Taken(t, e, x);
    var us := Stored(seen, map[n := Head(e)]);
    var d, rest := Opened(t, e, x);
    TakenSplit(t, e, x);
    assert n in map[n := Head(e)];
    SameBeheaded(seen[n], Head(e), d);
    StoredAt(seen, n, Head(e));
    if HeaderStands(t, e, x) {
      TakenEnds(t, e, x);
      RepresentsSwapped(seen, us, s', s, n, bad);
    } else if n !in bad {
      SameAt(seen, s', n, bad);
      if |Split(s)| > n && Same(us[n].unit, Split(s)[n]) {
        SameJoins(us[n].unit, Unit(0, Head(e) + d), Split(s)[n]);
      }
      SplitsDiffer(us, s, n, bad);
    }
  }

  /** When one head is there and stays the only one, the next packet is not headless. */
  lemma OneHead(seen: seq<NalUnit>, heads: map<nat, Bytes>, n: nat, head: Bytes, a: int, e: Bytes)
    requires n in heads && HeadsOk(seen, heads)
    ensures n in HeadsAfter(heads, |seen|, a, e)
    ensures HeadsAfter(heads, |seen|, a, e) == map[n := head] ==> heads == map[n := head] && Shown(a, e) == e
  {
    assert n < |seen|;
    assert |seen| !in map[n := head];
  }

  lemma TakenMore(t: Bytes, e: Bytes, x: Bytes, more: Bytes)
    ensures Taken(t, e, x) + more == Taken(t, e, x + more) && (t + e + x) + more == t + e + (x + more)
  {
    hide Shown;
    assert t + Shown(-1, e) + x + more == t + Shown(-1, e) + (x + more);
  }

  /** A headless packet after regular ones, then any packets: as long as it stays the only one, the units are those of
      the real stream, up to trailing zeros and the damaged ones, if and only if the header stands. */
  method ParseHeadless(track: AvcTrack, e: Bytes, later: seq<Bytes>)
    requires track.Valid() && track.heads == map[] && track.naluState == -1 && Headless(-1, e)
    modifies track
    ensures track.Valid() && track.stream == old(track.stream) + e + Concat(later)
    ensures track.heads == map[|old(track.units)| := Head(e)] ==>
              && (HeaderStands(old(track.stream), e, Concat(later)) ==>
                    Represents(track.units, track.stream, track.damaged))
              && (|old(track.units)| !in track.damaged && Represents(track.units, track.stream, track.damaged) ==>
                    HeaderStands(old(track.stream), e, Concat(later)))
  {
    hide Represents, Scan, Shown, HeaderStands, Stored, Taken, EndsWithStart, Split, DamagedAfter, HeadsAfter, HeadsOk,
      Concat;
    ghost var t, n, head := track.stream, |track.units|, Head(e);
    StateEnds(track);
    track.ParseAvcNalu(e);
    assert t + e + [] == t + e;
    TakenNone(t, e, n);
    for i := 0 to |later|
      invariant track.Valid() && track.stream == t + e + Concat(later[..i])
      invariant n in track.heads
      invariant track.heads == map[n := head] ==> track.shown == Taken(t, e, Concat(later[..i]))
    {
      ghost var x := Concat(later[..i]);
      OneHead(track.seen, track.heads, n, head, track.naluState, later[i]);
      track.ParseAvcNalu(later[i]);
      assert later[..i + 1] == later[..i] + [later[i]];
      ConcatSnoc(later[..i], later[i]);
      TakenMore(t, e, x, later[i]);
    }
    assert later[..|later|] == later;
    if track.heads == map[n := head] {
      StoredStandsIff(track.seen, t, e, Concat(later), track.damaged);
    }
  }

  lemma StateEnds(track: AvcTrack)
    requires track.Valid() && track.heads == map[] && track.naluState == -1
    ensures EndsWithStart(track.stream) && |Split(track.stream)| == |track.units|
  {
    hide EndsWithStart, Split;
    ScanStart(track.stream);
  }

  lemma TakenNone(t: Bytes, e: Bytes, n: nat)
    ensures Taken(t, e, []) == t + Shown(-1, e) && Concat<int>([]) == []
    ensures Headless(-1, e) ==> n in HeadsAfter(map[], n, -1, e)
  {
  }
}
