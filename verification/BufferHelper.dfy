/** What is buffered around a position: ranges closer than a tolerance are treated as one. */
module BufferHelper {
  import opened Wrappers
  import opened StableSort

  datatype Range = Range(start: real, end: real)

  datatype Info = Info(len: real, start: real, end: real, nextStart: Option<real>)

  // ---------- the direct definition, over an unordered collection of ranges ----------

  ghost predicate StartsAt(ranges: seq<Range>, s: real) { exists x :: x in ranges && x.start == s }

  ghost predicate EndsAt(ranges: seq<Range>, e: real) { exists x :: x in ranges && x.end == e }

  /** Some range goes further than `e` and starts within the tolerance after it. */
  ghost predicate Bridged(ranges: seq<Range>, r: real, e: real) {
    exists y :: y in ranges && y.start - e < r && y.end > e
  }

  /** Some range starts before `s` and ends within the tolerance before it. */
  ghost predicate Preceded(ranges: seq<Range>, r: real, s: real) {
    exists y :: y in ranges && y.start < s && s - y.end < r
  }

  ghost predicate IsStart(ranges: seq<Range>, r: real, s: real) { StartsAt(ranges, s) && !Preceded(ranges, r, s) }

  ghost predicate IsEnd(ranges: seq<Range>, r: real, e: real) { EndsAt(ranges, e) && !Bridged(ranges, r, e) }

  /** A maximal stretch of ranges with no gap of at least the tolerance. */
  ghost predicate Component(ranges: seq<Range>, r: real, c: Range) {
    && IsStart(ranges, r, c.start) && IsEnd(ranges, r, c.end) && c.start <= c.end
    && forall e :: IsEnd(ranges, r, e) && c.start <= e ==> c.end <= e
  }

  ghost predicate Proper(ranges: seq<Range>) { forall x :: x in ranges ==> x.start <= x.end }

  // ---------- merging ----------

  /** A range that begins and ends where ranges do, everything inside it being bridged within the tolerance. */
  ghost predicate Tight(ranges: seq<Range>, r: real, c: Range) {
    && c.start <= c.end && StartsAt(ranges, c.start) && EndsAt(ranges, c.end)
    && (forall e: real :: c.start <= e < c.end ==> Bridged(ranges, r, e))
    && (forall s: real :: c.start < s <= c.end && StartsAt(ranges, s) ==> Preceded(ranges, r, s))
  }

  lemma More(ranges: seq<Range>, x: Range, r: real)
    ensures forall s :: StartsAt(ranges + [x], s) <==> StartsAt(ranges, s) || x.start == s
    ensures forall e :: EndsAt(ranges, e) || x.end == e ==> EndsAt(ranges + [x], e)
    ensures forall e :: Bridged(ranges, r, e) || (x.start - e < r && x.end > e) ==> Bridged(ranges + [x], r, e)
    ensures forall s :: Preceded(ranges, r, s) ==> Preceded(ranges + [x], r, s)
  {
    var all := ranges + [x];
    assert forall y :: y in ranges || y == x <==> y in all;
  }

  lemma NoStart(ranges: seq<Range>, s: real)
    requires forall y :: y in ranges ==> y.start < s
    ensures !StartsAt(ranges, s)
  {
  }

  lemma TightAlone(ranges: seq<Range>, r: real, x: Range)
    requires r > 0.0 && x.start <= x.end && Proper(ranges) && forall y :: y in ranges ==> y.end < x.start
    ensures Tight(ranges + [x], r, x)
  {
    hide Bridged, EndsAt, Preceded, StartsAt;
    More(ranges, x, r);
    forall s: real | x.start < s ensures !StartsAt(ranges, s) {
      NoStart(ranges, s);
    }
  }

  lemma TightMore(ranges: seq<Range>, r: real, c: Range, x: Range)
    requires Tight(ranges, r, c) && x.start > c.end
    ensures Tight(ranges + [x], r, c)
  {
    hide StartsAt, EndsAt, Bridged, Preceded;
    More(ranges, x, r);
  }

  /** Widening a tight range by one that starts within the tolerance of its end. */
  lemma TightWiden(ranges: seq<Range>, r: real, c: Range, x: Range)
    requires r > 0.0 && Proper(ranges) && Tight(ranges, r, c) && x.start <= x.end && c.start <= x.start &&
      x.start - c.end < r
    requires forall y :: y in ranges ==> y.start <= x.start
    ensures Tight(ranges + [x], r, c.(end := if x.end > c.end then x.end else c.end))
  {
    hide StartsAt, Bridged;
    var d := c.(end := if x.end > c.end then x.end else c.end);
    More(ranges, x, r);
    forall s: real | d.start < s <= d.end && StartsAt(ranges + [x], s) ensures Preceded(ranges + [x], r, s) {
      if !(s <= c.end && StartsAt(ranges, s)) {
        StartBeyond(ranges, r, c, x, s);
      }
    }
  }

  lemma StartBeyond(ranges: seq<Range>, r: real, c: Range, x: Range, s: real)
    requires r > 0.0 && Proper(ranges) && Tight(ranges, r, c) && x.start <= x.end && c.start <= x.start &&
      x.start - c.end < r
    requires forall y :: y in ranges ==> y.start <= x.start
    requires c.start < s && (s == x.start || (StartsAt(ranges, s) && s > c.end))
    ensures Preceded(ranges, r, s)
  {
    hide Bridged;
    assert s <= x.start;
    var w :| w in ranges && w.end == c.end;
    if w.start >= s {
      assert StartsAt(ranges, w.start);
      var y :| y in ranges && y.start < w.start && w.start - y.end < r;
    }
  }

  ghost predicate Inside(x: Range, c: Range) { c.start <= x.start && x.end <= c.end }

  ghost predicate Covered(x: Range, m: seq<Range>) { exists k :: 0 <= k < |m| && Inside(x, m[k]) }

  ghost predicate Apart(m: seq<Range>, r: real) { forall j, k :: 0 <= j < k < |m| ==> m[k].start - m[j].end >= r }

  /** Apart by at least the tolerance, covering every range, and adding only gaps shorter than it. */
  ghost predicate Merged(ranges: seq<Range>, r: real, m: seq<Range>) {
    && Apart(m, r)
    && (forall x :: x in ranges ==> Covered(x, m))
    && (forall k :: 0 <= k < |m| ==> Tight(ranges, r, m[k]))
  }

  /** One step of the merging loop. */
  function MergeStep(m: seq<Range>, x: Range, r: real): seq<Range> {
    if m == [] then [x]
    else
      var s := m[|m| - 1].end;
      if x.start - s < r then if x.end > s then m[|m| - 1 := m[|m| - 1].(end := x.end)] else m
      else m + [x]
  }

  lemma MergeKeeps(ranges: seq<Range>, r: real, m: seq<Range>, x: Range)
    requires r > 0.0 && Proper(ranges) && Merged(ranges, r, m) && x.start <= x.end
    requires forall y :: y in ranges ==> y.start <= x.start
    ensures Merged(ranges + [x], r, MergeStep(m, x, r))
  {
    hide StartsAt, EndsAt, Bridged, Preceded, Tight;
    var m' := MergeStep(m, x, r);
    LastIsFurthest(ranges, r, m);
    if m == [] || x.start - m[|m| - 1].end >= r {
      if m == [] {
        assert forall y :: y in ranges ==> Covered(y, m);
      }
      TightAlone(ranges, r, x);
      forall k | 0 <= k < |m| ensures Tight(ranges + [x], r, m[k]) {
        TightMore(ranges, r, m[k], x);
      }
    } else {
      StartInRanges(ranges, r, m[|m| - 1]);
      TightWiden(ranges, r, m[|m| - 1], x);
      forall k | 0 <= k < |m| - 1 ensures Tight(ranges + [x], r, m[k]) {
        TightMore(ranges, r, m[k], x);
      }
    }
    forall y | y in ranges + [x] ensures Covered(y, m') {
      if y in ranges {
        var k :| 0 <= k < |m| && Inside(y, m[k]);
        assert Inside(y, m'[k]);
      } else {
        assert Inside(x, m'[|m'| - 1]);
      }
    }
  }

  lemma LastIsFurthest(ranges: seq<Range>, r: real, m: seq<Range>)
    requires r > 0.0 && Merged(ranges, r, m)
    ensures m == [] ==> forall y :: y in ranges ==> false
    ensures m != [] ==> forall k :: 0 <= k < |m| ==> m[k].end <= m[|m| - 1].end
    ensures m != [] ==> forall k :: 0 <= k < |m| - 1 ==> m[k].end + r <= m[|m| - 1].start
    ensures m != [] ==> forall y :: y in ranges ==> y.end <= m[|m| - 1].end
  {
    hide StartsAt, EndsAt, Bridged, Preceded;
  }

  lemma StartInRanges(ranges: seq<Range>, r: real, c: Range)
    requires Tight(ranges, r, c)
    ensures exists y :: y in ranges && y.start == c.start
    ensures c.start <= c.end
  {
  }

  lemma TightEnds(ranges: seq<Range>, r: real, c: Range)
    requires Tight(ranges, r, c)
    ensures StartsAt(ranges, c.start) && EndsAt(ranges, c.end) && c.start <= c.end
  {
  }

  lemma MergedStart(ranges: seq<Range>, r: real, m: seq<Range>, k: nat)
    requires r > 0.0 && Merged(ranges, r, m) && k < |m|
    ensures IsStart(ranges, r, m[k].start)
  {
    hide Tight, StartsAt, EndsAt, Covered;
    var s := m[k].start;
    TightEnds(ranges, r, m[k]);
    forall y | y in ranges && y.start < s ensures s - y.end >= r {
      var j := CoveredBy(ranges, r, m, y);
      TightEnds(ranges, r, m[j]);
      assert j < k;
    }
  }

  lemma MergedEnd(ranges: seq<Range>, r: real, m: seq<Range>, k: nat)
    requires r > 0.0 && Merged(ranges, r, m) && k < |m|
    ensures IsEnd(ranges, r, m[k].end)
  {
    hide Tight, StartsAt, EndsAt, Covered;
    var e := m[k].end;
    TightEnds(ranges, r, m[k]);
    forall y | y in ranges && y.end > e ensures y.start - e >= r {
      var j := CoveredBy(ranges, r, m, y);
      TightEnds(ranges, r, m[j]);
      assert k < j;
    }
  }

  lemma MergedIsComponent(ranges: seq<Range>, r: real, m: seq<Range>, k: nat)
    requires r > 0.0 && Merged(ranges, r, m) && k < |m|
    ensures Component(ranges, r, m[k])
  {
    hide StartsAt, EndsAt, Bridged, Preceded;
    MergedStart(ranges, r, m, k);
    MergedEnd(ranges, r, m, k);
    assert Tight(ranges, r, m[k]);
  }

  lemma ComponentIsMerged(ranges: seq<Range>, r: real, m: seq<Range>, c: Range)
    requires r > 0.0 && Proper(ranges) && Merged(ranges, r, m) && Component(ranges, r, c)
    ensures c in m
  {
    hide EndsAt, Bridged, Preceded, Tight, Merged;
    var x :| x in ranges && x.start == c.start;
    var k := CoveredBy(ranges, r, m, x);
    StartsInside(ranges, r, m[k], x);
    MergedIsComponent(ranges, r, m, k);
    assert m[k] == c;
  }

  lemma CoveredBy(ranges: seq<Range>, r: real, m: seq<Range>, x: Range) returns (k: nat)
    requires Merged(ranges, r, m) && x in ranges
    ensures k < |m| && Inside(x, m[k]) && Tight(ranges, r, m[k])
  {
    hide Tight;
    assert Covered(x, m);
    k :| 0 <= k < |m| && Inside(x, m[k]);
  }

  /** The merged ranges are exactly the components of the collection. */
  lemma MergedIsComponents(ranges: seq<Range>, r: real, m: seq<Range>, c: Range)
    requires r > 0.0 && Proper(ranges) && Merged(ranges, r, m)
    ensures c in m <==> Component(ranges, r, c)
  {
    hide Merged, Component;
    if c in m {
      var k :| 0 <= k < |m| && m[k] == c;
      MergedIsComponent(ranges, r, m, k);
    }
    if Component(ranges, r, c) {
      ComponentIsMerged(ranges, r, m, c);
    }
  }

  lemma StartsInside(ranges: seq<Range>, r: real, c: Range, x: Range)
    requires Tight(ranges, r, c) && Inside(x, c) && x in ranges && IsStart(ranges, r, x.start)
    requires x.start <= x.end
    ensures x.start == c.start
  {
    hide EndsAt, Bridged, Preceded;
    assert StartsAt(ranges, x.start);
  }

  // ---------- the query ----------

  ghost predicate Matches(c: Range, pos: real, r: real) { c.start <= pos + r && pos < c.end }

  /** The answer, told from the unordered ranges alone. */
  ghost predicate IsInfo(ranges: seq<Range>, pos: real, r: real, info: Info) {
    && (forall c :: Component(ranges, r, c) && Matches(c, pos, r) ==>
          info.start == c.start && info.end == c.end && info.len == c.end - pos)
    && ((forall c :: Component(ranges, r, c) ==> !Matches(c, pos, r)) ==>
          info.start == pos && info.end == pos && info.len == 0.0)
    && (info.nextStart.Some? ==> exists c :: Component(ranges, r, c) && c.start == info.nextStart.value)
    && (info.nextStart.Some? ==> info.nextStart.value > pos + r)
    && (forall c :: Component(ranges, r, c) && c.start > pos + r ==>
          info.nextStart.Some? && info.nextStart.value <= c.start)
  }

  /** By ascending start, and among equal starts by descending end. */
  predicate Earlier(x: Range, y: Range) { x.start < y.start || (x.start == y.start && x.end >= y.end) }

  method MergeRanges(t: seq<Range>, r: real) returns (m: seq<Range>)
    requires Proper(t) && Sorted(Earlier, t)
    ensures r > 0.0 ==> Merged(t, r, m)
  {
    hide Merged;
    m := [];
    NothingMerged(r);
    for n := 0 to |t|
      invariant r > 0.0 ==> Merged(t[..n], r, m)
    {
      if r > 0.0 {
        MergeKeeps(t[..n], r, m, t[n]);
      }
      assert t[..n] + [t[n]] == t[..n + 1];
      ghost var next := MergeStep(m, t[n], r);
      var a := |m|;
      if a != 0 {
        var s := m[a - 1].end;
        if t[n].start - s < r {
          if t[n].end > s {
            m := m[a - 1 := m[a - 1].(end := t[n].end)];
          }
        } else {
          m := m + [t[n]];
        }
      } else {
        m := m + [t[n]];
      }
      assert m == next;
    }
    assert t[..|t|] == t;
  }

  lemma NothingMerged(r: real)
    ensures Merged([], r, [])
  {
  }

  lemma SameMembers(a: seq<Range>, b: seq<Range>, r: real, m: seq<Range>)
    requires multiset(a) == multiset(b)
    ensures forall x :: x in a <==> x in b
    ensures Merged(a, r, m) ==> Merged(b, r, m)
  {
    hide Tight;
    forall x ensures x in a <==> x in b {
      assert x in a <==> x in multiset(a);
      assert x in b <==> x in multiset(b);
    }
    forall c ensures Tight(a, r, c) ==> Tight(b, r, c) {
      SameTight(a, b, r, c);
    }
  }

  lemma SameTight(a: seq<Range>, b: seq<Range>, r: real, c: Range)
    requires forall x :: x in a <==> x in b
    ensures Tight(a, r, c) ==> Tight(b, r, c)
  {
    if Tight(a, r, c) {
      hide Tight;
      Agree(a, b, r);
      SameWith(a, b, r, c);
    }
  }

  lemma Agree(a: seq<Range>, b: seq<Range>, r: real)
    requires forall x :: x in a <==> x in b
    ensures forall s :: StartsAt(a, s) <==> StartsAt(b, s)
    ensures forall e :: EndsAt(a, e) <==> EndsAt(b, e)
    ensures forall e :: Bridged(a, r, e) <==> Bridged(b, r, e)
    ensures forall s :: Preceded(a, r, s) <==> Preceded(b, r, s)
  {
  }

  lemma SameWith(a: seq<Range>, b: seq<Range>, r: real, c: Range)
    requires Tight(a, r, c)
    requires forall s :: StartsAt(a, s) <==> StartsAt(b, s)
    requires forall e :: EndsAt(a, e) <==> EndsAt(b, e)
    requires forall e :: Bridged(a, r, e) <==> Bridged(b, r, e)
    requires forall s :: Preceded(a, r, s) <==> Preceded(b, r, s)
    ensures Tight(b, r, c)
  {
    hide StartsAt, EndsAt, Bridged, Preceded;
  }

  // ---------- without a tolerance ----------

  /** `x` is the match that comes last: it starts latest, and among those ends first. */
  ghost predicate LastMatch(ranges: seq<Range>, pos: real, x: Range) {
    && x in ranges && Matches(x, pos, 0.0)
    && forall y :: y in ranges && Matches(y, pos, 0.0) ==> Earlier(y, x)
  }

  /** With a tolerance of 0 ranges stay as they are: the answer tells of the last match, and of the least start behind
      the position. */
  ghost predicate IsPlainInfo(ranges: seq<Range>, pos: real, info: Info) {
    && (forall x :: LastMatch(ranges, pos, x) ==> info.start == x.start && info.end == x.end && info.len == x.end - pos)
    && ((exists x :: x in ranges && Matches(x, pos, 0.0)) ==> exists x :: LastMatch(ranges, pos, x))
    && ((forall x :: x in ranges ==> !Matches(x, pos, 0.0)) ==> info.start == pos && info.end == pos && info.len == 0.0)
    && (info.nextStart.Some? ==> StartsAt(ranges, info.nextStart.value) && info.nextStart.value > pos)
    && (forall x :: x in ranges && x.start > pos ==> info.nextStart.Some? && info.nextStart.value <= x.start)
  }

  /** What the scan has seen of a sorted list: the last match, or none. */
  ghost predicate SeenPlain(m: seq<Range>, e: real, l: real, u: real, h: real) {
    if exists x :: x in m && Matches(x, e, 0.0) then LastMatch(m, e, Range(u, h)) && l == h - e
    else u == e && h == e && l == 0.0
  }

  lemma NothingSeenPlain(e: real)
    ensures SeenPlain([], e, 0.0, e, e)
  {
  }

  lemma SeeNextPlain(m: seq<Range>, d: nat, e: real, l: real, u: real, h: real)
    requires d < |m| && Sorted(Earlier, m) && SeenPlain(m[..d], e, l, u, h)
    ensures if Matches(m[d], e, 0.0) then SeenPlain(m[..d + 1], e, m[d].end - e, m[d].start, m[d].end)
            else SeenPlain(m[..d + 1], e, l, u, h)
  {
    var a, b, x := m[..d], m[..d + 1], m[d];
    assert b == a + [x] && x in b;
    forall y | y in a ensures Earlier(y, x) {
      var j :| 0 <= j < d && m[j] == y;
    }
    assert forall y :: y in b <==> y in a || y == x;
    if Matches(x, e, 0.0) {
      assert LastMatch(b, e, x);
    }
  }

  /** Behind the end of the scan all starts lie behind the position. */
  lemma BeyondScan(m: seq<Range>, d: nat, e: real, next: Option<real>)
    requires Sorted(Earlier, m) && d <= |m|
    requires if d < |m| then m[d].start > e && next == Some(m[d].start) else next == None
    ensures forall x :: x in m && x !in m[..d] ==> next.Some? && x.start > e && next.value <= x.start
    ensures forall x :: x in m && Matches(x, e, 0.0) ==> x in m[..d]
  {
    forall k | 0 <= k < d ensures m[k] in m[..d] {
      assert m[..d][k] == m[k];
    }
    forall x | x in m && x !in m[..d] ensures next.Some? && x.start > e && next.value <= x.start {
      var k :| 0 <= k < |m| && m[k] == x;
      assert k > d ==> Earlier(m[d], m[k]);
    }
  }

  lemma SameElements(ranges: seq<Range>, m: seq<Range>)
    requires multiset(m) == multiset(ranges)
    ensures forall x :: x in ranges <==> x in m
  {
    forall x ensures x in ranges <==> x in m {
      assert x in ranges <==> x in multiset(ranges);
      assert x in m <==> x in multiset(m);
    }
  }

  lemma AnswerPlain(ranges: seq<Range>, m: seq<Range>, d: nat, e: real, info: Info)
    requires multiset(m) == multiset(ranges) && Sorted(Earlier, m) && d <= |m|
    requires SeenPlain(m[..d], e, info.len, info.start, info.end)
    requires forall k :: 0 <= k < d ==> m[k].start <= e
    requires if d < |m| then m[d].start > e && info.nextStart == Some(m[d].start) else info.nextStart == None
    ensures IsPlainInfo(ranges, e, info)
  {
    hide SeenPlain, LastMatch, Matches;
    SameElements(ranges, m);
    BeyondScan(m, d, e, info.nextStart);
    assert forall x :: x in m[..d] ==> x.start <= e;
    assert d < |m| ==> m[d] in m;
    SeenIsLast(m, d, ranges, e, info);
  }

  lemma SeenIsLast(m: seq<Range>, d: nat, ranges: seq<Range>, e: real, info: Info)
    requires d <= |m| && (forall x :: x in ranges <==> x in m)
    requires forall x :: x in m && Matches(x, e, 0.0) ==> x in m[..d]
    requires SeenPlain(m[..d], e, info.len, info.start, info.end)
    ensures forall x :: LastMatch(ranges, e, x) ==> info.start == x.start && info.end == x.end && info.len == x.end - e
    ensures (exists x :: x in ranges && Matches(x, e, 0.0)) ==> exists x :: LastMatch(ranges, e, x)
    ensures (forall x :: x in ranges ==> !Matches(x, e, 0.0)) ==> info.start == e && info.end == e && info.len == 0.0
  {
    assert forall x :: x in m[..d] ==> x in m;
    if x :| x in ranges && Matches(x, e, 0.0) {
      var last := Range(info.start, info.end);
      assert LastMatch(m[..d], e, last);
      assert LastMatch(ranges, e, last);
      forall y | LastMatch(ranges, e, y) ensures y == last {
        assert Earlier(y, last) && Earlier(last, y);
      }
    }
  }

  /** What is buffered at a position, seen through a tolerance for holes. */
  method BufferedInfo(ranges: seq<Range>, position: real, hole: real) returns (info: Info)
    requires Proper(ranges)
    ensures hole > 0.0 ==> IsInfo(ranges, if position > 0.0 then position else 0.0, hole, info)
    ensures hole == 0.0 ==> IsPlainInfo(ranges, if position > 0.0 then position else 0.0, info)
  {
    hide Merged, Matches, Tight, IsInfo, Seen, SeenPlain, SeenSoFar, IsPlainInfo, Sorted, Earlier, Ready, Proper, Sort;
    var e := if position > 0.0 then position else 0.0;
    var t := Sort(Earlier, ranges);
    SortProper(ranges);
    SortedReady(ranges, t);
    var m := t;
    if hole != 0.0 {
      m := MergeRanges(t, hole);
      MergedReady(ranges, t, hole, m);
    }
    var o: Option<real>, l, u, h := None, 0.0, e, e;
    LookedAtNothing(e, hole);
    var d := 0;
    while d < |m|
      invariant 0 <= d <= |m| && o == None
      invariant forall k :: 0 <= k < d ==> m[k].start <= e + hole
      invariant SeenSoFar(m[..d], e, hole, l, u, h)
    {
      var c, f := m[d].start, m[d].end;
      LookAt(ranges, m, d, e, hole, l, u, h);
      if e + hole >= c && e < f {
        u, l, h := c, f - e, f;
      } else if e + hole < c {
        o := Some(c);
        break;
      }
      d := d + 1;
    }
    info := Info(l, u, h, o);
    Answers(ranges, m, d, e, hole, info);
  }

  lemma SortProper(ranges: seq<Range>)
    requires Proper(ranges)
    ensures Proper(Sort(Earlier, ranges)) && Sorted(Earlier, Sort(Earlier, ranges))
  {
    hide Sorted;
    SortSorted(Earlier, ranges);
    SameElements(ranges, Sort(Earlier, ranges));
  }

  lemma SortedReady(ranges: seq<Range>, t: seq<Range>)
    requires multiset(t) == multiset(ranges) && Sorted(Earlier, t)
    ensures Ready(ranges, 0.0, t)
  {
  }

  lemma MergedReady(ranges: seq<Range>, t: seq<Range>, r: real, m: seq<Range>)
    requires multiset(t) == multiset(ranges) && r != 0.0 && (r > 0.0 ==> Merged(t, r, m))
    ensures Ready(ranges, r, m)
  {
    hide Merged;
    SameMembers(t, ranges, r, m);
  }

  ghost predicate SeenSoFar(m: seq<Range>, e: real, r: real, l: real, u: real, h: real) {
    (r > 0.0 ==> Seen(m, e, r, l, u, h)) && (r == 0.0 ==> SeenPlain(m, e, l, u, h))
  }

  /** The list that is scanned: merged with a tolerance, sorted without one. */
  ghost predicate Ready(ranges: seq<Range>, r: real, m: seq<Range>) {
    && (r > 0.0 ==> Merged(ranges, r, m))
    && (r == 0.0 ==> multiset(m) == multiset(ranges) && Sorted(Earlier, m))
  }

  lemma LookedAtNothing(e: real, r: real)
    ensures SeenSoFar([], e, r, 0.0, e, e)
  {
    NothingSeen(e, r);
    NothingSeenPlain(e);
  }

  /** One turn of the scan. */
  lemma LookAt(ranges: seq<Range>, m: seq<Range>, d: nat, e: real, r: real, l: real, u: real, h: real)
    requires Ready(ranges, r, m) && d < |m| && SeenSoFar(m[..d], e, r, l, u, h)
    ensures if e + r >= m[d].start && e < m[d].end
            then SeenSoFar(m[..d + 1], e, r, m[d].end - e, m[d].start, m[d].end)
            else SeenSoFar(m[..d + 1], e, r, l, u, h)
  {
    hide Merged, Matches, Seen, SeenPlain, Sorted;
    MatchIs(m[d], e, r);
    if r > 0.0 {
      SeeNext(ranges, m, d, e, r, l, u, h);
    } else if r == 0.0 {
      SeeNextPlain(m, d, e, l, u, h);
    }
  }

  lemma Answers(ranges: seq<Range>, m: seq<Range>, d: nat, e: real, r: real, info: Info)
    requires Proper(ranges) && Ready(ranges, r, m)
    requires d <= |m| && SeenSoFar(m[..d], e, r, info.len, info.start, info.end)
    requires forall k :: 0 <= k < d ==> m[k].start <= e + r
    requires if d < |m| then m[d].start > e + r && info.nextStart == Some(m[d].start) else info.nextStart == None
    ensures r > 0.0 ==> IsInfo(ranges, e, r, info)
    ensures r == 0.0 ==> IsPlainInfo(ranges, e, info)
  {
    hide Merged, Matches, Seen, SeenPlain, Sorted, IsInfo, IsPlainInfo;
    if r > 0.0 {
      Answer(ranges, m, d, e, r, info);
    } else if r == 0.0 {
      AnswerPlain(ranges, m, d, e, info);
    }
  }

  lemma MatchIs(c: Range, e: real, r: real)
    ensures Matches(c, e, r) <==> e + r >= c.start && e < c.end
  {
  }

  /** What the scan has seen: the one range that matches, or none. */
  ghost predicate Seen(m: seq<Range>, e: real, r: real, l: real, u: real, h: real) {
    && (forall c :: c in m && Matches(c, e, r) ==> u == c.start && h == c.end && l == h - e)
    && ((forall c :: c in m ==> !Matches(c, e, r)) ==> u == e && h == e && l == 0.0)
  }

  lemma NothingSeen(e: real, r: real)
    ensures Seen([], e, r, 0.0, e, e)
  {
  }

  /** At most one merged range matches, so a match replaces nothing. */
  lemma SeeNext(ranges: seq<Range>, m: seq<Range>, d: nat, e: real, r: real, l: real, u: real, h: real)
    requires r > 0.0 && Merged(ranges, r, m) && d < |m| && Seen(m[..d], e, r, l, u, h)
    ensures Matches(m[d], e, r) <==> e + r >= m[d].start && e < m[d].end
    ensures if Matches(m[d], e, r) then Seen(m[..d + 1], e, r, m[d].end - e, m[d].start, m[d].end)
            else Seen(m[..d + 1], e, r, l, u, h)
  {
    hide Tight;
    var a, b := m[..d], m[..d + 1];
    assert b == a + [m[d]];
    forall c | c in a && Matches(c, e, r) ensures !Matches(m[d], e, r) {
      var j :| 0 <= j < d && m[j] == c;
      assert m[d].start - m[j].end >= r;
    }
  }

  lemma Answer(ranges: seq<Range>, m: seq<Range>, d: nat, e: real, r: real, info: Info)
    requires r > 0.0 && Proper(ranges) && Merged(ranges, r, m) && d <= |m| &&
      Seen(m[..d], e, r, info.len, info.start, info.end)
    requires forall k :: 0 <= k < d ==> m[k].start <= e + r
    requires if d < |m| then m[d].start > e + r && info.nextStart == Some(m[d].start) else info.nextStart == None
    ensures IsInfo(ranges, e, r, info)
  {
    hide Tight, Component;
    forall c ensures c in m <==> Component(ranges, r, c) {
      MergedIsComponents(ranges, r, m, c);
    }
    forall k | d <= k < |m| ensures m[k].start > e + r && info.nextStart.value <= m[k].start {
      LastIsFurthest(ranges, r, m);
      InOrder(ranges, r, m, d, k);
    }
    forall c | c in m && Matches(c, e, r) ensures c in m[..d] {
      var k :| 0 <= k < |m| && m[k] == c;
      assert k < d;
    }
    assert forall c :: c in m[..d] ==> c in m;
    if d < |m| {
      assert m[d] in m;
    }
  }

  lemma InOrder(ranges: seq<Range>, r: real, m: seq<Range>, j: nat, k: nat)
    requires r > 0.0 && Merged(ranges, r, m) && j <= k < |m|
    ensures m[j].start <= m[k].start
  {
    hide StartsAt, EndsAt, Bridged, Preceded;
    assert Tight(ranges, r, m[j]);
  }

  // ---------- two ranges ----------

  lemma PairMembers(x: Range, y: Range)
    ensures forall z :: z in [x, y] <==> z == x || z == y
  {
  }

  /** Two ranges are one component exactly when the gap between them is shorter than the tolerance. */
  lemma PairComponents(x: Range, y: Range, r: real)
    requires x.start <= x.end < y.start <= y.end && r > 0.0
    ensures y.start - x.end < r ==>
              forall c :: Component([x, y], r, c) <==> c == Range(x.start, y.end)
    ensures y.start - x.end >= r ==> forall c :: Component([x, y], r, c) <==> c == x || c == y
  {
    hide Component;
    PairMembers(x, y);
    PairEnds(x, y, r);
    forall c ensures Component([x, y], r, c) <==>
      if y.start - x.end < r then c == Range(x.start, y.end) else c == x || c == y {
      PairComponent(x, y, r, c);
    }
  }

  lemma PairEnds(x: Range, y: Range, r: real)
    requires x.start <= x.end < y.start <= y.end && r > 0.0
    ensures forall s :: IsStart([x, y], r, s) <==> s == x.start || (s == y.start && y.start - x.end >= r)
    ensures forall e :: IsEnd([x, y], r, e) <==> e == y.end || (e == x.end && y.start - x.end >= r)
  {
    PairMembers(x, y);
    var l := [x, y];
    assert x in l && y in l;
    forall s ensures IsStart(l, r, s) <==> s == x.start || (s == y.start && y.start - x.end >= r) {
      assert StartsAt(l, s) <==> s == x.start || s == y.start;
      assert Preceded(l, r, s) <==> (x.start < s && s - x.end < r) || (y.start < s && s - y.end < r);
    }
    forall e ensures IsEnd(l, r, e) <==> e == y.end || (e == x.end && y.start - x.end >= r) {
      assert EndsAt(l, e) <==> e == x.end || e == y.end;
      assert Bridged(l, r, e) <==> (x.start - e < r && x.end > e) || (y.start - e < r && y.end > e);
    }
  }

  lemma PairComponent(x: Range, y: Range, r: real, c: Range)
    requires x.start <= x.end < y.start <= y.end && r > 0.0
    requires forall s :: IsStart([x, y], r, s) <==> s == x.start || (s == y.start && y.start - x.end >= r)
    requires forall e :: IsEnd([x, y], r, e) <==> e == y.end || (e == x.end && y.start - x.end >= r)
    ensures Component([x, y], r, c) <==>
      if y.start - x.end < r then c == Range(x.start, y.end) else c == x || c == y
  {
    hide IsStart, IsEnd;
    var l := [x, y];
    assert IsEnd(l, r, y.end) && (y.start - x.end >= r ==> IsEnd(l, r, x.end));
  }

  /** The whole answer for two ranges, at any position and with any tolerance. */
  lemma PairInfo(x: Range, y: Range, pos: real, r: real, info: Info)
    requires x.start <= x.end < y.start <= y.end && r > 0.0 && IsInfo([x, y], pos, r, info)
    ensures y.start - x.end < r ==>
      && (if x.start - r <= pos < y.end then info.start == x.start && info.end == y.end && info.len == y.end - pos
          else info.start == pos && info.end == pos && info.len == 0.0)
      && info.nextStart == if pos < x.start - r then Some(x.start) else None
    ensures y.start - x.end >= r ==>
      && (if x.start - r <= pos < x.end then info.start == x.start && info.end == x.end && info.len == x.end - pos
          else if y.start - r <= pos < y.end then info.start == y.start && info.end == y.end && info.len == y.end - pos
          else info.start == pos && info.end == pos && info.len == 0.0)
      && info.nextStart ==
        if pos < x.start - r then Some(x.start) else if pos < y.start - r then Some(y.start) else None
  {
    hide Component;
    PairComponents(x, y, r);
    var both := Range(x.start, y.end);
    assert y.start - x.end < r ==> Component([x, y], r, both);
    assert y.start - x.end >= r ==> Component([x, y], r, x) && Component([x, y], r, y);
  }
}
