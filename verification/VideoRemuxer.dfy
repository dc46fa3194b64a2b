/** Turning demuxed video frames into a movie fragment: timeline, sample table and media data layout. */
module VideoRemuxer {
  import opened Wrappers
  import opened Mp4Boxes
  import opened Mp4Tree
  import opened Mp4Fragment
  import opened Sequences
  import opened StableSort
  import Timestamps

  /** A demuxed access unit: its times, and the NAL units it is made of. */
  datatype Frame = Frame(key: bool, pts: int, dts: int, units: seq<Bytes>)

  // ---------- the timeline ----------

  predicate Later(f: Frame, g: Frame) { f.dts < g.dts || (f.dts == g.dts && f.pts <= g.pts) }

  function Normalize(l: seq<Frame>, y: int, c: int): (r: seq<Frame>)
    ensures |r| == |l|
  {
    seq(|l|, i requires 0 <= i < |l| =>
      l[i].(pts := Timestamps.Unwrap(l[i].pts - y, c), dts := Timestamps.Unwrap(l[i].dts - y, c)))
  }

  ghost predicate DtsSorted(l: seq<Frame>) { forall i, j :: 0 <= i < j < |l| ==> l[i].dts <= l[j].dts }

  ghost predicate StepsForward(l: seq<Frame>) { forall i :: 0 < i < |l| ==> l[i - 1].dts <= l[i].dts }

  /** The loop that normalizes every frame and notices when decode times go back. */
  method NormalizeFrames(frames: seq<Frame>, y: int, c: int) returns (l: seq<Frame>, back: bool)
    ensures l == Normalize(frames, y, c) && (back <==> !StepsForward(l))
  {
    hide StepsForward, Normalize;
    l, back := frames, false;
    ghost var r := Normalize(frames, y, c);
    StepsNone(r);
    for i := 0 to |l|
      invariant |l| == |frames| && (forall j :: 0 <= j < i ==> l[j] == r[j]) &&
        (forall j :: i <= j < |l| ==> l[j] == frames[j])
      invariant back <==> !StepsForward(r[..i])
    {
      NormalizedAt(frames, y, c, i);
      var pts := Timestamps.NormalizePts(l[i].pts - y, Some(c));
      var dts := Timestamps.NormalizePts(l[i].dts - y, Some(c));
      l := l[i := l[i].(pts := pts, dts := dts)];
      StepsSnoc(r, i);
      if l[i].dts < l[if i > 0 then i - 1 else i].dts {
        back := true;
      }
    }
    assert l == r && r[..|r|] == r;
  }

  lemma NormalizedAt(l: seq<Frame>, y: int, c: int, i: nat)
    requires i < |l|
    ensures Normalize(l, y, c)[i] ==
      l[i].(pts := Timestamps.Unwrap(l[i].pts - y, c), dts := Timestamps.Unwrap(l[i].dts - y, c))
  {
  }

  lemma StepsNone(r: seq<Frame>)
    ensures StepsForward(r[..0])
  {
  }

  lemma StepsSnoc(r: seq<Frame>, i: nat)
    requires i < |r|
    ensures StepsForward(r[..i + 1]) <==> StepsForward(r[..i]) && (i > 0 ==> r[i - 1].dts <= r[i].dts)
  {
    var s, t := r[..i], r[..i + 1];
    if StepsForward(t) {
      forall k | 0 < k < |s| ensures s[k - 1].dts <= s[k].dts {
        assert t[k - 1].dts <= t[k].dts;
      }
      if i > 0 {
        assert t[i - 1].dts <= t[i].dts;
      }
    }
  }

  /** Frames in decode order: sorted only when a decode time went back. */
  function InOrder(l: seq<Frame>, back: bool): seq<Frame> { if back then Sort(Later, l) else l }

  lemma {:induction false} StepsSort(l: seq<Frame>, i: nat, j: nat)
    requires StepsForward(l) && i <= j < |l|
    ensures l[i].dts <= l[j].dts
    decreases j
  {
    if i < j {
      StepsSort(l, i, j - 1);
    }
  }

  lemma InOrderSorted(l: seq<Frame>)
    ensures DtsSorted(InOrder(l, !StepsForward(l))) && multiset(InOrder(l, !StepsForward(l))) == multiset(l)
  {
    var r := InOrder(l, !StepsForward(l));
    if StepsForward(l) {
      forall i, j | 0 <= i < j < |l| ensures l[i].dts <= l[j].dts {
        StepsSort(l, i, j);
      }
    } else {
      SortSorted(Later, l);
      assert forall i, j :: 0 <= i < j < |r| ==> Later(r[i], r[j]);
    }
  }

  /** Closes a hole or overlap with the previous fragment by moving the first frame. */
  function Join(l: seq<Frame>, contiguous: bool, c: int, k: int): (r: seq<Frame>)
    requires l != []
    ensures |r| == |l|
  {
    var b := l[0].dts - c;
    var hole, overlap := b > k, b < -1;
    if contiguous && (hole || overlap) && (!overlap || c > l[0].pts) then l[0 := l[0].(dts := c, pts := l[0].pts - b)]
    else l
  }

  function Max(a: int, b: int): int { if a < b then b else a }

  function Clamp(l: seq<Frame>, n: int): (r: seq<Frame>)
    ensures |r| == |l|
  {
    seq(|l|, i requires 0 <= i < |l| => l[i].(dts := Max(l[i].dts, n)))
  }

  /** The frames as they are written: in decode order, none before the start of the fragment. */
  function Timeline(l: seq<Frame>, contiguous: bool, c: int, k: int): (r: seq<Frame>)
    requires l != []
    ensures |r| == |l|
  {
    var joined := Join(l, contiguous, c, k);
    Clamp(joined, Max(0, joined[0].dts))
  }

  /** A contiguous fragment moves its first frame to the end `c` of the one before it: over a hole longer than a frame,
      or over an overlap of more than a tick in which the frame would also be shown too early. */
  ghost predicate Moves(l: seq<Frame>, contiguous: bool, c: int, k: int)
    requires l != []
  {
    contiguous && if l[0].dts < c - 1 then l[0].pts < c else l[0].dts > c + k
  }

  /** What the timeline `r` of a fragment keeps of its frames `l`, and what it changes. */
  ghost predicate Continues(l: seq<Frame>, r: seq<Frame>, contiguous: bool, c: int, k: int)
    requires l != []
  {
    && |r| == |l|
    && (forall j :: 0 <= j < |l| ==> r[j].key == l[j].key && r[j].units == l[j].units)
    && (forall j :: 0 < j < |l| ==> r[j].pts == l[j].pts)
    && (if Moves(l, contiguous, c, k) then
          && r[0].dts == Max(0, c) && r[0].pts == c + (l[0].pts - l[0].dts)
          && forall j :: 0 < j < |l| ==> r[j].dts == Max(l[j].dts, Max(0, c))
        else r[0].pts == l[0].pts && forall j :: 0 <= j < |l| ==> r[j].dts == Max(0, l[j].dts))
  }

  /** The base time of a fragment is the end of the one before it exactly as far as it moves; a first frame that is
      moved keeps the time from its decoding to its presentation. */
  lemma TimelineContinues(l: seq<Frame>, contiguous: bool, c: int, k: int)
    requires l != [] && DtsSorted(l)
    ensures Continues(l, Timeline(l, contiguous, c, k), contiguous, c, k) && DtsSorted(Timeline(l, contiguous, c, k))
    ensures Timeline(l, contiguous, c, k)[0].dts == Max(0, if Moves(l, contiguous, c, k) then c else l[0].dts)
    ensures Moves(l, contiguous, c, k) && c >= 0 ==>
              var f := Timeline(l, contiguous, c, k)[0]; f.pts - f.dts == l[0].pts - l[0].dts
  {
    var joined, r := Join(l, contiguous, c, k), Timeline(l, contiguous, c, k);
    assert forall j :: 0 < j < |l| ==> joined[j] == l[j];
    assert forall j :: 0 < j < |l| ==> l[0].dts <= l[j].dts;
  }

  // ---------- the media data ----------

  function LengthPrefixed(u: Bytes): (b: Bytes)
    ensures |b| == 4 + |u|
  {
    Be32(|u|) + u
  }

  function UnitsData(units: seq<Bytes>): Bytes {
    if units == [] then [] else LengthPrefixed(units[0]) + UnitsData(units[1..])
  }

  function MediaData(l: seq<Frame>): Bytes {
    if l == [] then [] else UnitsData(l[0].units) + MediaData(l[1..])
  }

  function UnitBytes(units: seq<Bytes>): nat { if units == [] then 0 else |units[0]| + UnitBytes(units[1..]) }

  lemma {:induction false} UnitsSize(units: seq<Bytes>)
    ensures |UnitsData(units)| == UnitBytes(units) + 4 * |units|
  {
    hide LengthPrefixed;
    if units == [] {
    } else {
      UnitsSize(units[1..]);
    }
  }

  lemma {:induction false} UnitsSnoc(units: seq<Bytes>, u: Bytes)
    ensures UnitsData(units + [u]) == UnitsData(units) + LengthPrefixed(u)
    ensures UnitBytes(units + [u]) == UnitBytes(units) + |u|
  {
    hide LengthPrefixed;
    if units == [] {
    } else {
      assert (units + [u])[1..] == units[1..] + [u];
      UnitsSnoc(units[1..], u);
    }
  }

  lemma {:induction false} MediaSnoc(l: seq<Frame>, f: Frame)
    ensures MediaData(l + [f]) == MediaData(l) + UnitsData(f.units)
  {
    hide UnitsData;
    if l == [] {
    } else {
      assert (l + [f])[1..] == l[1..] + [f];
      MediaSnoc(l[1..], f);
    }
  }

  /** Sums the bytes of one frame's units. */
  method FrameLength(units: seq<Bytes>) returns (n: nat)
    ensures n == UnitBytes(units)
  {
    n := 0;
    for u := 0 to |units|
      invariant n == UnitBytes(units[..u])
    {
      UnitsSnoc(units[..u], units[u]);
      assert units[..u] + [units[u]] == units[..u + 1];
      n := n + |units[u]|;
    }
    assert units[..|units|] == units;
  }

  /** The presentation times of the frames lie from `least` to `greatest`, and reach both. */
  ghost predicate PtsSpan(l: seq<Frame>, least: int, greatest: int) {
    && (forall j :: 0 <= j < |l| ==> least <= l[j].pts <= greatest)
    && (exists j :: 0 <= j < |l| && l[j].pts == least) && (exists j :: 0 <= j < |l| && l[j].pts == greatest)
  }

  lemma SpanSnoc(l: seq<Frame>, f: Frame, least: int, greatest: int)
    requires l != [] ==> PtsSpan(l, least, greatest)
    ensures if l == [] then PtsSpan(l + [f], f.pts, f.pts)
            else PtsSpan(l + [f], if f.pts < least then f.pts else least, if f.pts > greatest then f.pts else greatest)
  {
    var r := l + [f];
    assert r[|l|] == f && forall j :: 0 <= j < |l| ==> r[j] == l[j];
    if l != [] {
      var j :| 0 <= j < |l| && l[j].pts == least;
      var k :| 0 <= k < |l| && l[k].pts == greatest;
      assert r[j].pts == least && r[k].pts == greatest;
    }
  }

  lemma SpanClamp(l: seq<Frame>, n: int, least: int, greatest: int)
    requires PtsSpan(l, least, greatest)
    ensures PtsSpan(Clamp(l, n), least, greatest)
  {
    var r := Clamp(l, n);
    assert forall j :: 0 <= j < |l| ==> r[j].pts == l[j].pts;
  }

  /** Clamps the decode times, sums what the media data box will hold and notes the span of presentation times. */
  method ClampAndCount(frames: seq<Frame>, n: int)
    returns (l: seq<Frame>, bytes: nat, units: nat, least: int, greatest: int)
    ensures l == Clamp(frames, n)
    ensures bytes + 4 * units == |MediaData(frames)|
    ensures frames != [] ==> PtsSpan(frames, least, greatest)
  {
    hide UnitsData, PtsSpan;
    l, bytes, units, least, greatest := frames, 0, 0, 0, 0;
    for x := 0 to |l|
      invariant |l| == |frames| && (forall j :: 0 <= j < x ==> l[j] == frames[j].(dts := Max(frames[j].dts, n)))
      invariant forall j :: x <= j < |l| ==> l[j] == frames[j]
      invariant bytes + 4 * units == |MediaData(frames[..x])|
      invariant x > 0 ==> PtsSpan(frames[..x], least, greatest)
    {
      var length := FrameLength(l[x].units);
      bytes, units := bytes + length, units + |l[x].units|;
      UnitsSize(frames[x].units);
      MediaSnoc(frames[..x], frames[x]);
      SpanSnoc(frames[..x], frames[x], least, greatest);
      assert frames[..x] + [frames[x]] == frames[..x + 1];
      var pts := l[x].pts;
      least := if x == 0 || pts < least then pts else least;
      greatest := if x == 0 || pts > greatest then pts else greatest;
      l := l[x := l[x].(dts := Max(l[x].dts, n))];
    }
    assert frames[..|frames|] == frames;
  }

  /** Copies one frame's units, each behind its length. */
  method CopyUnits(b: array<int>, units: seq<Bytes>, at: nat) returns (f: nat, size: nat)
    requires at + |UnitsData(units)| <= b.Length
    modifies b
    ensures size == |UnitsData(units)| && f == at + size
    ensures b[..f] == old(b[..at]) + UnitsData(units)
  {
    hide Be32, UnitsData;
    f, size := at, 0;
    NoUnits();
    ghost var before := b[..at];
    for j := 0 to |units|
      invariant size == |UnitsData(units[..j])| && f == at + size && f <= b.Length
      invariant b[..f] == before + UnitsData(units[..j])
    {
      var z := units[j];
      UnitsSnoc(units[..j], z);
      assert units[..j] + [z] == units[..j + 1];
      UnitsPrefix(units, j + 1);
      Set(b, Be32(|z|), f);
      f := f + 4;
      Set(b, z, f);
      f := f + |z|;
      size := size + 4 + |z|;
    }
    assert units[..|units|] == units;
  }

  lemma NoUnits()
    ensures UnitsData([]) == []
  {
  }

  lemma {:induction false} UnitsPrefix(units: seq<Bytes>, j: nat)
    requires j <= |units|
    ensures |UnitsData(units[..j])| <= |UnitsData(units)|
    decreases |units| - j
  {
    hide LengthPrefixed;
    if j == |units| {
      assert units[..j] == units;
    } else {
      UnitsSnoc(units[..j], units[j]);
      assert units[..j] + [units[j]] == units[..j + 1];
      UnitsPrefix(units, j + 1);
    }
  }

  lemma {:induction false} MediaPrefix(l: seq<Frame>, j: nat)
    requires j <= |l|
    ensures |MediaData(l[..j])| <= |MediaData(l)|
    decreases |l| - j
  {
    hide UnitsData;
    if j == |l| {
      assert l[..j] == l;
    } else {
      MediaSnoc(l[..j], l[j]);
      assert l[..j] + [l[j]] == l[..j + 1];
      MediaPrefix(l, j + 1);
    }
  }

  // ---------- the sample table ----------

  /** The samples of a timeline: each lasts until the next one's decode time, the last one as long as it is given. */
  function Samples(l: seq<Frame>, last: int): (ss: seq<Sample>)
    ensures |ss| == |l|
  {
    seq(|l|, q requires 0 <= q < |l| =>
      Sample(l[q].key, if q < |l| - 1 then l[q + 1].dts - l[q].dts else last, |UnitsData(l[q].units)|,
             l[q].pts - l[q].dts))
  }

  /** Where the audio ends and how far the video may fall short of it before its last frame is stretched. */
  datatype Stretch = Stretch(audioEnd: int, tolerance: int)

  datatype LastFrame = LastFrame(duration: int, stretched: bool)

  function ChooseLast(l: seq<Frame>, k: int, stretch: Option<Stretch>): LastFrame
    requires l != []
  {
    var x := l[|l| - 1];
    var usual := if |l| > 1 then x.dts - l[|l| - 2].dts else k;
    if stretch.Some? && stretch.value.audioEnd - x.pts > stretch.value.tolerance &&
      stretch.value.audioEnd - x.pts - usual >= 0
    then LastFrame(stretch.value.audioEnd - x.pts - usual, true)
    else LastFrame(usual, false)
  }

  ghost function SumSizes(ss: seq<Sample>): nat {
    if ss == [] then 0 else ss[0].size + SumSizes(ss[1..])
  }

  lemma {:induction false} SumsSnoc(ss: seq<Sample>, s: Sample)
    ensures SumDurations(ss + [s]) == SumDurations(ss) + s.duration
    ensures SumSizes(ss + [s]) == SumSizes(ss) + s.size
  {
    if ss == [] {
    } else {
      assert (ss + [s])[1..] == ss[1..] + [s];
      SumsSnoc(ss[1..], s);
    }
  }

  /** The fragment's base time and durations give back every decode time, composition offsets every presentation time,
      and time never runs back. */
  lemma {:induction false} SampleTimes(l: seq<Frame>, last: int, i: nat)
    requires DtsSorted(l) && i < |l|
    ensures l[0].dts + SumDurations(Samples(l, last)[..i]) == l[i].dts
    ensures l[0].dts + SumDurations(Samples(l, last)[..i]) + Samples(l, last)[i].cts == l[i].pts
    ensures i < |l| - 1 ==> Samples(l, last)[i].duration >= 0
    ensures Samples(l, last)[i].key == l[i].key
    decreases i
  {
    hide UnitsData;
    var ss := Samples(l, last);
    if i == 0 {
    } else {
      SampleTimes(l, last, i - 1);
      SumsSnoc(ss[..i - 1], ss[i - 1]);
      assert ss[..i - 1] + [ss[i - 1]] == ss[..i];
    }
  }

  lemma {:induction false} SizesBefore(l: seq<Frame>, last: int, i: nat)
    requires i <= |l|
    ensures SumSizes(Samples(l, last)[..i]) == |MediaData(l[..i])|
    decreases i
  {
    hide UnitsData;
    var ss := Samples(l, last);
    if i == 0 {
    } else {
      SizesBefore(l, last, i - 1);
      SumsSnoc(ss[..i - 1], ss[i - 1]);
      assert ss[..i - 1] + [ss[i - 1]] == ss[..i];
      MediaSnoc(l[..i - 1], l[i - 1]);
      assert l[..i - 1] + [l[i - 1]] == l[..i];
    }
  }

  lemma {:induction false} MediaAppend(a: seq<Frame>, b: seq<Frame>)
    ensures MediaData(a + b) == MediaData(a) + MediaData(b)
  {
    hide UnitsData;
    if a == [] {
      assert a + b == b;
    } else {
      assert (a + b)[1..] == a[1..] + b;
      MediaAppend(a[1..], b);
    }
  }

  /** In the written fragment, sample i's length-prefixed units start at the data offset plus the sizes before it, and
      that offset is what the track run's 32-bit field reads when it fits one. */
  lemma DataPlaced(sequenceNumber: nat, base: nat, id: nat, l: seq<Frame>, last: int, i: nat)
    requires i < |l|
    ensures var track := Track(id, true, Samples(l, last));
            var file := Write(Moof(sequenceNumber, base, track)) + BoxBytes(MDAT, MediaData(l));
            var at := DataOffset(track, SummedPart(track)) + SumSizes(track.samples[..i]);
            && at + track.samples[i].size <= |file|
            && file[at..at + track.samples[i].size] == UnitsData(l[i].units)
            && (DataOffset(track, SummedPart(track)) < TWO32 ==>
                  ReadU32(TrunPayload(track, SummedPart(track)), 8) == DataOffset(track, SummedPart(track)))
  {
    hide Write, Moof, UnitsData, MediaData, SummedPart, DataOffset, Be32, SumSizes, ReadU32, TrunPayload;
    var track := Track(id, true, Samples(l, last));
    OffsetStored(track, SummedPart(track));
    DataOffsetIs(sequenceNumber, base, track);
    SizesBefore(l, last, i);
    MediaAround(l, i);
    var moof, head := Write(Moof(sequenceNumber, base, track)), Be32(8 + |MediaData(l)|) + MDAT;
    Middle(moof + head, MediaData(l[..i]), UnitsData(l[i].units), MediaData(l[i + 1..]));
    assert moof + BoxBytes(MDAT, MediaData(l)) == moof + head + MediaData(l);
  }

  /** The size field of the media data box is 8 plus the sum of the sample sizes. */
  lemma MediaSize(l: seq<Frame>, last: int)
    requires 8 + |MediaData(l)| < TWO32
    ensures ReadU32(BoxBytes(MDAT, MediaData(l)), 0) == 8 + SumSizes(Samples(l, last))
  {
    hide UnitsData, MediaData, Be32, ReadU32, SumSizes, Samples;
    SizesBefore(l, last, |l|);
    assert l[..|l|] == l && Samples(l, last)[..|l|] == Samples(l, last);
    var v := 8 + |MediaData(l)|;
    ReadBack([], v, MDAT + MediaData(l));
    assert [] + Be32(v) + (MDAT + MediaData(l)) == BoxBytes(MDAT, MediaData(l));
  }

  lemma MediaAround(l: seq<Frame>, i: nat)
    requires i < |l|
    ensures MediaData(l) == MediaData(l[..i]) + UnitsData(l[i].units) + MediaData(l[i + 1..])
  {
    hide UnitsData, MediaData;
    Around(l, i);
    MediaAppend(l[..i], [l[i]] + l[i + 1..]);
    MediaAppend([l[i]], l[i + 1..]);
    OneFrame(l[i]);
    Regroup(MediaData(l[..i]), UnitsData(l[i].units), MediaData(l[i + 1..]));
  }

  lemma Around<T>(l: seq<T>, i: nat)
    requires i < |l|
    ensures l == l[..i] + ([l[i]] + l[i + 1..])
  {
  }

  lemma Middle<T>(a: seq<T>, b: seq<T>, c: seq<T>, d: seq<T>)
    ensures (a + (b + c + d))[|a| + |b|..|a| + |b| + |c|] == c
  {
  }

  lemma OneFrame(f: Frame)
    ensures MediaData([f]) == UnitsData(f.units)
  {
    hide UnitsData;
    assert MediaData([f][1..]) == [];
  }

  // ---------- the remuxer ----------

  function Reference(previous: Option<int>, contiguous: bool, offset: int, first: Frame): int {
    if contiguous && previous.Some? then previous.value
    else offset - (first.pts - Timestamps.Unwrap(first.dts, first.pts))
  }

  /** `Math.round` of a non-negative quotient. */
  function Round(a: nat, d: nat): nat
    requires d > 0
  {
    (2 * a + d) / (2 * d)
  }

  function AverageDuration(l: seq<Frame>, previous: int, usual: int): int
    requires l != [] && DtsSorted(l)
  {
    var a := l[|l| - 1].dts - l[0].dts;
    if a != 0 then Round(a, |l| - 1) else if previous != 0 then previous else usual
  }

  /** The mean distance of decode times, rounded: that many frames make up the span to within half a tick each. Without
      a span it is the duration before, and without one the usual duration. */
  lemma AverageIs(l: seq<Frame>, previous: int, usual: int)
    requires l != [] && DtsSorted(l)
    ensures var k, n, span := AverageDuration(l, previous, usual), |l| - 1, l[|l| - 1].dts - l[0].dts;
      if span != 0 then k >= 0 && -n < 2 * (k * n - span) <= n else k == if previous != 0 then previous else usual
  {
    if l[0].dts != l[|l| - 1].dts {
      RoundIs(l[|l| - 1].dts - l[0].dts, |l| - 1);
    }
  }

  lemma RoundIs(a: nat, d: nat)
    requires d > 0
    ensures 2 * (a - Round(a, d) * d) < d && 2 * (Round(a, d) * d - a) <= d
  {
    var q, r := (2 * a + d) / (2 * d), (2 * a + d) % (2 * d);
    assert 2 * a + d == 2 * d * q + r;
  }

  /** A last frame is stretched exactly when the audio goes on for more than the tolerance and for a usual duration
      after it is shown; it then ends one usual duration before the audio does. */
  lemma LastFrameIs(l: seq<Frame>, k: int, stretch: Option<Stretch>)
    requires l != []
    ensures var x, last := l[|l| - 1], ChooseLast(l, k, stretch);
      var usual := if |l| > 1 then x.dts - l[|l| - 2].dts else k;
      && (last.stretched <==> stretch.Some? && stretch.value.audioEnd > x.pts + stretch.value.tolerance &&
                              stretch.value.audioEnd >= x.pts + usual)
      && if last.stretched then x.pts + last.duration + usual == stretch.value.audioEnd else last.duration == usual
  {
  }

  /** Without a fragment before it, a stream's reference lies as far from its offset as the first frame's decode time,
      taken to the nearest turn, lies from its presentation time. */
  lemma ReferenceIs(previous: Option<int>, contiguous: bool, offset: int, first: Frame)
    requires !contiguous || previous.None?
    ensures var cts := offset - Reference(previous, contiguous, offset, first);
      cts % Timestamps.TURN == (first.pts - first.dts) % Timestamps.TURN &&
      -Timestamps.HALF_TURN <= cts <= Timestamps.HALF_TURN
  {
    hide Timestamps.Unwrap;
    Timestamps.UnwrapIs(first.dts, first.pts);
    var u := Timestamps.Unwrap(first.dts, first.pts);
    SameResidue(u, first.dts, first.pts);
  }

  lemma SameResidue(u: int, t: int, p: int)
    requires u % Timestamps.TURN == t % Timestamps.TURN
    ensures (p - u) % Timestamps.TURN == (p - t) % Timestamps.TURN
  {
    var q := u / Timestamps.TURN - t / Timestamps.TURN;
    assert p - t == p - u + q * Timestamps.TURN;
  }

  /** The turn of a time nearest to a reference. */
  ghost predicate Nearest(time: int, original: int, c: int) {
    time % Timestamps.TURN == original % Timestamps.TURN && Timestamps.Distance(time, c) <= Timestamps.HALF_TURN
  }

  /** Every time of the frames, less the initial one, is taken to its turn nearest to the reference; the frames are kept
      in the order in which they came, or sorted by decode time and then by presentation time when that went back. */
  lemma FramesOrdered(frames: seq<Frame>, y: int, c: int)
    ensures var normal, l := Normalize(frames, y, c), FramesInOrder(frames, y, c);
      && (forall i :: 0 <= i < |frames| ==>
            && Nearest(normal[i].pts, frames[i].pts - y, c) && Nearest(normal[i].dts, frames[i].dts - y, c)
            && normal[i].key == frames[i].key && normal[i].units == frames[i].units)
      && multiset(l) == multiset(normal) && DtsSorted(l)
      && if StepsForward(normal) then l == normal else forall i, j :: 0 <= i < j < |l| ==> Later(l[i], l[j])
  {
    hide Timestamps.Unwrap;
    var normal := Normalize(frames, y, c);
    forall i | 0 <= i < |frames|
      ensures Nearest(normal[i].pts, frames[i].pts - y, c) && Nearest(normal[i].dts, frames[i].dts - y, c) {
      Timestamps.UnwrapIs(frames[i].pts - y, c);
      Timestamps.UnwrapIs(frames[i].dts - y, c);
    }
    InOrderSorted(normal);
    SortSorted(Later, normal);
  }

  ghost function FramesInOrder(frames: seq<Frame>, y: int, c: int): (l: seq<Frame>)
    ensures |l| == |frames| && DtsSorted(l)
  {
    var normal := Normalize(frames, y, c);
    InOrderSorted(normal);
    InOrder(normal, !StepsForward(normal))
  }

  /** What one call makes of its frames: the timeline, and the duration of its last frame. */
  datatype Plan = Plan(timeline: seq<Frame>, last: LastFrame, average: int)

  ghost function MakePlan(frames: seq<Frame>, y: int, c: int, contiguous: bool, previous: int, usual: int,
    stretch: Option<Stretch>): (p: Plan)
    requires frames != []
    ensures |p.timeline| == |frames| && DtsSorted(p.timeline) && p.timeline[0].dts >= 0
    ensures Continues(FramesInOrder(frames, y, c), p.timeline, contiguous, c, p.average)
  {
    var l := FramesInOrder(frames, y, c);
    var k := AverageDuration(l, previous, usual);
    TimelineContinues(l, contiguous, c, k);
    Plan(Timeline(l, contiguous, c, k), ChooseLast(Timeline(l, contiguous, c, k), k, stretch), k)
  }

  /** What the player is told of a fragment, in ticks. */
  datatype Report = Report(startPts: int, endPts: int, startDts: int, endDts: int, count: nat)

  class Remuxer {
    var nextAvcDts: Option<int>
    var videoSampleDuration: int
    var sequenceNumber: nat
    var isVideoContiguous: bool

    method RemuxVideo(id: nat, frames: seq<Frame>, y: int, offset: int, contiguous: bool, usual: int,
                      stretch: Option<Stretch>)
      returns (moof: Box, data: array<int>, report: Report, ghost plan: Plan)
      requires frames != []
      modifies this
      ensures var c := Reference(old(nextAvcDts), contiguous, offset, frames[0]);
              plan == MakePlan(frames, y, c, contiguous, old(videoSampleDuration), usual, stretch)
      ensures Continues(FramesInOrder(frames, y, Reference(old(nextAvcDts), contiguous, offset, frames[0])),
                        plan.timeline, contiguous, Reference(old(nextAvcDts), contiguous, offset, frames[0]),
                        plan.average)
      ensures moof == Moof(old(sequenceNumber), plan.timeline[0].dts,
                           Track(id, true, Samples(plan.timeline, plan.last.duration)))
      ensures fresh(data) && data[..] == BoxBytes(MDAT, MediaData(plan.timeline))
      ensures sequenceNumber == old(sequenceNumber) + 1 && isVideoContiguous
      ensures videoSampleDuration ==
                if plan.last.stretched || plan.last.duration == 0 then plan.average else plan.last.duration
      ensures nextAvcDts == Some(plan.timeline[|frames| - 1].dts + videoSampleDuration)
      ensures PtsSpan(plan.timeline, report.startPts, report.endPts - videoSampleDuration)
      ensures report.startDts == plan.timeline[0].dts && nextAvcDts == Some(report.endDts) && report.count == |frames|
    {
      hide Timestamps.Unwrap, BoxBytes, MediaData, Moof, Samples, ChooseLast, Timeline, AverageDuration, FramesInOrder,
        PtsSpan;
      var c := if contiguous && nextAvcDts.Some? then nextAvcDts.value
               else offset - (frames[0].pts - Timestamps.Unwrap(frames[0].dts, frames[0].pts));
      plan := MakePlan(frames, y, c, contiguous, videoSampleDuration, usual, stretch);
      var l, k, size, least, greatest := BuildTimeline(frames, y, c, contiguous, videoSampleDuration, usual);
      var samples, last;
      data, samples, last := WriteSamples(l, size, k, stretch);
      var g := if last.stretched || last.duration == 0 then k else last.duration;
      c := l[|l| - 1].dts + g;
      nextAvcDts, videoSampleDuration, isVideoContiguous := Some(c), g, true;
      moof := Moof(sequenceNumber, l[0].dts, Track(id, true, samples));
      sequenceNumber := sequenceNumber + 1;
      report := Report(least, greatest + g, l[0].dts, c, |samples|);
    }
  }

  /** Two calls in a row, the second contiguous: its base time is where the first fragment ends exactly as far as its
      first frame moves, and its own otherwise. Unless the first one's last frame is stretched or has no duration, that
      end is what its base time and written durations add up to. */
  method RemuxTwo(remuxer: Remuxer, id: nat, first: seq<Frame>, second: seq<Frame>, y: int, offset: int,
                  contiguous: bool, usual: int, stretch: Option<Stretch>)
    returns (one: Box, two: Box, ghost end: int, ghost p: Plan, ghost q: Plan)
    requires first != [] && second != []
    modifies remuxer
    ensures |p.timeline| == |first| && |q.timeline| == |second| && p.timeline[0].dts >= 0 && q.timeline[0].dts >= 0
    ensures one == Moof(old(remuxer.sequenceNumber), p.timeline[0].dts,
                        Track(id, true, Samples(p.timeline, p.last.duration)))
    ensures two == Moof(old(remuxer.sequenceNumber) + 1, q.timeline[0].dts,
                        Track(id, true, Samples(q.timeline, q.last.duration)))
    ensures var l := FramesInOrder(second, y, end);
      && Continues(l, q.timeline, true, end, q.average)
      && q.timeline[0].dts == Max(0, if Moves(l, true, end, q.average) then end else l[0].dts)
    ensures !p.last.stretched && p.last.duration != 0 ==>
      end == p.timeline[0].dts + SumDurations(Samples(p.timeline, p.last.duration))
    ensures old(remuxer.videoSampleDuration) >= 0 && usual >= 0 ==> end >= 0
  {
    hide Moof, Samples, FramesInOrder, AverageDuration, ChooseLast, Continues, Moves, MakePlan;
    var data, report;
    ghost var previous, c := remuxer.videoSampleDuration, Reference(remuxer.nextAvcDts, contiguous, offset, first[0]);
    one, data, report, p := remuxer.RemuxVideo(id, first, y, offset, contiguous, usual, stretch);
    PlanEnds(first, y, c, contiguous, previous, usual, stretch);
    end := remuxer.nextAvcDts.value;
    PlanStarts(second, y, end, true, remuxer.videoSampleDuration, usual, stretch);
    two, data, report, q := remuxer.RemuxVideo(id, second, y, offset, true, usual, stretch);
  }

  lemma PlanStarts(frames: seq<Frame>, y: int, c: int, contiguous: bool, previous: int, usual: int,
                   stretch: Option<Stretch>)
    requires frames != []
    ensures var l, plan := FramesInOrder(frames, y, c), MakePlan(frames, y, c, contiguous, previous, usual, stretch);
      plan.timeline[0].dts == Max(0, if Moves(l, contiguous, c, plan.average) then c else l[0].dts)
  {
    hide FramesInOrder, Timeline, AverageDuration, ChooseLast, Continues, Moves;
    var l := FramesInOrder(frames, y, c);
    TimelineContinues(l, contiguous, c, AverageDuration(l, previous, usual));
  }

  /** Where a fragment ends. */
  lemma PlanEnds(frames: seq<Frame>, y: int, c: int, contiguous: bool, previous: int, usual: int,
                 stretch: Option<Stretch>)
    requires frames != []
    ensures var plan := MakePlan(frames, y, c, contiguous, previous, usual, stretch);
      var l, last := plan.timeline, plan.last;
      && l[|l| - 1].dts + last.duration == l[0].dts + SumDurations(Samples(l, last.duration))
      && (previous >= 0 && usual >= 0 ==> plan.average >= 0 && last.duration >= 0 && l[|l| - 1].dts >= 0)
  {
    hide FramesInOrder, Timeline, Continues, SumDurations, UnitsData;
    var plan := MakePlan(frames, y, c, contiguous, previous, usual, stretch);
    var l, last, n := plan.timeline, plan.last.duration, |plan.timeline| - 1;
    var ss := Samples(l, last);
    SampleTimes(l, last, n);
    SumsSnoc(ss[..n], ss[n]);
    assert ss == ss[..n] + [ss[n]];
    assert l[0].dts <= l[n].dts;
  }

  /** Normalizes, orders, joins and clamps the frames, and sizes their media data box. */
  method BuildTimeline(frames: seq<Frame>, y: int, c: int, contiguous: bool, previous: int, usual: int)
    returns (l: seq<Frame>, k: int, size: nat, least: int, greatest: int)
    requires frames != []
    ensures k == AverageDuration(FramesInOrder(frames, y, c), previous, usual)
    ensures l == Timeline(FramesInOrder(frames, y, c), contiguous, c, k)
    ensures size == 8 + |MediaData(l)| && PtsSpan(l, least, greatest)
  {
    hide Timestamps.Unwrap, MediaData, StepsForward, DtsSorted, Normalize, Round, PtsSpan;
    var normal, back := NormalizeFrames(frames, y, c);
    l := InOrder(normal, back);
    InOrderSorted(normal);
    k := AverageDuration(l, previous, usual);
    var joined := Join(l, contiguous, c, k);
    var n := Max(0, joined[0].dts);
    var bytes, units;
    l, bytes, units, least, greatest := ClampAndCount(joined, n);
    MediaClamp(joined, n);
    SpanClamp(joined, n, least, greatest);
    size := bytes + 4 * units + 8;
  }

  lemma {:induction false} MediaClamp(l: seq<Frame>, n: int)
    ensures MediaData(Clamp(l, n)) == MediaData(l)
  {
    hide UnitsData;
    if l == [] {
    } else {
      assert Clamp(l, n)[1..] == Clamp(l[1..], n);
      MediaClamp(l[1..], n);
    }
  }

  /** Fills the media data box and the sample table in one pass over the frames. */
  method WriteSamples(l: seq<Frame>, size: nat, k: int, stretch: Option<Stretch>)
    returns (data: array<int>, samples: seq<Sample>, last: LastFrame)
    requires l != [] && size == 8 + |MediaData(l)|
    ensures fresh(data) && data[..] == BoxBytes(MDAT, MediaData(l))
    ensures last == ChooseLast(l, k, stretch) && samples == Samples(l, last.duration)
  {
    hide Be32, UnitsData, MediaData, ChooseLast;
    last := ChooseLast(l, k, stretch);
    data := new int[size];
    Set(data, Be32(size), 0);
    Set(data, MDAT, 4);
    samples := [];
    var f := 8;
    NoMedia(l);
    for q := 0 to |l|
      invariant f == 8 + |MediaData(l[..q])| <= size && data[..f] == Be32(size) + MDAT + MediaData(l[..q])
      invariant samples == Samples(l, last.duration)[..q]
    {
      MediaSnoc(l[..q], l[q]);
      assert l[..q] + [l[q]] == l[..q + 1];
      MediaPrefix(l, q + 1);
      var bytes;
      f, bytes := CopyUnits(data, l[q].units, f);
      var g := if q < |l| - 1 then l[q + 1].dts - l[q].dts else last.duration;
      samples := samples + [Sample(l[q].key, g, bytes, l[q].pts - l[q].dts)];
      assert samples == Samples(l, last.duration)[..q + 1];
    }
    assert l[..|l|] == l && data[..f] == data[..];
  }

  lemma NoMedia(l: seq<Frame>)
    ensures MediaData(l[..0]) == []
  {
  }
}
