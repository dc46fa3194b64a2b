/** What the passthrough remuxer reads from a segment of movie fragments: when it starts, and how long it lasts. */
module Mp4Passthrough {
  import opened Wrappers
  import opened Mp4Boxes
  import opened Mp4Tree
  import opened Mp4Fragment
  import opened Mp4TrackRun

  datatype Kind = Audio | Video | OtherKind

  /** The defaults of a track's samples. */
  datatype Defaults = Defaults(duration: int, flags: int)

  /** What the initialisation segment says of a track. */
  datatype Info = Info(timescale: nat, kind: Kind, defaults: Option<Defaults>) {
    function Scale(): (s: nat)
      ensures s > 0
    {
      if timescale == 0 then 90000 else timescale
    }
  }

  type Tracks = map<int, Info>

  /** Reading a field of a box that is not there throws. */
  datatype Outcome<+T> = Threw | Returned(value: T)

  function Seconds(ticks: int, info: Info): real { ticks as real / info.Scale() as real }

  // ---------- the start ----------

  function Earlier(e: Option<real>, l: real): Option<real> { if e.None? || l < e.value then Some(l) else e }

  /** One track fragment header: its track may be known, and the base time good. */
  function HeaderTime(tracks: Tracks, tfdt: Bytes, tfhd: Bytes): Option<real> {
    var id, o := ReadU32(tfhd, 4), DecodeTime(tfdt);
    if id in tracks && o.Some? then Some(Seconds(o.value, tracks[id])) else None
  }

  function HeadersStart(tracks: Tracks, tfdt: Bytes, e: Option<real>, tfhds: seq<Bytes>): Option<real>
    decreases |tfhds|
  {
    if tfhds == [] then e
    else
      var l := HeaderTime(tracks, tfdt, tfhds[0]);
      HeadersStart(tracks, tfdt, if l.Some? then Earlier(e, l.value) else e, tfhds[1..])
  }

  function TrafsStart(tracks: Tracks, e: Option<real>, trafs: seq<Bytes>): Outcome<Option<real>>
    decreases |trafs|
  {
    if trafs == [] then Returned(e)
    else
      var tfdts := FindFrom(trafs[0], [TFDT], 0);
      if tfdts == [] then Threw
      else
        var a := HeadersStart(tracks, tfdts[0], None, FindFrom(trafs[0], [TFHD], 0));
        TrafsStart(tracks, if a.Some? then Earlier(e, a.value) else e, trafs[1..])
  }

  /** When a segment starts, in seconds, if any of its fragments tells. */
  function StartTime(tracks: Tracks, t: Bytes): Outcome<Option<real>> {
    TrafsStart(tracks, None, FindFrom(t, [MOOF, TRAF], 0))
  }

  // ---------- the duration ----------

  /** The duration of samples whose run does not tell any; 0 when there is none. */
  function DefaultDuration(info: Info, tfhd: Bytes): int {
    var e := ReadU32(tfhd, 0);
    var flags := if info.defaults.Some? then info.defaults.value.flags else 0;
    if Bit(e, 8) || Bit(flags, 8) then ReadU32(tfhd, if Bit(e, 2) || Bit(flags, 2) then 12 else 8)
    else if info.defaults.Some? then info.defaults.value.duration
    else 0
  }

  function RunTicks(default: int, trun: Bytes): int {
    var r := RunDuration(trun);
    if r == 0 && default != 0 then default * ReadU32(trun, 4) else r
  }

  /** Seconds of audio and of video. */
  datatype Sums = Sums(audio: real, video: real) {
    function Plus(kind: Kind, x: real): Sums {
      match kind
      case Audio => this.(audio := audio + x)
      case Video => this.(video := video + x)
      case OtherKind => this
    }
  }

  function RunsSums(info: Info, default: int, s: Sums, truns: seq<Bytes>): Sums
    decreases |truns|
  {
    if truns == [] then s
    else RunsSums(info, default, s.Plus(info.kind, Seconds(RunTicks(default, truns[0]), info)), truns[1..])
  }

  function TrafsSums(tracks: Tracks, s: Sums, trafs: seq<Bytes>): Outcome<Sums>
    decreases |trafs|
  {
    if trafs == [] then Returned(s)
    else
      var tfhds := FindFrom(trafs[0], [TFHD], 0);
      if tfhds == [] then Threw
      else
        var id := ReadU32(tfhds[0], 4);
        if id !in tracks then TrafsSums(tracks, s, trafs[1..])
        else
          var info := tracks[id];
          var next := RunsSums(info, DefaultDuration(info, tfhds[0]), s, FindFrom(trafs[0], [TRUN], 0));
          TrafsSums(tracks, next, trafs[1..])
  }

  /** Video counts before audio; segment indexes, which tell `indexed`, only when neither has a duration. */
  function Counted(s: Sums, indexed: real): real {
    if s.audio == 0.0 && s.video == 0.0 then indexed else if s.video != 0.0 then s.video else s.audio
  }

  function Lasting(s: Outcome<Sums>, indexed: real): Outcome<real> {
    match s
    case Threw => Threw
    case Returned(sums) => Returned(Counted(sums, indexed))
  }

  /** How long a segment lasts, with the loops over its track fragments and their runs. */
  method MediaDuration(tracks: Tracks, t: Bytes, indexed: real) returns (d: Outcome<real>)
    ensures d == Lasting(TrafsSums(tracks, Sums(0.0, 0.0), FindFrom(t, [MOOF, TRAF], 0)), indexed)
  {
    hide ReadU32, Bit, RunDuration, Seconds, FindFrom;
    var trafs := FindBox(t, [MOOF, TRAF]);
    var s, sums := 0, Sums(0.0, 0.0);
    while s < |trafs|
      invariant 0 <= s <= |trafs|
      invariant TrafsSums(tracks, Sums(0.0, 0.0), trafs) == TrafsSums(tracks, sums, trafs[s..])
    {
      var tfhds := FindBox(trafs[s], [TFHD]);
      assert trafs[s..][1..] == trafs[s + 1..];
      if tfhds == [] {
        return Threw;
      }
      var id := ReadU32(tfhds[0], 4);
      if id in tracks {
        var info := tracks[id];
        var c := DefaultDuration(info, tfhds[0]);
        var truns := FindBox(trafs[s], [TRUN]);
        ghost var was := sums;
        var v := 0;
        while v < |truns|
          invariant 0 <= v <= |truns|
          invariant RunsSums(info, c, was, truns) == RunsSums(info, c, sums, truns[v..])
        {
          assert truns[v..][1..] == truns[v + 1..];
          var r := SampleDurations(truns[v]);
          if r == 0 && c != 0 {
            r := c * ReadU32(truns[v], 4);
          }
          sums := sums.Plus(info.kind, Seconds(r, info));
          v := v + 1;
        }
      }
      s := s + 1;
    }
    d := Returned(Counted(sums, indexed));
  }

  // ---------- segments the remuxer has written ----------

  /** A fragment as it is written. */
  datatype Written = Written(sequenceNumber: nat, base: nat, track: Track, data: Bytes) {
    function Boxes(): seq<Box> { Fragment(sequenceNumber, base, track, data) }

    ghost predicate Fits() { 100 + 17 * |track.samples| < TWO32 && 8 + |data| < TWO32 && base < TWO32 * TWO32 }

    /** The number its track is read back with. */
    function Id(): int { track.id % TWO32 }

    /** The upper word of the base time is taken for a sign that it is bad. */
    predicate BadBase() { base / TWO32 == TWO32 - 1 }
  }

  function Segment(ws: seq<Written>): seq<Box> {
    if ws == [] then [] else ws[0].Boxes() + Segment(ws[1..])
  }

  ghost predicate AllFit(ws: seq<Written>) { forall i :: 0 <= i < |ws| ==> ws[i].Fits() }

  function TrafOf(w: Written): Bytes { Payload(Traf(w.track, w.base)) }

  function TrafsOf(ws: seq<Written>): seq<Bytes> {
    if ws == [] then [] else [TrafOf(ws[0])] + TrafsOf(ws[1..])
  }

  /** One box and the rest of a forest. */
  lemma AtCons(b: Box, bs: seq<Box>, path: seq<Name>)
    requires path != []
    ensures Searchable([b] + bs, path) <==> Searchable([b], path) && Searchable(bs, path)
    ensures Searchable([b] + bs, path) ==> At([b] + bs, path) == At([b], path) + At(bs, path)
  {
    hide Payload;
    assert ([b] + bs)[1..] == bs && [b][1..] == [];
  }

  lemma {:induction false} AtAppend(a: seq<Box>, b: seq<Box>, path: seq<Name>)
    requires path != [] && Searchable(a, path) && Searchable(b, path)
    ensures Searchable(a + b, path) && At(a + b, path) == At(a, path) + At(b, path)
    decreases |a|
  {
    hide At, Searchable;
    NothingAt(path);
    if a == [] {
      assert a + b == b;
    } else {
      assert a == [a[0]] + a[1..] && a + b == [a[0]] + (a[1..] + b);
      AtCons(a[0], a[1..], path);
      AtAppend(a[1..], b, path);
      AtCons(a[0], a[1..] + b, path);
    }
  }

  lemma {:induction false} SegmentAt(ws: seq<Written>)
    requires AllFit(ws)
    ensures Fits(Segment(ws)) && Searchable(Segment(ws), [MOOF, TRAF]) && At(Segment(ws), [MOOF, TRAF]) == TrafsOf(ws)
  {
    hide Write, Payload, Traf, Moof, Searchable, At;
    if ws == [] {
      NothingAt([MOOF, TRAF]);
    } else {
      var w := ws[0];
      assert w.Fits();
      SegmentAt(ws[1..]);
      FragmentAt(w.sequenceNumber, w.base, w.track, w.data);
      AtAppend(w.Boxes(), Segment(ws[1..]), [MOOF, TRAF]);
      MoofLength(w.sequenceNumber, w.base, w.track);
      LeafLength(MDAT, w.data);
    }
  }

  /** The search finds the track fragments of a written segment, in order. */
  lemma SegmentReadBack(ws: seq<Written>)
    requires AllFit(ws)
    ensures FindFrom(WriteAll(Segment(ws)), [MOOF, TRAF], 0) == TrafsOf(ws)
  {
    hide At, Searchable, Fits, FindFrom;
    SegmentAt(ws);
    FindWritten(Segment(ws), [MOOF, TRAF]);
  }

  // ---------- the start of a written segment ----------

  /** When a written fragment starts, if its track is known and its base time good. */
  function TimeOf(tracks: Tracks, w: Written): Option<real> {
    if w.Id() in tracks && !w.BadBase() then Some(Seconds(w.base, tracks[w.Id()])) else None
  }

  function HeaderOf(w: Written): Bytes { [0, 0, 0, 0] + Be32(w.track.id) }

  lemma HeaderWritten(w: Written)
    ensures ReadU32(HeaderOf(w), 4) == w.Id() && ReadU32(HeaderOf(w), 0) == 0
    ensures ReadU32(HeaderOf(w), 8) == 0 && ReadU32(HeaderOf(w), 12) == 0
  {
    hide Be32, ReadU32;
    var zeros: Bytes := [0, 0, 0, 0];
    assert HeaderOf(w) == zeros + Be32(w.track.id) + [];
    ReadBack(zeros, w.track.id, []);
    ReadZeros(HeaderOf(w));
  }

  lemma ReadZeros(t: Bytes)
    requires |t| == 8 && t[..4] == [0, 0, 0, 0]
    ensures ReadU32(t, 0) == 0 && ReadU32(t, 8) == 0 && ReadU32(t, 12) == 0
  {
    assert t[0] == t[..4][0] && t[1] == t[..4][1] && t[2] == t[..4][2] && t[3] == t[..4][3];
  }

  lemma TrafStartWritten(tracks: Tracks, w: Written)
    requires w.Fits()
    ensures FindFrom(TrafOf(w), [TFDT], 0) == [TfdtPayload(w.base)]
    ensures HeadersStart(tracks, TfdtPayload(w.base), None, FindFrom(TrafOf(w), [TFHD], 0)) == TimeOf(tracks, w)
  {
    hide FindFrom, Payload, Traf, TfdtPayload, DecodeTime, ReadU32, Be32, Seconds;
    FragmentReadBack(w.sequenceNumber, w.base, w.track, w.data);
    DecodeTimeWritten(w.base);
    HeaderWritten(w);
    OneHeader(tracks, TfdtPayload(w.base), HeaderOf(w));
  }

  lemma OneHeader(tracks: Tracks, tfdt: Bytes, tfhd: Bytes)
    ensures HeadersStart(tracks, tfdt, None, [tfhd]) == HeaderTime(tracks, tfdt, tfhd)
  {
    hide HeaderTime;
    assert [tfhd][1..] == [];
  }

  ghost predicate Told(tracks: Tracks, ws: seq<Written>, l: real) {
    exists i :: 0 <= i < |ws| && TimeOf(tracks, ws[i]) == Some(l)
  }

  /** The least of the times the fragments tell and of the one known before, if any. */
  ghost predicate Least(tracks: Tracks, ws: seq<Written>, e: Option<real>, m: Option<real>) {
    && (forall l: real :: Told(tracks, ws, l) || e == Some(l) ==> m.Some? && m.value <= l)
    && (m.Some? ==> Told(tracks, ws, m.value) || e == m)
  }

  lemma ToldCons(tracks: Tracks, ws: seq<Written>, l: real)
    requires ws != []
    ensures Told(tracks, ws, l) <==> TimeOf(tracks, ws[0]) == Some(l) || Told(tracks, ws[1..], l)
  {
    hide TimeOf;
    if TimeOf(tracks, ws[0]) != Some(l) && Told(tracks, ws, l) {
      var i :| 0 <= i < |ws| && TimeOf(tracks, ws[i]) == Some(l);
      assert ws[1..][i - 1] == ws[i];
    }
    if Told(tracks, ws[1..], l) {
      var i :| 0 <= i < |ws[1..]| && TimeOf(tracks, ws[1..][i]) == Some(l);
      assert ws[i + 1] == ws[1..][i];
    }
  }

  lemma LeastCons(tracks: Tracks, ws: seq<Written>, e: Option<real>, m: Option<real>)
    requires ws != []
    requires var l := TimeOf(tracks, ws[0]); Least(tracks, ws[1..], if l.Some? then Earlier(e, l.value) else e, m)
    ensures Least(tracks, ws, e, m)
  {
    hide TimeOf, Told;
    forall l: real ensures Told(tracks, ws, l) <==> TimeOf(tracks, ws[0]) == Some(l) || Told(tracks, ws[1..], l) {
      ToldCons(tracks, ws, l);
    }
    var l := TimeOf(tracks, ws[0]);
    if l.Some? {
      assert Earlier(e, l.value) == l || Earlier(e, l.value) == e;
    }
  }

  lemma {:induction false} TrafsStartWritten(tracks: Tracks, e: Option<real>, ws: seq<Written>)
    requires AllFit(ws)
    ensures var r := TrafsStart(tracks, e, TrafsOf(ws)); r.Returned? && Least(tracks, ws, e, r.value)
    decreases |ws|
  {
    hide FindFrom, TrafOf, TfdtPayload, HeadersStart, Least, TimeOf, Written.Fits;
    if ws == [] {
      LeastNone(tracks, e);
    } else {
      var l := TimeOf(tracks, ws[0]);
      TrafStartWritten(tracks, ws[0]);
      assert TrafsOf(ws)[1..] == TrafsOf(ws[1..]);
      var e' := if l.Some? then Earlier(e, l.value) else e;
      TrafsStartWritten(tracks, e', ws[1..]);
      LeastCons(tracks, ws, e, TrafsStart(tracks, e', TrafsOf(ws[1..])).value);
    }
  }

  lemma LeastNone(tracks: Tracks, e: Option<real>)
    ensures Least(tracks, [], e, e)
  {
  }

  /** A written segment starts at the least base time of the fragments whose track is known and whose base is good. */
  lemma StartWritten(tracks: Tracks, ws: seq<Written>)
    requires AllFit(ws)
    ensures var r := StartTime(tracks, WriteAll(Segment(ws))); r.Returned? && Least(tracks, ws, None, r.value)
  {
    hide FindFrom, TrafsStart, Least;
    SegmentReadBack(ws);
    TrafsStartWritten(tracks, None, ws);
  }

  // ---------- the duration of a written segment ----------

  /** What a track's defaults give a run without durations. */
  function DefaultOf(info: Info): int {
    if info.defaults.None? || Bit(info.defaults.value.flags, 8) then 0 else info.defaults.value.duration
  }

  ghost function TicksOf(info: Info, w: Written): int {
    var r := SumStored(w.track.samples);
    if r == 0 then DefaultOf(info) * |w.track.samples| else r
  }

  /** The seconds of one kind in the fragments. */
  ghost function SecondsOf(tracks: Tracks, kind: Kind, ws: seq<Written>): real {
    if ws == [] then 0.0
    else
      (if ws[0].Id() in tracks && tracks[ws[0].Id()].kind == kind
       then Seconds(TicksOf(tracks[ws[0].Id()], ws[0]), tracks[ws[0].Id()])
       else 0.0)
      + SecondsOf(tracks, kind, ws[1..])
  }

  lemma DefaultWritten(info: Info, w: Written)
    ensures DefaultDuration(info, HeaderOf(w)) == DefaultOf(info)
  {
    hide ReadU32, HeaderOf, Be32;
    HeaderWritten(w);
    assert !Bit(0, 8) && !Bit(0, 2);
  }

  lemma TicksWritten(info: Info, w: Written)
    requires w.Fits()
    ensures RunTicks(DefaultOf(info), TrunPayload(w.track, SummedPart(w.track))) == TicksOf(info, w)
  {
    hide RunDuration, ReadU32, SummedPart, DefaultOf, SumStored;
    RunDurationWritten(w.track, SummedPart(w.track));
    CountStored(w.track, SummedPart(w.track));
  }

  /** The number of samples as it is read back from a written track run. */
  lemma CountStored(track: Track, part: nat)
    requires |track.samples| < TWO32
    ensures ReadU32(TrunPayload(track, part), 4) == |track.samples|
  {
    hide Be32, ReadU32, DataOffset, Entries;
    var head := [if track.video then 1 else 0, 0, 15, 1];
    var after := Be32(DataOffset(track, part)) + Entries(track.samples);
    assert TrunPayload(track, part) == head + Be32(|track.samples|) + after;
    ReadBack(head, |track.samples|, after);
  }

  lemma OneRun(info: Info, default: int, s: Sums, trun: Bytes)
    ensures RunsSums(info, default, s, [trun]) == s.Plus(info.kind, Seconds(RunTicks(default, trun), info))
  {
    hide RunTicks, Seconds;
    assert [trun][1..] == [];
  }

  lemma TrafSumsWritten(info: Info, s: Sums, w: Written)
    requires w.Fits()
    ensures FindFrom(TrafOf(w), [TFHD], 0) == [HeaderOf(w)] && ReadU32(HeaderOf(w), 4) == w.Id()
    ensures RunsSums(info, DefaultDuration(info, HeaderOf(w)), s, FindFrom(TrafOf(w), [TRUN], 0)) ==
      s.Plus(info.kind, Seconds(TicksOf(info, w), info))
  {
    hide FindFrom, Payload, Traf, TrunPayload, SummedPart, RunTicks, TicksOf, RunsSums, DefaultOf, DefaultDuration,
      Seconds, Be32, ReadU32;
    FragmentReadBack(w.sequenceNumber, w.base, w.track, w.data);
    HeaderWritten(w);
    DefaultWritten(info, w);
    TicksWritten(info, w);
    OneRun(info, DefaultOf(info), s, TrunPayload(w.track, SummedPart(w.track)));
  }

  lemma {:induction false} TrafsSumsWritten(tracks: Tracks, s: Sums, ws: seq<Written>)
    requires AllFit(ws)
    ensures TrafsSums(tracks, s, TrafsOf(ws)) ==
      Returned(Sums(s.audio + SecondsOf(tracks, Audio, ws), s.video + SecondsOf(tracks, Video, ws)))
    decreases |ws|
  {
    hide FindFrom, TrafOf, HeaderOf, ReadU32, RunsSums, DefaultDuration, TicksOf, Seconds, Written.Fits, Written.Id;
    if ws == [] {
    } else {
      var w := ws[0];
      assert TrafsOf(ws)[1..] == TrafsOf(ws[1..]);
      if w.Id() in tracks {
        var info := tracks[w.Id()];
        TrafSumsWritten(info, s, w);
        TrafsSumsWritten(tracks, s.Plus(info.kind, Seconds(TicksOf(info, w), info)), ws[1..]);
      } else {
        TrafSumsWritten(Info(0, OtherKind, None), s, w);
        TrafsSumsWritten(tracks, s, ws[1..]);
      }
    }
  }

  /** The seconds read from a written segment are, kind by kind, the stored durations of its known tracks. */
  lemma DurationWritten(tracks: Tracks, ws: seq<Written>)
    requires AllFit(ws)
    ensures TrafsSums(tracks, Sums(0.0, 0.0), FindFrom(WriteAll(Segment(ws)), [MOOF, TRAF], 0)) ==
      Returned(Sums(SecondsOf(tracks, Audio, ws), SecondsOf(tracks, Video, ws)))
  {
    hide FindFrom, TrafsSums, SecondsOf;
    SegmentReadBack(ws);
    TrafsSumsWritten(tracks, Sums(0.0, 0.0), ws);
  }

  const SIDX: Name := [115, 105, 100, 120]

  /** There is no segment index in a written segment. */
  lemma NoIndex(ws: seq<Written>)
    requires AllFit(ws)
    ensures FindFrom(WriteAll(Segment(ws)), [SIDX], 0) == []
  {
    hide FindFrom, WriteAll, Fits, Searchable, At, Segment;
    SegmentAt(ws);
    SegmentNames(ws);
    NoMatch(Segment(ws), [SIDX]);
    FindWritten(Segment(ws), [SIDX]);
  }

  lemma {:induction false} SegmentNames(ws: seq<Written>)
    ensures forall i :: 0 <= i < |Segment(ws)| ==> Segment(ws)[i].name != SIDX
  {
    hide Traf;
    if ws == [] {
    } else {
      SegmentNames(ws[1..]);
    }
  }

  // ---------- fragments that follow each other ----------

  ghost function EndOf(w: Written): int { w.base + SumDurations(w.track.samples) }

  /** Fragments of one known track, each beginning where the one before it ends. */
  ghost predicate Follow(tracks: Tracks, id: int, ws: seq<Written>) {
    && id in tracks && tracks[id].kind != OtherKind
    && (forall i :: 0 <= i < |ws| ==>
          ws[i].Fits() && ws[i].Id() == id && !ws[i].BadBase() && WordDurations(ws[i].track.samples)
          && SumDurations(ws[i].track.samples) > 0)
    && (forall i :: 0 < i < |ws| ==> ws[i].base == EndOf(ws[i - 1]))
  }

  lemma {:induction false} BasesGrow(tracks: Tracks, id: int, ws: seq<Written>, i: nat)
    requires Follow(tracks, id, ws) && i < |ws|
    ensures ws[0].base <= ws[i].base
  {
    hide SumDurations, WordDurations;
    if i == 0 {
    } else {
      BasesGrow(tracks, id, ws, i - 1);
    }
  }

  lemma SecondsAdd(a: int, b: int, info: Info)
    ensures Seconds(a, info) + Seconds(b, info) == Seconds(a + b, info)
    ensures a <= b ==> Seconds(a, info) <= Seconds(b, info)
    ensures a > 0 ==> Seconds(a, info) > 0.0
  {
  }

  lemma {:induction false} FollowSeconds(tracks: Tracks, id: int, ws: seq<Written>, kind: Kind)
    requires Follow(tracks, id, ws) && ws != []
    ensures SecondsOf(tracks, kind, ws) ==
      if kind == tracks[id].kind then Seconds(EndOf(ws[|ws| - 1]) - ws[0].base, tracks[id]) else 0.0
    decreases |ws|
  {
    hide Seconds, SumDurations, WordDurations, SumStored, DefaultOf, Written.Fits, Written.Id, Written.BadBase;
    var w := ws[0];
    StoredExactly(w.track.samples);
    assert TicksOf(tracks[id], w) == SumDurations(w.track.samples);
    if |ws| == 1 {
      assert SecondsOf(tracks, kind, ws[1..]) == 0.0;
    } else {
      assert Follow(tracks, id, ws[1..]);
      FollowSeconds(tracks, id, ws[1..], kind);
      SecondsAdd(SumDurations(w.track.samples), EndOf(ws[|ws| - 1]) - ws[1].base, tracks[id]);
    }
  }

  /** Such a segment starts at the base time of its first fragment and lasts to the end of its last one. */
  lemma SegmentSpan(tracks: Tracks, id: int, ws: seq<Written>)
    requires ws != [] && Follow(tracks, id, ws)
    ensures StartTime(tracks, WriteAll(Segment(ws))) == Returned(Some(Seconds(ws[0].base, tracks[id])))
    ensures Lasting(TrafsSums(tracks, Sums(0.0, 0.0), FindFrom(WriteAll(Segment(ws)), [MOOF, TRAF], 0)), 0.0) ==
      Returned(Seconds(EndOf(ws[|ws| - 1]) - ws[0].base, tracks[id]))
  {
    hide FindFrom, TrafsSums, SecondsOf, StartTime, Seconds, WriteAll, Segment, Least, Follow;
    FollowFits(tracks, id, ws);
    StartWritten(tracks, ws);
    LeastIsFirst(tracks, id, ws, StartTime(tracks, WriteAll(Segment(ws))).value);
    DurationWritten(tracks, ws);
    FollowSeconds(tracks, id, ws, Audio);
    FollowSeconds(tracks, id, ws, Video);
    Positive(tracks, id, ws);
  }

  lemma FollowFits(tracks: Tracks, id: int, ws: seq<Written>)
    requires Follow(tracks, id, ws)
    ensures AllFit(ws) && id in tracks && tracks[id].kind != OtherKind
  {
  }

  lemma Positive(tracks: Tracks, id: int, ws: seq<Written>)
    requires Follow(tracks, id, ws) && ws != []
    ensures Seconds(EndOf(ws[|ws| - 1]) - ws[0].base, tracks[id]) > 0.0
  {
    hide SumDurations, Seconds;
    BasesGrow(tracks, id, ws, |ws| - 1);
    SecondsAdd(EndOf(ws[|ws| - 1]) - ws[0].base, 0, tracks[id]);
  }

  lemma LeastIsFirst(tracks: Tracks, id: int, ws: seq<Written>, m: Option<real>)
    requires Follow(tracks, id, ws) && ws != [] && Least(tracks, ws, None, m)
    ensures m == Some(Seconds(ws[0].base, tracks[id]))
  {
    hide SumDurations, Seconds, WordDurations;
    assert TimeOf(tracks, ws[0]) == Some(Seconds(ws[0].base, tracks[id]));
    assert Told(tracks, ws, Seconds(ws[0].base, tracks[id]));
    var i :| 0 <= i < |ws| && TimeOf(tracks, ws[i]) == m;
    BasesGrow(tracks, id, ws, i);
    SecondsAdd(ws[0].base, ws[i].base, tracks[id]);
  }

  // ---------- track fragment headers with their optional fields ----------

  /** The fields of a track fragment header that come before the default size, which `rest` begins with; `more` are the
      flags from bit 4 on (section 8.8.7 of ISO/IEC 14496-12). */
  datatype Header = Header(more: nat, id: int, offset: Option<(int, int)>, description: Option<int>,
    duration: Option<int>, rest: Bytes)
  {
    function Flags(): nat {
      more * 16 + (if duration.Some? then 8 else 0) + (if description.Some? then 2 else 0) +
        (if offset.Some? then 1 else 0)
    }

    function Bytes(): seq<int> {
      Be32(Flags()) + Be32(id) + (if offset.Some? then Be32(offset.value.0) + Be32(offset.value.1) else []) +
        (if description.Some? then Be32(description.value) else []) +
        (if duration.Some? then Be32(duration.value) else []) + rest
    }

    ghost predicate Valid() { more < 0x1000_0000 }
  }

  /** The track's default sample flags have this bit, which the reader takes for one of the header's. */
  predicate DefaultBit(info: Info, weight: int)
    requires weight > 0
  {
    info.defaults.Some? && Bit(info.defaults.value.flags, weight)
  }

  lemma HeaderFlags(h: Header)
    ensures Bit(h.Flags(), 8) == h.duration.Some? && Bit(h.Flags(), 2) == h.description.Some?
  {
    hide Bit;
    var d, k: nat := if h.duration.Some? then 1 else 0, if h.description.Some? then 1 else 0;
    var o: nat := if h.offset.Some? then 1 else 0;
    BitIs(h.Flags(), 8, h.more, d, k * 2 + o);
    BitIs(h.Flags(), 2, h.more * 4 + d * 2, k, o);
  }

  lemma NoBits()
    ensures !Bit(0, 8) && !Bit(0, 2)
  {
  }

  lemma HeaderWords(h: Header)
    requires h.Valid()
    ensures var t := h.Bytes();
      && ReadU32(t, 0) == h.Flags()
      && (h.offset.Some? ==> ReadU32(t, 8) == h.offset.value.0 % TWO32 && ReadU32(t, 12) == h.offset.value.1 % TWO32)
      && (h.offset.None? && h.duration.Some? ==>
            ReadU32(t, if h.description.Some? then 12 else 8) == h.duration.value % TWO32)
      && (h.offset.None? && h.description.None? && h.duration.Some? ==> ReadU32(t, 12) == ReadU32(h.rest, 0))
  {
    hide Be32, ReadU32, Header.Flags;
    HeaderFits(h);
    var t, f, i := h.Bytes(), Be32(h.Flags()), Be32(h.id);
    assert t == [] + f + t[4..];
    ReadBack([], h.Flags(), t[4..]);
    if h.offset.Some? {
      OffsetWords(h);
    } else if h.duration.Some? {
      DurationWords(h);
    }
  }

  lemma OffsetWords(h: Header)
    requires h.offset.Some?
    ensures ReadU32(h.Bytes(), 8) == h.offset.value.0 % TWO32 && ReadU32(h.Bytes(), 12) == h.offset.value.1 % TWO32
  {
    hide Be32, ReadU32, Header.Flags;
    var t, f, i := h.Bytes(), Be32(h.Flags()), Be32(h.id);
    var a, b := Be32(h.offset.value.0), Be32(h.offset.value.1);
    assert t == (f + i) + a + t[12..];
    ReadBack(f + i, h.offset.value.0, t[12..]);
    assert t == (f + i + a) + b + t[16..];
    ReadBack(f + i + a, h.offset.value.1, t[16..]);
  }

  lemma DurationWords(h: Header)
    requires h.offset.None? && h.duration.Some?
    ensures ReadU32(h.Bytes(), if h.description.Some? then 12 else 8) == h.duration.value % TWO32
    ensures h.description.None? ==> ReadU32(h.Bytes(), 12) == ReadU32(h.rest, 0)
  {
    hide Be32, ReadU32, Header.Flags;
    var f, i, d := Be32(h.Flags()), Be32(h.id), Be32(h.duration.value);
    var k := if h.description.Some? then Be32(h.description.value) else [];
    assert h.Bytes() == (f + i + k) + d + h.rest;
    ReadBack(f + i + k, h.duration.value, h.rest);
    Behind(f + i + k + d, h.rest);
  }

  lemma HeaderFits(h: Header)
    requires h.Valid()
    ensures 0 <= h.Flags() < TWO32
  {
  }

  lemma Behind(before: Bytes, rest: Bytes)
    ensures ReadU32(before + rest, |before|) == ReadU32(rest, 0)
  {
  }

  /** Without a default duration of its own a header leaves the track's default. */
  lemma TrackDefault(info: Info, h: Header)
    requires h.Valid() && h.duration.None? && !DefaultBit(info, 8)
    ensures DefaultDuration(info, h.Bytes()) == if info.defaults.Some? then info.defaults.value.duration else 0
  {
    hide ReadU32, Bit, Header.Bytes, Header.Flags;
    NoBits();
    HeaderFlags(h);
    HeaderWords(h);
  }

  /** The word that is read for a header's default duration. */
  lemma DefaultRead(info: Info, h: Header)
    requires h.Valid() && h.duration.Some?
    ensures var far := h.description.Some? || DefaultBit(info, 2);
      DefaultDuration(info, h.Bytes()) ==
        if h.offset.Some? then (if far then h.offset.value.1 else h.offset.value.0) % TWO32
        else if far && h.description.None? then ReadU32(h.rest, 0)
        else h.duration.value % TWO32
  {
    hide ReadU32, Bit, Header.Bytes, Header.Flags;
    NoBits();
    HeaderFlags(h);
    HeaderWords(h);
  }

  /** A header's default duration is read, whatever it is, if and only if there is no base data offset in front of it,
      which the reader does not step over, and a sample description is there when the track's default sample flags make
      the reader step over one. */
  lemma DefaultReadIff(info: Info, h: Header)
    requires h.Valid()
    ensures (forall d: int :: DefaultDuration(info, h.(duration := Some(d)).Bytes()) == d % TWO32) <==>
      h.offset.None? && (h.description.Some? || !DefaultBit(info, 2))
  {
    hide ReadU32, DefaultDuration, Header.Bytes;
    forall d: int {
      DefaultRead(info, h.(duration := Some(d)));
    }
    var one, two := h.(duration := Some(1)), h.(duration := Some(2));
    DefaultRead(info, one);
    DefaultRead(info, two);
    assert 1 % TWO32 == 1 && 2 % TWO32 == 2;
    if h.offset.Some? || (h.description.None? && DefaultBit(info, 2)) {
      assert DefaultDuration(info, one.Bytes()) == DefaultDuration(info, two.Bytes());
    }
  }

  // ---------- track fragments with any header and any number of runs ----------

  datatype Run = Run(version: nat, fields: Fields, samples: seq<RunSample>) {
    function Payload(): Bytes { RunBytes(version, fields, samples) }

    ghost predicate Valid() { |samples| < TWO32 }

    /** Its stored durations, or the default for each sample. */
    ghost function Ticks(default: int): int {
      var r := if fields.duration then StoredDurations(samples) else 0;
      if r == 0 then default * |samples| else r
    }
  }

  function RunBoxes(rs: seq<Run>): seq<Box> {
    if rs == [] then [] else [Leaf(TRUN, rs[0].Payload())] + RunBoxes(rs[1..])
  }

  function RunPayloads(rs: seq<Run>): seq<Bytes> {
    if rs == [] then [] else [rs[0].Payload()] + RunPayloads(rs[1..])
  }

  ghost function RunsSeconds(info: Info, default: int, rs: seq<Run>): real {
    if rs == [] then 0.0 else Seconds(rs[0].Ticks(default), info) + RunsSeconds(info, default, rs[1..])
  }

  lemma {:induction false} RunsAt(rs: seq<Run>)
    ensures Searchable(RunBoxes(rs), [TRUN]) && At(RunBoxes(rs), [TRUN]) == RunPayloads(rs)
    ensures forall i :: 0 <= i < |RunBoxes(rs)| ==> RunBoxes(rs)[i].name == TRUN
  {
    hide Run.Payload;
    if rs == [] {
    } else {
      RunsAt(rs[1..]);
      LeafPayload(RunBoxes(rs)[0]);
      assert RunBoxes(rs)[1..] == RunBoxes(rs[1..]);
    }
  }

  lemma TicksRead(default: int, r: Run)
    requires r.Valid()
    ensures RunTicks(default, r.Payload()) == r.Ticks(default)
  {
    hide RunDuration, ReadU32;
    DurationOfRun(r.version, r.fields, r.samples);
    HeadIs(r.version, r.fields, r.samples);
  }

  lemma {:induction false} RunsRead(info: Info, default: int, s: Sums, rs: seq<Run>)
    requires forall i :: 0 <= i < |rs| ==> rs[i].Valid()
    ensures RunsSums(info, default, s, RunPayloads(rs)) == s.Plus(info.kind, RunsSeconds(info, default, rs))
    decreases |rs|
  {
    hide RunTicks, Seconds, Run.Payload, Run.Ticks;
    if rs == [] {
    } else {
      TicksRead(default, rs[0]);
      assert RunPayloads(rs)[1..] == RunPayloads(rs[1..]);
      RunsRead(info, default, s.Plus(info.kind, Seconds(rs[0].Ticks(default), info)), rs[1..]);
    }
  }

  /** A track fragment of any header and any number of runs, each with any fields, adds the seconds of all its runs. */
  lemma TrafRead(tracks: Tracks, s: Sums, h: Header, rs: seq<Run>)
    requires h.Valid() && h.id % TWO32 in tracks && forall i :: 0 <= i < |rs| ==> rs[i].Valid()
    requires |WriteAll([Leaf(TFHD, h.Bytes())] + RunBoxes(rs))| < TWO32
    ensures var info, traf := tracks[h.id % TWO32], WriteAll([Leaf(TFHD, h.Bytes())] + RunBoxes(rs));
      TrafsSums(tracks, s, [traf]) ==
        Returned(s.Plus(info.kind, RunsSeconds(info, DefaultDuration(info, h.Bytes()), rs)))
  {
    hide Payload, Header.Bytes, Searchable, At, FindFrom, RunsSums, RunsSeconds, DefaultDuration, Write, ReadU32;
    var bs := [Leaf(TFHD, h.Bytes())] + RunBoxes(rs);
    var traf := WriteAll(bs);
    RunsAt(rs);
    AllKidsFit(bs);
    OnlyMatch([], bs[0], RunBoxes(rs), [TFHD]);
    assert [] + [bs[0]] + RunBoxes(rs) == bs;
    FindWritten(bs, [TFHD]);
    OtherName(bs[0], [TRUN]);
    AtCons(bs[0], RunBoxes(rs), [TRUN]);
    FindWritten(bs, [TRUN]);
    LeafPayload(bs[0]);
    IdRead(h);
    RunsRead(tracks[h.id % TWO32], DefaultDuration(tracks[h.id % TWO32], h.Bytes()), s, rs);
    assert [traf][1..] == [] && [] + RunPayloads(rs) == RunPayloads(rs);
  }

  lemma AllKidsFit(bs: seq<Box>)
    requires |WriteAll(bs)| < TWO32
    ensures Fits(bs)
  {
    forall i | 0 <= i < |bs| ensures |Write(bs[i])| < TWO32 {
      KidFits(bs, i);
    }
  }

  lemma IdRead(h: Header)
    ensures ReadU32(h.Bytes(), 4) == h.id % TWO32
  {
    hide Be32, ReadU32, Header.Flags;
    var t := h.Bytes();
    assert t == Be32(h.Flags()) + Be32(h.id) + t[8..];
    ReadBack(Be32(h.Flags()), h.id, t[8..]);
  }

  // ---------- seconds ----------

  /** A track without a time scale counts 90000 ticks a second. */
  lemma OneSecond(info: Info)
    ensures Seconds(if info.timescale == 0 then 90000 else info.timescale, info) == 1.0
  {
  }

  /** Of a segment with audio and video, the video counts. */
  lemma VideoCounts(tracks: Tracks, ws: seq<Written>)
    requires AllFit(ws) && SecondsOf(tracks, Video, ws) != 0.0
    ensures Lasting(TrafsSums(tracks, Sums(0.0, 0.0), FindFrom(WriteAll(Segment(ws)), [MOOF, TRAF], 0)), 0.0) ==
      Returned(SecondsOf(tracks, Video, ws))
  {
    hide FindFrom, TrafsSums, SecondsOf, Segment, WriteAll;
    DurationWritten(tracks, ws);
  }
}
