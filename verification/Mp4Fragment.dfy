/** Movie fragments: what the remuxer writes, and what the passthrough remuxer reads back from them. */
module Mp4Fragment {
  import opened Wrappers
  import opened Mp4Boxes
  import opened Mp4Tree
  import Bits

  const MOOF: Name := [109, 111, 111, 102]
  const MFHD: Name := [109, 102, 104, 100]
  const TRAF: Name := [116, 114, 97, 102]
  const TFHD: Name := [116, 102, 104, 100]
  const TFDT: Name := [116, 102, 100, 116]
  const TRUN: Name := [116, 114, 117, 110]
  const SDTP: Name := [115, 100, 116, 112]
  const MDAT: Name := [109, 100, 97, 116]

  /** One sample of a track run. Its dependency flags follow from whether it is a key frame. */
  datatype Sample = Sample(key: bool, duration: int, size: nat, cts: int) {
    function DependsOn(): int { if key then 2 else 1 }
    function IsNonSync(): int { if key then 0 else 1 }
  }

  datatype Track = Track(id: nat, video: bool, samples: seq<Sample>)

  // ---------- writing ----------

  function Entry(s: Sample): (b: Bytes)
    ensures |b| == 16
  {
    Be32(s.duration) + Be32(s.size) + [s.DependsOn(), s.IsNonSync(), 0, 0] + Be32(s.cts)
  }

  function Entries(ss: seq<Sample>): (b: Bytes)
    ensures |b| == 16 * |ss|
  {
    if ss == [] then [] else Entry(ss[0]) + Entries(ss[1..])
  }

  /** The data offset a track run stores, from the part its caller has summed up. */
  function DataOffset(track: Track, part: nat): nat { part + 8 + (12 + 16 * |track.samples|) }

  function TrunHead(track: Track, part: nat): (b: Bytes)
    ensures |b| == 12
  {
    [if track.video then 1 else 0, 0, 15, 1] + Be32(|track.samples|) + Be32(DataOffset(track, part))
  }

  function TrunPayload(track: Track, part: nat): Bytes { TrunHead(track, part) + Entries(track.samples) }

  function SdtpPayload(track: Track): Bytes {
    [0, 0, 0, 0] + seq(|track.samples|, i requires 0 <= i < |track.samples| => track.samples[i].DependsOn() * 16)
  }

  function TfdtPayload(base: nat): Bytes { [1, 0, 0, 0] + Be32(base / TWO32) + Be32(base % TWO32) }

  /** The sizes of the boxes around the track run, summed by hand. */
  function SummedPart(track: Track): nat { |Write(Leaf(SDTP, SdtpPayload(track)))| + 16 + 20 + 8 + 16 + 8 + 8 }

  function Traf(track: Track, base: nat): Box {
    Node(TRAF, [Leaf(TFHD, [0, 0, 0, 0] + Be32(track.id)), Leaf(TFDT, TfdtPayload(base)),
                Leaf(TRUN, TrunPayload(track, SummedPart(track))), Leaf(SDTP, SdtpPayload(track))])
  }

  function Moof(sequenceNumber: nat, base: nat, track: Track): Box {
    Node(MOOF, [Leaf(MFHD, [0, 0, 0, 0] + Be32(sequenceNumber)), Traf(track, base)])
  }

  lemma LeafLength(name: Name, payload: Bytes)
    ensures |Write(Leaf(name, payload))| == 8 + |payload|
  {
  }

  lemma ConsLength(b: Box, bs: seq<Box>)
    ensures |WriteAll([b] + bs)| == |Write(b)| + |WriteAll(bs)|
  {
    assert ([b] + bs)[1..] == bs;
  }

  lemma TrafLength(track: Track, base: nat)
    ensures |Write(Traf(track, base))| == 76 + 17 * |track.samples|
  {
    hide Write, WriteAll, Be32, TrunPayload, SdtpPayload, TfdtPayload;
    var k := Traf(track, base).kids;
    LeafLength(TFHD, k[0].payload);
    LeafLength(TFDT, k[1].payload);
    LeafLength(TRUN, k[2].payload);
    LeafLength(SDTP, k[3].payload);
    ConsLength(k[3], []);
    ConsLength(k[2], [k[3]]);
    ConsLength(k[1], [k[2], k[3]]);
    ConsLength(k[0], [k[1], k[2], k[3]]);
    assert k == [k[0]] + [k[1], k[2], k[3]] && [k[1], k[2], k[3]] == [k[1]] + [k[2], k[3]] &&
      [k[2], k[3]] == [k[2]] + [k[3]];
    assert [k[3]] == [k[3]] + [];
    PartLengths(track, base);
    NodeLength(TRAF, k);
  }

  lemma NodeLength(name: Name, kids: seq<Box>)
    ensures |Write(Node(name, kids))| == 8 + |WriteAll(kids)| && WriteAll([]) == []
  {
  }

  lemma PartLengths(track: Track, base: nat)
    ensures |TfdtPayload(base)| == 12 && |TrunPayload(track, SummedPart(track))| == 12 + 16 * |track.samples|
    ensures |SdtpPayload(track)| == 4 + |track.samples|
  {
    hide Be32, Write;
  }

  lemma MoofLength(sequenceNumber: nat, base: nat, track: Track)
    ensures |Write(Moof(sequenceNumber, base, track))| == 100 + 17 * |track.samples|
  {
    hide Write, WriteAll, Be32, Traf;
    var k := Moof(sequenceNumber, base, track).kids;
    LeafLength(MFHD, k[0].payload);
    TrafLength(track, base);
    ConsLength(k[1], []);
    ConsLength(k[0], [k[1]]);
    assert k == [k[0]] + [k[1]] && [k[1]] == [k[1]] + [];
    NodeLength(MOOF, k);
  }

  /** The hand-summed data offset points just past the whole movie fragment box and one box header. */
  lemma DataOffsetIs(sequenceNumber: nat, base: nat, track: Track)
    ensures DataOffset(track, SummedPart(track)) == |Write(Moof(sequenceNumber, base, track))| + 8
  {
    hide Write, WriteAll, Moof, SdtpPayload;
    MoofLength(sequenceNumber, base, track);
    LeafLength(SDTP, SdtpPayload(track));
    PartLengths(track, base);
  }

  /** The data offset as it is read back from a written track run. */
  lemma OffsetStored(track: Track, part: nat)
    ensures ReadU32(TrunPayload(track, part), 8) == DataOffset(track, part) % TWO32
  {
    hide Be32, ReadU32, DataOffset, Entries;
    var head := [if track.video then 1 else 0, 0, 15, 1] + Be32(|track.samples|);
    assert TrunPayload(track, part) == head + Be32(DataOffset(track, part)) + Entries(track.samples);
    ReadBack(head, DataOffset(track, part), Entries(track.samples));
  }

  /** The payload of a track run, filled in place. */
  method TrunBytes(track: Track, part: nat) returns (c: array<int>)
    ensures fresh(c) && c[..] == TrunPayload(track, part)
  {
    hide TrunHead, Entry;
    var u := track.samples;
    c := new int[12 + 16 * |u|];
    Set(c, TrunHead(track, part), 0);
    for i := 0 to |u|
      invariant c[..12 + 16 * i] == TrunHead(track, part) + Entries(u[..i])
    {
      Set(c, Entry(u[i]), 12 + 16 * i);
      EntriesSnoc(u[..i], u[i]);
      assert u[..i] + [u[i]] == u[..i + 1];
    }
    assert u[..|u|] == u && c[..12 + 16 * |u|] == c[..];
  }

  lemma {:induction false} EntriesSnoc(ss: seq<Sample>, s: Sample)
    ensures Entries(ss + [s]) == Entries(ss) + Entry(s)
  {
    hide Entry;
    if ss == [] {
    } else {
      assert (ss + [s])[1..] == ss[1..] + [s];
      EntriesSnoc(ss[1..], s);
    }
  }

  method SdtpBytes(track: Track) returns (a: array<int>)
    ensures fresh(a) && a[..] == SdtpPayload(track)
  {
    var n := track.samples;
    a := new int[4 + |n|](_ => 0);
    for r := 0 to |n|
      invariant forall k :: 0 <= k < 4 ==> a[k] == 0
      invariant forall k :: 0 <= k < r ==> a[k + 4] == n[k].DependsOn() * 16
    {
      a[r + 4] := n[r].DependsOn() * 16;
    }
  }

  // ---------- reading ----------

  predicate Bit(e: int, weight: int)
    requires weight > 0
  {
    e / weight % 2 == 1
  }

  lemma BitIs(e: nat, weight: nat, q: nat, c: nat, r: nat)
    requires weight > 0 && e == (2 * q + c) * weight + r && c < 2 && r < weight
    ensures Bit(e, weight) <==> c == 1
  {
    Bits.QuotientOf(2 * q + c, weight, r);
  }

  /** The bytes one sample takes in a track run with these flags. */
  function Stride(e: int): nat {
    (if Bit(e, 256) then 4 else 0) + (if Bit(e, 512) then 4 else 0) + (if Bit(e, 1024) then 4 else 0) +
      (if Bit(e, 2048) then 4 else 0)
  }

  function DurationsFrom(t: Bytes, e: int, r: nat, n: int): int
    decreases n
  {
    if n <= 0 then 0
    else (if Bit(e, 256) then ReadU32(t, r) else 0) + DurationsFrom(t, e, r + Stride(e), n - 1)
  }

  function RunStart(e: int): nat { 8 + (if Bit(e, 1) then 4 else 0) + (if Bit(e, 4) then 4 else 0) }

  /** The duration of a track run, as its payload tells it. */
  function RunDuration(t: Bytes): int { DurationsFrom(t, ReadU32(t, 0), RunStart(ReadU32(t, 0)), ReadU32(t, 4)) }

  method SampleDurations(t: Bytes) returns (i: int)
    ensures i == RunDuration(t)
  {
    hide ReadU32, Bit;
    var e := ReadU32(t, 0);
    var r := 8;
    if Bit(e, 1) {
      r := r + 4;
    }
    if Bit(e, 4) {
      r := r + 4;
    }
    var n := ReadU32(t, 4);
    var a := 0;
    i := 0;
    while a < n
      invariant RunDuration(t) == i + DurationsFrom(t, e, r, n - a)
    {
      if Bit(e, 256) {
        i := i + ReadU32(t, r);
        r := r + 4;
      }
      if Bit(e, 512) {
        r := r + 4;
      }
      if Bit(e, 1024) {
        r := r + 4;
      }
      if Bit(e, 2048) {
        r := r + 4;
      }
      a := a + 1;
    }
  }

  ghost function SumDurations(ss: seq<Sample>): int {
    if ss == [] then 0 else ss[0].duration + SumDurations(ss[1..])
  }

  ghost predicate WordDurations(ss: seq<Sample>) { forall i :: 0 <= i < |ss| ==> 0 <= ss[i].duration < TWO32 }

  /** The sum of the durations as they are stored, modulo 2^32. */
  ghost function SumStored(ss: seq<Sample>): int {
    if ss == [] then 0 else ss[0].duration % TWO32 + SumStored(ss[1..])
  }

  lemma {:induction false} StoredExactly(ss: seq<Sample>)
    requires WordDurations(ss)
    ensures SumStored(ss) == SumDurations(ss)
  {
    if ss == [] {
    } else {
      StoredExactly(ss[1..]);
    }
  }

  lemma {:induction false} DurationsOfEntries(before: Bytes, ss: seq<Sample>, e: int)
    requires Bit(e, 256) && Stride(e) == 16
    ensures DurationsFrom(before + Entries(ss), e, |before|, |ss|) == SumStored(ss)
    decreases |ss|
  {
    hide Bit, Be32, ReadU32;
    if ss == [] {
    } else {
      var s, rest := ss[0], Entries(ss[1..]);
      var t := before + Entries(ss);
      assert t == (before + Entry(s)) + rest;
      DurationsOfEntries(before + Entry(s), ss[1..], e);
      var after := Be32(s.size) + [s.DependsOn(), s.IsNonSync(), 0, 0] + Be32(s.cts) + rest;
      assert t == before + Be32(s.duration) + after;
      ReadBack(before, s.duration, after);
    }
  }

  lemma RunFlags(video: bool)
    ensures var e := (if video then 0x100_0000 else 0) + 0xF01;
            RunStart(e) == 12 && Bit(e, 256) && Stride(e) == 16
  {
  }

  /** What a track run writes, reading it gives back: the sum of all sample durations, each as it fits its word. */
  lemma RunDurationWritten(track: Track, part: nat)
    requires |track.samples| < TWO32
    ensures RunDuration(TrunPayload(track, part)) == SumStored(track.samples)
    ensures WordDurations(track.samples) ==> RunDuration(TrunPayload(track, part)) == SumDurations(track.samples)
  {
    hide Bit, Be32, ReadU32, RunStart, Stride;
    if WordDurations(track.samples) {
      StoredExactly(track.samples);
    }
    var t := TrunPayload(track, part);
    RunFlags(track.video);
    HeadFlags(track, part);
    var flags := [if track.video then 1 else 0, 0, 15, 1];
    var after := Be32(DataOffset(track, part)) + Entries(track.samples);
    assert t == flags + Be32(|track.samples|) + after;
    ReadBack(flags, |track.samples|, after);
    DurationsOfEntries(TrunHead(track, part), track.samples, ReadU32(t, 0));
  }

  lemma HeadFlags(track: Track, part: nat)
    ensures ReadU32(TrunPayload(track, part), 0) == (if track.video then 0x100_0000 else 0) + 0xF01
  {
    hide Be32;
  }

  /** The base decode time read from a fragment, unless its upper word is the one taken for a bad sign. */
  function DecodeTime(i: Bytes): Option<int> {
    var o := ReadU32(i, 4);
    if ByteAt(i, 0) != 1 then Some(o)
    else if o == TWO32 - 1 then None
    else Some(o * TWO32 + ReadU32(i, 8))
  }

  /** The base time is read back exactly when its upper word is not 2^32 - 1. */
  lemma DecodeTimeWritten(base: nat)
    requires base < TWO32 * TWO32
    ensures DecodeTime(TfdtPayload(base)) == if base / TWO32 == TWO32 - 1 then None else Some(base)
  {
    hide Be32, ReadU32;
    var t := TfdtPayload(base);
    var high, low := base / 0x1_0000_0000, base % 0x1_0000_0000;
    assert t == [1, 0, 0, 0] + Be32(high) + Be32(low);
    ReadBack([1, 0, 0, 0], high, Be32(low));
    assert t == [1, 0, 0, 0] + Be32(high) + Be32(low) + [];
    ReadBack([1, 0, 0, 0] + Be32(high), low, []);
  }

  /** In a box that is not of version 1 the base time is one word, and never refused. */
  lemma ShortDecodeTime(version: int, flags: Bytes, base: int)
    requires version != 1 && |flags| == 3
    ensures DecodeTime([version] + flags + Be32(base)) == Some(base % TWO32)
  {
    hide Be32, ReadU32;
    assert [version] + flags + Be32(base) == ([version] + flags) + Be32(base) + [];
    ReadBack([version] + flags, base, []);
  }

  /** A fragment as the remuxer hands it over: the movie fragment box, then the media data box. */
  function Fragment(sequenceNumber: nat, base: nat, track: Track, data: Bytes): seq<Box> {
    [Moof(sequenceNumber, base, track), Leaf(MDAT, data)]
  }

  /** The reader finds in a written fragment the one track fragment, and in it the one box of each kind. */
  lemma FragmentReadBack(sequenceNumber: nat, base: nat, track: Track, data: Bytes)
    requires 100 + 17 * |track.samples| < TWO32 && 8 + |data| < TWO32
    ensures var traf := Payload(Traf(track, base));
            && FindFrom(WriteAll(Fragment(sequenceNumber, base, track, data)), [MOOF, TRAF], 0) == [traf]
            && FindFrom(traf, [TFHD], 0) == [[0, 0, 0, 0] + Be32(track.id)]
            && FindFrom(traf, [TFDT], 0) == [TfdtPayload(base)]
            && FindFrom(traf, [TRUN], 0) == [TrunPayload(track, SummedPart(track))]
  {
    hide Write, WriteAll, Payload, Be32, TfdtPayload, TrunPayload, SdtpPayload, FindFrom;
    MoofLength(sequenceNumber, base, track);
    LeafLength(MDAT, data);
    TrafLength(track, base);
    var traf := Traf(track, base);
    var forest := Fragment(sequenceNumber, base, track, data);
    KidsFit(traf);
    FragmentAt(sequenceNumber, base, track, data);
    FindWritten(forest, [MOOF, TRAF]);
    TrafAt(track, base);
    FindWritten(traf.kids, [TFHD]);
    FindWritten(traf.kids, [TFDT]);
    FindWritten(traf.kids, [TRUN]);
    LeafPayload(traf.kids[0]);
    LeafPayload(traf.kids[1]);
    LeafPayload(traf.kids[2]);
    PayloadOfNode(traf);
    assert [] + WriteAll(traf.kids) == WriteAll(traf.kids);
  }

  lemma LeafPayload(b: Box)
    requires b.Leaf?
    ensures Payload(b) == b.payload
  {
  }

  lemma FragmentAt(sequenceNumber: nat, base: nat, track: Track, data: Bytes)
    ensures var forest := Fragment(sequenceNumber, base, track, data);
            Searchable(forest, [MOOF, TRAF]) && At(forest, [MOOF, TRAF]) == [Payload(Traf(track, base))]
  {
    hide Payload, Be32, TrunPayload, TfdtPayload, SdtpPayload;
    var forest := Fragment(sequenceNumber, base, track, data);
    var kids := forest[0].kids;
    OnlyMatch([kids[0]], kids[1], [], [TRAF]);
    assert [kids[0]] + [kids[1]] + [] == kids;
    assert [MOOF, TRAF][1..] == [TRAF];
    assert forest[1..] == [forest[1]];
    OtherName(forest[1], [MOOF, TRAF]);
  }

  lemma OtherName(b: Box, path: seq<Name>)
    requires path != [] && b.name != path[0]
    ensures Searchable([b], path) && At([b], path) == []
  {
    assert [b][1..] == [];
  }

  /** At the last step of a path, the one box with the name is found. */
  lemma {:induction false} OnlyMatch(before: seq<Box>, b: Box, after: seq<Box>, path: seq<Name>)
    requires |path| == 1 && b.name == path[0]
    requires forall i :: 0 <= i < |before| ==> before[i].name != path[0]
    requires forall i :: 0 <= i < |after| ==> after[i].name != path[0]
    ensures Searchable(before + [b] + after, path) && At(before + [b] + after, path) == [Payload(b)]
    decreases |before|
  {
    hide Payload;
    var bs := before + [b] + after;
    if before == [] {
      assert bs[1..] == after;
      NoMatch(after, path);
    } else {
      assert bs[1..] == before[1..] + [b] + after;
      OnlyMatch(before[1..], b, after, path);
    }
  }

  lemma {:induction false} NoMatch(bs: seq<Box>, path: seq<Name>)
    requires |path| == 1 && forall i :: 0 <= i < |bs| ==> bs[i].name != path[0]
    ensures Searchable(bs, path) && At(bs, path) == []
  {
    if bs == [] {
    } else {
      NoMatch(bs[1..], path);
    }
  }

  lemma TrafAt(track: Track, base: nat)
    ensures var k := Traf(track, base).kids;
            && Searchable(k, [TFHD]) && At(k, [TFHD]) == [Payload(k[0])]
            && Searchable(k, [TFDT]) && At(k, [TFDT]) == [Payload(k[1])]
            && Searchable(k, [TRUN]) && At(k, [TRUN]) == [Payload(k[2])]
  {
    hide Payload, TrunPayload, SdtpPayload, TfdtPayload, Searchable, At;
    var k := Traf(track, base).kids;
    OnlyMatch([], k[0], [k[1], k[2], k[3]], [TFHD]);
    assert [] + [k[0]] + [k[1], k[2], k[3]] == k;
    OnlyMatch([k[0]], k[1], [k[2], k[3]], [TFDT]);
    assert [k[0]] + [k[1]] + [k[2], k[3]] == k;
    OnlyMatch([k[0], k[1]], k[2], [k[3]], [TRUN]);
    assert [k[0], k[1]] + [k[2]] + [k[3]] == k;
  }
}
