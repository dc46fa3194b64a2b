/** Track runs with any of their optional fields (section 8.8.8 of ISO/IEC 14496-12), and what is read back of them. */
module Mp4TrackRun {
  import opened Wrappers
  import opened Mp4Boxes
  import opened Mp4Fragment

  /** The optional fields: two behind the sample count, and four in every sample. */
  datatype Fields = Fields(offset: Option<int>, firstFlags: Option<int>, duration: bool, size: bool, flags: bool,
    cts: bool)

  datatype RunSample = RunSample(duration: int, size: int, flags: int, cts: int)

  function Word(present: bool, v: int): Bytes { if present then Be32(v) else [] }

  function OneSample(f: Fields, s: RunSample): Bytes {
    Word(f.duration, s.duration) + Word(f.size, s.size) + Word(f.flags, s.flags) + Word(f.cts, s.cts)
  }

  function AllSamples(f: Fields, ss: seq<RunSample>): Bytes {
    if ss == [] then [] else OneSample(f, ss[0]) + AllSamples(f, ss[1..])
  }

  function Flag(present: bool, weight: int): int { if present then weight else 0 }

  function FieldFlags(f: Fields): int { Flag(f.offset.Some?, 1) + Flag(f.firstFlags.Some?, 4) }

  function SampleFlags(f: Fields): int {
    Flag(f.duration, 1) + Flag(f.size, 2) + Flag(f.flags, 4) + Flag(f.cts, 8)
  }

  function RunHead(version: nat, f: Fields, n: nat): Bytes {
    [version, 0, SampleFlags(f), FieldFlags(f)] + Be32(n) + Word(f.offset.Some?, f.offset.GetOr(0)) +
      Word(f.firstFlags.Some?, f.firstFlags.GetOr(0))
  }

  /** The payload of a track run box. */
  function RunBytes(version: nat, f: Fields, ss: seq<RunSample>): Bytes {
    RunHead(version, f, |ss|) + AllSamples(f, ss)
  }

  /** The durations as they are stored. */
  ghost function StoredDurations(ss: seq<RunSample>): int {
    if ss == [] then 0 else ss[0].duration % TWO32 + StoredDurations(ss[1..])
  }

  ghost predicate FlagsAre(e: int, f: Fields) {
    && Bit(e, 1) == f.offset.Some? && Bit(e, 4) == f.firstFlags.Some?
    && Bit(e, 256) == f.duration && Bit(e, 512) == f.size && Bit(e, 1024) == f.flags && Bit(e, 2048) == f.cts
  }

  lemma BitsOfSum(e: nat, v: nat, c: nat, g: nat, s: nat, d: nat, i: nat, o: nat)
    requires c < 2 && g < 2 && s < 2 && d < 2 && i < 2 && o < 2
    requires e == v * 0x100_0000 + c * 2048 + g * 1024 + s * 512 + d * 256 + i * 4 + o
    ensures (Bit(e, 1) <==> o == 1) && (Bit(e, 4) <==> i == 1) && (Bit(e, 256) <==> d == 1)
    ensures (Bit(e, 512) <==> s == 1) && (Bit(e, 1024) <==> g == 1) && (Bit(e, 2048) <==> c == 1)
  {
    hide Bit;
    BitIs(e, 1, v * 0x80_0000 + c * 1024 + g * 512 + s * 256 + d * 128 + i * 2, o, 0);
    BitIs(e, 4, v * 0x20_0000 + c * 256 + g * 128 + s * 64 + d * 32, i, o);
    BitIs(e, 256, v * 0x8000 + c * 4 + g * 2 + s, d, i * 4 + o);
    BitIs(e, 512, v * 0x4000 + c * 2 + g, s, d * 256 + i * 4 + o);
    BitIs(e, 1024, v * 0x2000 + c, g, s * 512 + d * 256 + i * 4 + o);
    BitIs(e, 2048, v * 0x1000, c, g * 1024 + s * 512 + d * 256 + i * 4 + o);
  }

  /** The flags word from its bytes. */
  lemma LowBits(version: nat, f: Fields)
    ensures FlagsAre(version * 0x100_0000 + SampleFlags(f) * 0x100 + FieldFlags(f), f)
  {
    hide Bit;
    BitsOfSum(version * 0x100_0000 + SampleFlags(f) * 0x100 + FieldFlags(f), version, Flag(f.cts, 1), Flag(f.flags, 1),
      Flag(f.size, 1), Flag(f.duration, 1), Flag(f.firstFlags.Some?, 1), Flag(f.offset.Some?, 1));
  }

  lemma HeadIs(version: nat, f: Fields, ss: seq<RunSample>)
    requires |ss| < TWO32
    ensures var t := RunBytes(version, f, ss);
      FlagsAre(ReadU32(t, 0), f) && ReadU32(t, 4) == |ss|
  {
    hide Be32, AllSamples;
    var t := RunBytes(version, f, ss);
    var flags := [version, 0, SampleFlags(f), FieldFlags(f)];
    var after := Word(f.offset.Some?, f.offset.GetOr(0)) + Word(f.firstFlags.Some?, f.firstFlags.GetOr(0)) +
      AllSamples(f, ss);
    assert t == flags + Be32(|ss|) + after;
    FlagsRead(flags, Be32(|ss|) + after, version, f);
    assert t == flags + (Be32(|ss|) + after);
    CountRead(flags, |ss|, after);
  }

  lemma FlagsRead(flags: Bytes, after: Bytes, version: nat, f: Fields)
    requires flags == [version, 0, SampleFlags(f), FieldFlags(f)]
    ensures FlagsAre(ReadU32(flags + after, 0), f)
  {
    hide SampleFlags, FieldFlags, FlagsAre;
    LowBits(version, f);
  }

  lemma CountRead(flags: Bytes, n: nat, after: Bytes)
    requires |flags| == 4 && n < TWO32
    ensures ReadU32(flags + Be32(n) + after, 4) == n
  {
    hide Be32, ReadU32;
    ReadBack(flags, n, after);
  }

  lemma SampleLength(f: Fields, s: RunSample, e: int)
    requires FlagsAre(e, f)
    ensures |OneSample(f, s)| == Stride(e)
  {
    hide Be32;
  }

  lemma {:induction false} DurationsRead(before: Bytes, f: Fields, ss: seq<RunSample>, e: int)
    requires FlagsAre(e, f)
    ensures DurationsFrom(before + AllSamples(f, ss), e, |before|, |ss|) ==
      if f.duration then StoredDurations(ss) else 0
    decreases |ss|
  {
    hide Be32, ReadU32, Bit, Stride, OneSample;
    if ss == [] {
    } else {
      var s, rest := ss[0], AllSamples(f, ss[1..]);
      var t := before + AllSamples(f, ss);
      assert t == (before + OneSample(f, s)) + rest;
      SampleLength(f, s, e);
      DurationsRead(before + OneSample(f, s), f, ss[1..], e);
      if f.duration {
        FirstRead(before, f, s, rest);
      }
    }
  }

  lemma FirstRead(before: Bytes, f: Fields, s: RunSample, rest: Bytes)
    requires f.duration
    ensures ReadU32(before + OneSample(f, s) + rest, |before|) == s.duration % TWO32
  {
    hide Be32, ReadU32;
    var more := Word(f.size, s.size) + Word(f.flags, s.flags) + Word(f.cts, s.cts) + rest;
    assert before + OneSample(f, s) + rest == before + Be32(s.duration) + more;
    ReadBack(before, s.duration, more);
  }

  lemma HeadLength(version: nat, f: Fields, n: nat, e: int)
    requires FlagsAre(e, f)
    ensures |RunHead(version, f, n)| == RunStart(e)
  {
    hide Be32;
  }

  /** Whatever fields a track run has, its duration is read as the sum of its stored durations, or 0 when it has none.
      */
  lemma DurationOfRun(version: nat, f: Fields, ss: seq<RunSample>)
    requires |ss| < TWO32
    ensures RunDuration(RunBytes(version, f, ss)) == if f.duration then StoredDurations(ss) else 0
  {
    hide ReadU32, RunHead, RunStart, AllSamples, FlagsAre;
    var t := RunBytes(version, f, ss);
    HeadIs(version, f, ss);
    HeadLength(version, f, |ss|, ReadU32(t, 0));
    DurationsRead(RunHead(version, f, |ss|), f, ss, ReadU32(t, 0));
  }

  // ---------- the runs that the remuxer writes ----------

  /** Dependencies in the top byte, and in the next one whether the sample is no sync sample. */
  function FlagsWord(s: Sample): int { (if s.key then 2 else 1) * 0x100_0000 + (if s.key then 0 else 1) * 0x1_0000 }

  function Standard(s: Sample): RunSample { RunSample(s.duration, s.size, FlagsWord(s), s.cts) }

  function StandardAll(ss: seq<Sample>): (r: seq<RunSample>)
    ensures |r| == |ss|
  {
    if ss == [] then [] else [Standard(ss[0])] + StandardAll(ss[1..])
  }

  const ALL_FIELDS := Fields(None, None, true, true, true, true)

  lemma EntryIsStandard(s: Sample)
    ensures Entry(s) == OneSample(ALL_FIELDS, Standard(s))
  {
    hide Be32;
    FlagBytes(s);
  }

  lemma FlagBytes(s: Sample)
    ensures Be32(FlagsWord(s)) == [s.DependsOn(), s.IsNonSync(), 0, 0]
  {
  }

  lemma {:induction false} EntriesAreStandard(ss: seq<Sample>, f: Fields)
    requires f.duration && f.size && f.flags && f.cts
    ensures Entries(ss) == AllSamples(f, StandardAll(ss))
  {
    hide Entry, Standard, OneSample;
    if ss == [] {
    } else {
      EntryIsStandard(ss[0]);
      SameFields(f, Standard(ss[0]));
      EntriesAreStandard(ss[1..], f);
      assert StandardAll(ss)[1..] == StandardAll(ss[1..]);
    }
  }

  lemma SameFields(f: Fields, s: RunSample)
    requires f.duration && f.size && f.flags && f.cts
    ensures OneSample(f, s) == OneSample(ALL_FIELDS, s)
  {
  }

  /** What is written is the standard's track run with a data offset and all four fields of every sample. */
  lemma TrunIsStandard(track: Track, part: nat)
    ensures TrunPayload(track, part) ==
      RunBytes(if track.video then 1 else 0, ALL_FIELDS.(offset := Some(DataOffset(track, part))),
               StandardAll(track.samples))
  {
    hide Be32, DataOffset, Entries, AllSamples;
    EntriesAreStandard(track.samples, ALL_FIELDS.(offset := Some(DataOffset(track, part))));
  }

  lemma {:induction false} EntriesAt(ss: seq<Sample>, i: nat)
    requires i < |ss|
    ensures Entries(ss) == Entries(ss[..i]) + Entry(ss[i]) + Entries(ss[i + 1..])
    decreases i
  {
    hide Entry;
    if i == 0 {
      assert ss[..0] == [];
    } else {
      EntriesAt(ss[1..], i - 1);
      assert ss[1..][..i - 1] == ss[..i][1..] && ss[1..][i..] == ss[i + 1..];
    }
  }

  lemma EntryRead(before: Bytes, s: Sample, after: Bytes)
    ensures var t, at := before + Entry(s) + after, |before|;
      && ReadU32(t, at) == s.duration % TWO32 && ReadU32(t, at + 4) == s.size % TWO32
      && ByteAt(t, at + 8) == (if s.key then 2 else 1) && (ByteAt(t, at + 9) % 2 == 1 <==> !s.key)
      && ReadU32(t, at + 12) == s.cts % TWO32
  {
    hide Be32, ReadU32;
    var t := before + Entry(s) + after;
    var d, z, flags, c := Be32(s.duration), Be32(s.size), [s.DependsOn(), s.IsNonSync(), 0, 0], Be32(s.cts);
    assert t == before + d + (z + flags + c + after);
    ReadBack(before, s.duration, z + flags + c + after);
    assert t == (before + d) + z + (flags + c + after);
    ReadBack(before + d, s.size, flags + c + after);
    assert t == (before + d + z + flags) + c + after;
    ReadBack(before + d + z + flags, s.cts, after);
    assert t[|before| + 8] == flags[0] && t[|before| + 9] == flags[1];
  }

  /** Every field of every sample, as it is read back from a written track run. */
  lemma SampleWritten(track: Track, part: nat, i: nat)
    requires i < |track.samples|
    ensures var t, at, s := TrunPayload(track, part), 12 + 16 * i, track.samples[i];
      && ReadU32(t, at) == s.duration % TWO32 && ReadU32(t, at + 4) == s.size % TWO32
      && ByteAt(t, at + 8) == (if s.key then 2 else 1) && (ByteAt(t, at + 9) % 2 == 1 <==> !s.key)
      && ReadU32(t, at + 12) == s.cts % TWO32
  {
    hide ReadU32, Entry, TrunHead, Entries;
    var ss := track.samples;
    EntriesAt(ss, i);
    var before, after := TrunHead(track, part) + Entries(ss[..i]), Entries(ss[i + 1..]);
    assert TrunPayload(track, part) == before + Entry(ss[i]) + after;
    EntryRead(before, ss[i], after);
  }
}
