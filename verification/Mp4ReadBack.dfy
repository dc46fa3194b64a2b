/** What a player reads in a whole written fragment: numbers, dependencies, and every sample's units. */
module Mp4ReadBack {
  import opened Mp4Boxes
  import opened Mp4Tree
  import opened Mp4Fragment
  import opened Mp4TrackRun
  import opened VideoRemuxer
  import opened Sequences

  // ---------- names ----------

  function Spelled(s: string): Bytes { seq(|s|, i requires 0 <= i < |s| => s[i] as int) }

  lemma NamesSpelled()
    ensures MOOF == Spelled("moof") && MFHD == Spelled("mfhd") && TRAF == Spelled("traf") && TFHD == Spelled("tfhd")
    ensures TFDT == Spelled("tfdt") && TRUN == Spelled("trun") && SDTP == Spelled("sdtp") && MDAT == Spelled("mdat")
  {
  }

  // ---------- the boxes beside the track run ----------

  /** The sequence number of a written fragment, found and read. */
  lemma SequenceNumberRead(sequenceNumber: nat, base: nat, track: Track, data: Bytes)
    requires 100 + 17 * |track.samples| < TWO32 && 8 + |data| < TWO32
    ensures var found := FindFrom(WriteAll(Fragment(sequenceNumber, base, track, data)), [MOOF, MFHD], 0);
      |found| == 1 && ReadU32(found[0], 4) == sequenceNumber % TWO32
  {
    hide Write, WriteAll, Payload, Be32, FindFrom, TrunPayload, TfdtPayload, SdtpPayload, ReadU32;
    MoofLength(sequenceNumber, base, track);
    LeafLength(MDAT, data);
    var forest := Fragment(sequenceNumber, base, track, data);
    var kids := forest[0].kids;
    OnlyMatch([], kids[0], [kids[1]], [MFHD]);
    assert [] + [kids[0]] + [kids[1]] == kids;
    assert [MOOF, MFHD][1..] == [MFHD];
    assert forest[1..] == [forest[1]];
    OtherName(forest[1], [MOOF, MFHD]);
    FindWritten(forest, [MOOF, MFHD]);
    LeafPayload(kids[0]);
    ReadBack([0, 0, 0, 0], sequenceNumber, []);
    assert [0, 0, 0, 0] + Be32(sequenceNumber) + [] == [0, 0, 0, 0] + Be32(sequenceNumber);
  }

  /** The dependency flags of a written fragment's samples: one byte each, 32 for a key frame and 16 for any other. */
  lemma DependenciesRead(track: Track, base: nat, i: nat)
    requires i < |track.samples| && 100 + 17 * |track.samples| < TWO32
    ensures var found := FindFrom(Payload(Traf(track, base)), [SDTP], 0);
      |found| == 1 && |found[0]| == 4 + |track.samples| &&
      found[0][4 + i] == if track.samples[i].key then 32 else 16
  {
    hide Write, WriteAll, Payload, Be32, FindFrom, TrunPayload, TfdtPayload, At, Searchable;
    TrafLength(track, base);
    var traf := Traf(track, base);
    var k := traf.kids;
    KidsFit(traf);
    OnlyMatch([k[0], k[1], k[2]], k[3], [], [SDTP]);
    assert [k[0], k[1], k[2]] + [k[3]] + [] == k;
    FindWritten(k, [SDTP]);
    LeafPayload(k[3]);
    PayloadOfNode(traf);
    assert [] + WriteAll(k) == WriteAll(k);
  }

  // ---------- one whole movie fragment ----------

  const ONE_SAMPLE := Track(1, true, [Sample(true, 3000, 9, 0)])

  lemma LeafBytes(name: Name, payload: Bytes, rest: seq<Box>)
    ensures WriteAll([Leaf(name, payload)] + rest) == BoxBytes(name, payload) + WriteAll(rest)
  {
    hide BoxBytes;
    LeafPayload(Leaf(name, payload));
    assert ([Leaf(name, payload)] + rest)[1..] == rest;
  }

  lemma SmallWord(n: nat)
    requires n < 256
    ensures Be32(n) == [0, 0, 0, n]
  {
  }

  const RUN_BYTES: Bytes :=
    [1, 0, 15, 1, 0, 0, 0, 1, 0, 0, 0, 125, 0, 0, 11, 184, 0, 0, 0, 9, 2, 0, 0, 0, 0, 0, 0, 0]

  lemma EntryOfOne()
    ensures Entries(ONE_SAMPLE.samples) == [0, 0, 11, 184, 0, 0, 0, 9, 2, 0, 0, 0, 0, 0, 0, 0]
  {
    assert ONE_SAMPLE.samples[1..] == [];
    assert Be32(3000) == [0, 0, 11, 184];
    SmallWord(9);
    SmallWord(0);
    hide Be32;
  }

  lemma OffsetOfOne()
    ensures DataOffset(ONE_SAMPLE, SummedPart(ONE_SAMPLE)) == 125
  {
    hide Write;
    PartLengths(ONE_SAMPLE, 0);
    LeafLength(SDTP, SdtpPayload(ONE_SAMPLE));
  }

  lemma RunOfOne()
    ensures TrunPayload(ONE_SAMPLE, SummedPart(ONE_SAMPLE)) == RUN_BYTES
  {
    hide Be32, Entries, DataOffset, SummedPart;
    OffsetOfOne();
    SmallWord(1);
    SmallWord(125);
    EntryOfOne();
  }

  lemma DependenciesOfOne()
    ensures SdtpPayload(ONE_SAMPLE) == [0, 0, 0, 0, 32]
  {
  }

  lemma BaseOfOne()
    ensures TfdtPayload(90000) == [1, 0, 0, 0, 0, 0, 0, 0, 0, 1, 95, 144]
  {
    SmallWord(0);
    assert Be32(90000) == [0, 1, 95, 144];
    hide Be32;
  }

  lemma SmallBox(name: Name, payload: Bytes)
    requires |payload| < 248
    ensures BoxBytes(name, payload) == [0, 0, 0, 8 + |payload|] + name + payload
  {
    hide Be32;
    SmallWord(8 + |payload|);
  }

  const TFHD_BOX: Bytes := [0, 0, 0, 16, 116, 102, 104, 100, 0, 0, 0, 0, 0, 0, 0, 1]
  const TFDT_BOX: Bytes := [0, 0, 0, 20, 116, 102, 100, 116, 1, 0, 0, 0, 0, 0, 0, 0, 0, 1, 95, 144]
  const TRUN_BOX: Bytes := [0, 0, 0, 36, 116, 114, 117, 110] + RUN_BYTES
  const SDTP_BOX: Bytes := [0, 0, 0, 13, 115, 100, 116, 112, 0, 0, 0, 0, 32]

  lemma BoxesOfOne()
    ensures BoxBytes(TFHD, [0, 0, 0, 0] + Be32(1)) == TFHD_BOX
    ensures BoxBytes(TFDT, TfdtPayload(90000)) == TFDT_BOX && BoxBytes(SDTP, SdtpPayload(ONE_SAMPLE)) == SDTP_BOX
  {
    hide BoxBytes, SdtpPayload, TfdtPayload, Be32;
    SmallWord(1);
    HeaderBoxOfOne();
    BaseOfOne();
    BaseBoxOfOne();
    DependenciesOfOne();
    SmallBox(SDTP, [0, 0, 0, 0, 32]);
  }

  lemma HeaderBoxOfOne()
    ensures BoxBytes(TFHD, [0, 0, 0, 0] + [0, 0, 0, 1]) == TFHD_BOX
  {
    hide BoxBytes;
    SmallBox(TFHD, [0, 0, 0, 0] + [0, 0, 0, 1]);
  }

  lemma BaseBoxOfOne()
    ensures BoxBytes(TFDT, [1, 0, 0, 0, 0, 0, 0, 0, 0, 1, 95, 144]) == TFDT_BOX
  {
    hide BoxBytes;
    SmallBox(TFDT, [1, 0, 0, 0, 0, 0, 0, 0, 0, 1, 95, 144]);
  }

  lemma RunBoxOfOne()
    ensures BoxBytes(TRUN, TrunPayload(ONE_SAMPLE, SummedPart(ONE_SAMPLE))) == TRUN_BOX
  {
    hide BoxBytes, TrunPayload, SummedPart;
    RunOfOne();
    SmallBox(TRUN, RUN_BYTES);
  }

  lemma TrafOfOne()
    ensures Payload(Traf(ONE_SAMPLE, 90000)) == TFHD_BOX + TFDT_BOX + TRUN_BOX + SDTP_BOX
  {
    hide WriteAll, BoxBytes, TrunPayload, SdtpPayload, SummedPart, TfdtPayload, Be32, Write;
    var k := Traf(ONE_SAMPLE, 90000).kids;
    BoxesOfOne();
    RunBoxOfOne();
    LeafBytes(SDTP, k[3].payload, []);
    LeafBytes(TRUN, k[2].payload, [k[3]]);
    LeafBytes(TFDT, k[1].payload, [k[2], k[3]]);
    LeafBytes(TFHD, k[0].payload, [k[1], k[2], k[3]]);
    assert k == [k[0]] + [k[1], k[2], k[3]] && [k[1], k[2], k[3]] == [k[1]] + [k[2], k[3]];
    assert [k[2], k[3]] == [k[2]] + [k[3]] && [k[3]] == [k[3]] + [];
    NodeLength(TRAF, []);
    Joined4(TFHD_BOX, TFDT_BOX, TRUN_BOX, SDTP_BOX);
    PayloadOfNode(Traf(ONE_SAMPLE, 90000));
  }

  lemma Joined4(a: Bytes, b: Bytes, c: Bytes, d: Bytes)
    ensures a + (b + (c + (d + []))) == a + b + c + d
  {
  }

  const MFHD_BOX: Bytes := [0, 0, 0, 16, 109, 102, 104, 100, 0, 0, 0, 0, 0, 0, 0, 1]
  const TRAF_BOX: Bytes := [0, 0, 0, 93, 116, 114, 97, 102] + (TFHD_BOX + TFDT_BOX + TRUN_BOX + SDTP_BOX)

  lemma TrafBoxOfOne()
    ensures BoxBytes(TRAF, Payload(Traf(ONE_SAMPLE, 90000))) == TRAF_BOX
  {
    hide Traf, BoxBytes, Payload, TFHD_BOX, TFDT_BOX, TRUN_BOX, SDTP_BOX;
    var payload := TFHD_BOX + TFDT_BOX + TRUN_BOX + SDTP_BOX;
    TrafOfOne();
    LengthOfOne();
    SmallBox(TRAF, payload);
    assert [0, 0, 0, 93] + TRAF == [0, 0, 0, 93, 116, 114, 97, 102];
  }

  lemma LengthOfOne()
    ensures |TFHD_BOX + TFDT_BOX + TRUN_BOX + SDTP_BOX| == 85 && |TRAF_BOX| == 93 && |MFHD_BOX| == 16
  {
  }

  lemma KidsOfOne()
    ensures WriteAll(Moof(1, 90000, ONE_SAMPLE).kids) == MFHD_BOX + TRAF_BOX
  {
    hide Payload, BoxBytes, WriteAll, TRAF_BOX, Be32;
    var k := Moof(1, 90000, ONE_SAMPLE).kids;
    TrafBoxOfOne();
    OneBox(k[1]);
    SmallWord(1);
    SmallBox(MFHD, k[0].payload);
    LeafBytes(MFHD, k[0].payload, [k[1]]);
    assert k == [k[0]] + [k[1]];
  }

  /** The first movie fragment of a stream whose only sample is a key frame of nine bytes, at one second. */
  lemma OneSampleFragment()
    ensures Write(Moof(1, 90000, ONE_SAMPLE)) == [0, 0, 0, 117, 109, 111, 111, 102] + (MFHD_BOX + TRAF_BOX)
  {
    hide BoxBytes, WriteAll, TRAF_BOX, MFHD_BOX, Be32, Traf;
    var m := Moof(1, 90000, ONE_SAMPLE);
    KidsOfOne();
    LengthOfOne();
    SmallBox(MOOF, MFHD_BOX + TRAF_BOX);
    assert [0, 0, 0, 117] + MOOF == [0, 0, 0, 117, 109, 111, 111, 102];
  }

  lemma OneBox(b: Box)
    ensures WriteAll([b]) == BoxBytes(b.name, Payload(b))
  {
    hide BoxBytes, Payload;
    assert [b][1..] == [] && WriteAll([]) == [];
  }

  // ---------- the samples ----------

  /** The units a decoder finds in sample data: each behind its length. */
  function ReadUnits(b: Bytes): seq<Bytes>
    decreases |b|
  {
    if |b| < 4 then []
    else
      var n := ReadU32(b, 0);
      if n < 0 then [] else [Sub(b, 4, 4 + n)] + ReadUnits(Sub(b, 4 + n, |b|))
  }

  ghost predicate UnitsFit(units: seq<Bytes>) { forall k :: 0 <= k < |units| ==> |units[k]| < TWO32 }

  lemma FirstUnit(u: Bytes, rest: Bytes)
    requires |u| < TWO32
    ensures ReadU32(LengthPrefixed(u) + rest, 0) == |u|
    ensures Sub(LengthPrefixed(u) + rest, 4, 4 + |u|) == u
    ensures Sub(LengthPrefixed(u) + rest, 4 + |u|, |LengthPrefixed(u) + rest|) == rest
  {
    hide Be32, ReadU32;
    var b := LengthPrefixed(u) + rest;
    assert b == [] + Be32(|u|) + (u + rest);
    ReadBack([], |u|, u + rest);
  }

  /** The units of a frame come back. */
  lemma {:induction false} UnitsReadBack(units: seq<Bytes>)
    requires UnitsFit(units)
    ensures ReadUnits(UnitsData(units)) == units
  {
    hide LengthPrefixed, ReadU32, Sub;
    if units == [] {
    } else {
      FirstUnit(units[0], UnitsData(units[1..]));
      UnitsReadBack(units[1..]);
    }
  }

  /** The sizes of the first samples, as the track run tells them. */
  function SizesRead(trun: Bytes, n: nat): int {
    if n == 0 then 0 else SizesRead(trun, n - 1) + ReadU32(trun, 12 + 16 * (n - 1) + 4)
  }

  lemma {:induction false} SizesReadIs(track: Track, part: nat, n: nat)
    requires n <= |track.samples|
    requires forall i :: 0 <= i < n ==> track.samples[i].size < TWO32
    ensures SizesRead(TrunPayload(track, part), n) == SumSizes(track.samples[..n])
  {
    hide ReadU32, TrunPayload;
    if n == 0 {
    } else {
      SizesReadIs(track, part, n - 1);
      SampleWritten(track, part, n - 1);
      SumsSnoc(track.samples[..n - 1], track.samples[n - 1]);
      assert track.samples[..n] == track.samples[..n - 1] + [track.samples[n - 1]];
    }
  }

  /** From the written bytes alone: the data offset, the sizes before sample i and its own size lead to its units, in
      any fragment that 32 bits can address. */
  lemma SampleDataRead(sequenceNumber: nat, base: nat, id: nat, l: seq<Frame>, last: int, i: nat)
    requires i < |l|
    requires |WriteAll(Fragment(sequenceNumber, base, Track(id, true, Samples(l, last)), MediaData(l)))| < TWO32
    ensures var track := Track(id, true, Samples(l, last));
      var file := WriteAll(Fragment(sequenceNumber, base, track, MediaData(l)));
      var trafs := FindFrom(file, [MOOF, TRAF], 0);
      && |trafs| == 1
      && var truns := FindFrom(trafs[0], [TRUN], 0);
        && |truns| == 1
        && var at, size := ReadU32(truns[0], 8) + SizesRead(truns[0], i), ReadU32(truns[0], 12 + 16 * i + 4);
          && 0 <= at <= at + size <= |file| && 0 <= size && ReadUnits(file[at..at + size]) == l[i].units
  {
    hide Write, WriteAll, Moof, UnitsData, MediaData, Samples, SummedPart, DataOffset, SumSizes, ReadU32, TrunPayload,
      FindFrom, Payload, Traf, SizesRead, ReadUnits, BoxBytes;
    var track := Track(id, true, Samples(l, last));
    FileIs(sequenceNumber, base, track, MediaData(l));
    MoofLength(sequenceNumber, base, track);
    FragmentReadBack(sequenceNumber, base, track, MediaData(l));
    DataPlaced(sequenceNumber, base, id, l, last, i);
    OffsetStored(track, SummedPart(track));
    DataOffsetIs(sequenceNumber, base, track);
    SizesFit(l, last);
    SizesReadIs(track, SummedPart(track), i);
    SampleWritten(track, SummedPart(track), i);
    UnitsFitIn(l[i].units);
    UnitsReadBack(l[i].units);
  }

  lemma FileIs(sequenceNumber: nat, base: nat, track: Track, data: Bytes)
    ensures WriteAll(Fragment(sequenceNumber, base, track, data)) ==
      Write(Moof(sequenceNumber, base, track)) + BoxBytes(MDAT, data)
    ensures |BoxBytes(MDAT, data)| == 8 + |data|
  {
    hide Moof, BoxBytes;
    var forest := Fragment(sequenceNumber, base, track, data);
    assert forest[1..][1..] == [] && WriteAll([]) == [];
    assert WriteAll(forest[1..]) == Write(forest[1]) + WriteAll([]);
  }

  lemma SizesFit(l: seq<Frame>, last: int)
    requires |MediaData(l)| < TWO32
    ensures forall i :: 0 <= i < |l| ==> Samples(l, last)[i].size == |UnitsData(l[i].units)| < TWO32
  {
    hide UnitsData, MediaData;
    forall i | 0 <= i < |l| ensures |UnitsData(l[i].units)| < TWO32 {
      MediaAround(l, i);
    }
  }

  lemma {:induction false} UnitsFitIn(units: seq<Bytes>)
    requires |UnitsData(units)| < TWO32
    ensures UnitsFit(units)
  {
    hide LengthPrefixed;
    if units == [] {
    } else {
      UnitsFitIn(units[1..]);
      forall k | 0 <= k < |units| ensures |units[k]| < TWO32 {
        assert k > 0 ==> units[k] == units[1..][k - 1];
      }
    }
  }
}
