# Verification of the camera server and its player

A Dafny model of the parts of this repository where a mistake is hardest to see, and proofs of what they promise.

The camera's web server ships an HLS player, `webroot/hls.js` (hls.js 1.4.0, minified: nearly all its code is on line 1).
The model covers its byte-level media code and its buffer bookkeeping:

- **AES-128-CBC.** `AesField`, `AesMultiply`, `AesWalk`, `AesTables` (the class `xr`, `initTable`), `AesCipher`, `AesCbc`
  (FIPS 197 and NIST SP 800-38A as definitions), `AesDecrypter` (`xr.expandKey`, `xr.decrypt`), `AesFigure7` and `AesVectors`
  (the S-box and the examples of FIPS 197), `StreamDecrypter` (`Fr`).
- **MPEG-TS and H.264.** `PesParser` (`wi`), `Timestamps` (`Gi`), `NalSplit`, `NalParser` and `NalHeadless`
  (`parseAVCNALu`), `Emulation` (`Ot`), `Bits` and `BitReader` (`Si`).
- **Fragmented MP4.** `Mp4Boxes` and `Mp4Tree` (`Fi.box`, `bt`, `Rt`), `Mp4Fragment` (`Fi.moof`, `traf`, `trun`, `sdtp`,
  `Ct`), `Mp4TrackRun` and `Mp4ReadBack` (what is read back of it), `Mp4Passthrough` (the start and duration readers of
  `ji.remux`), `VideoRemuxer` (`Bi.remuxVideo`), `StableSort`, `Sequences`.
- **Buffer bookkeeping.** `BufferHelper` (`Ar.bufferedInfo`), `OperationQueue` (`Ln`, `kn.blockBuffers`, `kn._onSBUpdateEnd`).

The server's own C code adds a concurrent core and two small loops:

- **`SampleFanout`**: streaming threads feed a locked list of source pairs that live inside sessions, while the main thread
  connects, records, stops, closes and frees those sessions. It is a transition system whose steps are the lock-protected
  sections and the stretches between them (`gst-app.c`, `soup.c`). **`SampleProgress`** says that nothing waits for ever.
  **`RecordingControl`** adds the recording flag and the
  reference counts, and what single stops and starts do to them; **`RecordingRuns`** holds runs that go wrong.
- **`StringReplace`**: the in-place string replacement used with older GLib (`soup.c`).
- **`FileReceiver`**: the chunked file receiver of a data channel (`gst-app.c`).

Objects that the source updates in place are classes here, loops over buffers are loops over arrays, and each method is
tied to a function or predicate about which the properties are proved. Bytes are integers from 0 to 255 or 8-bit vectors,
32-bit words are bit-vectors or integers reduced modulo 2^32, times are integers, buffered ranges are reals. Thrown errors
are results.

Where the code does not do what one would expect, the model follows the code and says exactly when it does:

- `parseAVCNALu` appends a whole packet to the last unit a second time when the packet's first start code is its end.
- A NAL header byte that is missing or zero right after a packet-ending start code restarts the zero count of the splitter.
  The units are still right exactly when no start code begins at the zero, or a byte of unit type 0 follows an empty packet.
- Padding is taken off the last piece only, so a padding count beyond that piece depends on how the stream was cut.
- A record stop is obeyed from any session. The recording flag stays right exactly when the stop comes from the session
  that records or nobody does, and no source reference is dropped twice exactly when the session records or never did.
  Listed pairs and deliveries are not harmed by the stop itself.
- With the flag cleared that way the recording session can start again while its pair is still listed. Exactly then the
  pair stands on the list twice: its new source gets every sample twice, and when the session closes one node stays
  behind and points into freed memory.
- The version-1 base time is refused when its upper word is 2^32 - 1, although it could be meant.
- A default sample duration in a fragment header is misread behind a base data offset, which is not stepped over.
- A box of size 1 is taken to the end of the data, its eight bytes of length with it.
- A file announced under a name that already exists is opened without truncation, so a longer old file shows behind the new one.
- A PES packet with a start code but fewer than nine bytes ends in a range error rather than in a refusal.

## Model

| member | source | states |
|---|---|---|
| `AesMultiply.DoubleRight` | webroot/hls.js:1 | field multiplication commutes with multiplication by x on the right, reduction included (section 4.2 of FIPS 197) |
| `AesWalk.InverseIff` | webroot/hls.js:1 | along the walk that the table loop takes, an element times the k-th power is one exactly when it is the k-th element of the second walk: `g` always holds the inverse of `f` |
| `AesWalk.NoEarlyReturn` | webroot/hls.js:1 | the step of the table loop generates the field: no power before the 255th is one again |
| `AesWalk.TurnsDiffer` | webroot/hls.js:1 | no two of the 256 turns of the table loop meet the same byte, nor the same inverse, so no table entry is written twice |
| `AesTables.FoldedIsAffine` | webroot/hls.js:1 | the shifted and folded sum is the affine transformation of section 5.1.1 of FIPS 197 |
| `AesTables.SpreadMixes` | webroot/hls.js:1 | the multiplied-together word and its rotations are the InvMixColumns images of one byte in the four rows |
| `AesTables.InitTable` | webroot/hls.js:1 | the loop of `initTable`, filling its arrays in place, builds the S-boxes of FIPS 197 and inverse mixing tables that satisfy their defining equations |
| `AesTables.StandardBoxesValid` | webroot/hls.js:1 | the S-box of FIPS 197 and its inverse undo each other |
| `AesField.InvMixColumnAdd` | webroot/hls.js:1 | InvMixColumns is linear, the fact behind the Equivalent Inverse Cipher |
| `AesField.InvMixMix` | webroot/hls.js:1 | InvMixColumns undoes MixColumns |
| `AesCipher.InvRoundsUndo` | webroot/hls.js:1 | after r rounds the inverse cipher is back at the state the cipher had before its last r rounds |
| `AesCipher.InvCipherUndoes` | webroot/hls.js:1 | the inverse cipher undoes the cipher, for every key and block |
| `AesCbc.DecryptEncrypt` | webroot/hls.js:1 | CBC decryption undoes CBC encryption (section 6.2 of NIST SP 800-38A) for every key, initial vector and number of blocks |
| `AesCbc.DecryptEncryptBytes` | webroot/hls.js:1 | the same over byte strings |
| `AesCbc.DecryptBytesAppend` | webroot/hls.js:1 | decryption can be cut between blocks, the last sixteen ciphertext bytes becoming the next initial vector |
| `AesDecrypter.ForwardSchedule` | webroot/hls.js:1 | the key schedule loop of `expandKey` computes the key expansion of section 5.2 of FIPS 197 |
| `AesDecrypter.InverseSchedule` | webroot/hls.js:1 | the inverse key schedule holds the round keys backwards, reordered, the inner ones mixed through the tables |
| `AesDecrypter.RoundStep` | webroot/hls.js:1 | one table-driven round on the reordered words is one round of the Equivalent Inverse Cipher (section 5.3.5 of FIPS 197) |
| `AesDecrypter.LastStep` | webroot/hls.js:1 | the last, S-box-only round completes the inverse cipher |
| `AesDecrypter.DecryptWords` | webroot/hls.js:1 | the round loop computes the inverse cipher of a block |
| `AesDecrypter.SwappedWords` | webroot/hls.js:1 | the byte-swapped words of a little-endian view are the columns of the big-endian block |
| `AesDecrypter.Decrypter.constructor` | webroot/hls.js:1 | a new decrypter builds its own tables, which are the standard ones |
| `AesDecrypter.Decrypter.ExpandKey` | webroot/hls.js:1 | installs a key and both schedules, and does nothing for the key already installed |
| `AesDecrypter.Decrypter.Decrypt` | webroot/hls.js:1 | the whole block loop with its in-place output array is CBC decryption with the S-boxes of FIPS 197 |
| `AesFigure7.Turn` | webroot/hls.js:1 | one turn of the table loop gives one entry of the S-box: the affine image of the inverse it holds |
| `AesFigure7.Rows0` | webroot/hls.js:1 | rows 0 and 1 of figure 7 of FIPS 197; seven more lemmas give the other rows |
| `AesVectors.KeysA1` | webroot/hls.js:1 | the round keys of the example in appendix A.1 of FIPS 197, all ten |
| `AesVectors.CipherC1` | webroot/hls.js:1 | the example of appendix C.1, through its ten round states |
| `AesVectors.DecryptsC1` | webroot/hls.js:1 | the ciphertext of appendix C.1 decrypts, under any initial vector, to its plaintext added to that vector |
| `AesVectors.PlayerDecryptsC1` | webroot/hls.js:1 | the decrypter object gives that result from the bytes of the key, the vector and the ciphertext |
| `StreamDecrypter.GetValidChunk` | webroot/hls.js:1 | cuts off the longest prefix of whole blocks; nothing is lost |
| `StreamDecrypter.PushKeeps` | webroot/hls.js:1 | one push keeps the invariant over remainder, carried initial vector and withheld result |
| `StreamDecrypter.RunDecrypts` | webroot/hls.js:1 | every cutting of an aligned ciphertext into pushes, then a flush, yields its one-shot decryption |
| `StreamDecrypter.RunUnpads` | webroot/hls.js:1 | with padding removal, for any last byte, what is handed out; the counted bytes are dropped from the whole if and only if the piece decrypted last has as many, which valid padding never exceeds (section 6.3 of RFC 5652) |
| `StreamDecrypter.CutBetweenBlocks` | webroot/hls.js:1 | under every key, a two-block ciphertext whose plaintext ends in a count of 17: in one piece 17 bytes are dropped, cut between the blocks one byte |
| `StreamDecrypter.RunUnaligned` | webroot/hls.js:1 | a ciphertext that ends within a block: everything is handed out but the piece decrypted last |
| `StreamDecrypter.StreamRoundTrip` | webroot/hls.js:1 | any plaintext, padded, encrypted and delivered in any pieces, comes back whole |
| `StreamDecrypter.PlayerRoundTrip` | webroot/hls.js:1 | the same for the S-boxes the player builds, with nothing assumed |
| `StreamDecrypter.Decrypter.SoftwareDecrypt` | webroot/hls.js:1 | the object method is exactly one push: new remainder, initial vector and result, and the result of the push before |
| `StreamDecrypter.Decrypter.Finish` | webroot/hls.js:1 | flush hands out the withheld result, or nothing when a partial block is left, and resets |
| `NalSplit.SplitSnoc` | webroot/hls.js:1 | how one more byte changes the start-code split of a stream |
| `NalSplit.ScanIs` | webroot/hls.js:1 | what the scanning state (zeros seen, or start code just ended) means for the whole stream |
| `NalSplit.SplitLossless` | webroot/hls.js:1 | the split loses nothing after the first start code (Annex B of ITU-T H.264) |
| `NalSplit.SplitClean` | webroot/hls.js:1 | no unit contains a start code |
| `NalSplit.SplitKinds` | webroot/hls.js:1 | the type of a unit is in the low five bits of its header byte, and 0 without one |
| `NalParser.PatchDropsZeros` | webroot/hls.js:1 | patching the last unit of earlier packets keeps it right up to trailing zeros |
| `NalParser.PatchStored` | webroot/hls.js:1 | patching does the same to a unit as stored and as the splitter takes it: the zeros it takes back never reach a missing or zero header byte |
| `NalParser.PatchExactIff` | webroot/hls.js:1 | exactly when a unit ended by a later packet loses as many zeros as one ended in its own packet |
| `NalParser.AvcTrack.ParseAvcNalu` | webroot/hls.js:1 | after any packets the stored units are those of the concatenated stream up to trailing zeros, except exactly those whose packet ended with its first start code (there the whole packet is appended a second time); a packet without a non-zero header byte right after a start code is taken as if it had one, and its unit begins with what really stood there. Units that begin and end in the packet are exact but for the last of their trailing zeros |
| `NalParser.StartCodeLastDamages` | webroot/hls.js:1 | two packets after which the one stored unit is not the unit of the stream |
| `NalParser.ZeroHeaderMisses` | webroot/hls.js:1 | two packets of which a start code is missed because a zero stands for the header byte |
| `NalHeadless.StoredStandsIff` | webroot/hls.js:1 | for one packet without a non-zero header byte right after a start code, whatever comes before and after it: the stored units are those of the real stream if and only if no start code begins at the zero, or, for an empty packet, a byte of unit type 0 follows |
| `NalHeadless.ParseHeadless` | webroot/hls.js:1 | the same for a splitter object fed regular packets, such a packet, and any packets after it |
| `PesParser.Packet.JoinHeader` | webroot/hls.js:1 | joining leading fragments keeps the bytes and brings the header together |
| `PesParser.Packet.CopyPayload` | webroot/hls.js:1 | dropping a header that may end in any fragment copies exactly the rest |
| `PesParser.Packet.Parse` | webroot/hls.js:1 | every fragmentation of the same bytes is read alike: payload, times, length, refusal, or the range error of a packet too short for its header |
| `PesParser.TimeOfField` | webroot/hls.js:1 | the 33-bit time decode inverts the standard encoding (section 2.4.3.6 of ISO/IEC 13818-1) |
| `PesParser.WrittenReadsBack` | webroot/hls.js:1 | a written packet reads back: payload, declared length, and the times apart from the one-minute alignment |
| `PesParser.CutShortRefused` | webroot/hls.js:1 | every proper beginning of a packet that declares its length is refused, from six bytes on |
| `PesParser.BytesBehind` | webroot/hls.js:1 | bytes behind the declared end are handed out with the payload, and the length does not count them |
| `PesParser.OpenEnded` | webroot/hls.js:1 | a packet of no declared length may end anywhere behind its header, and gives what is there of its payload |
| `PesParser.NoPrefix` | webroot/hls.js:1 | bytes without the start code prefix are refused |
| `Timestamps.NormalizePts` | webroot/hls.js:1 | the loop with its direction chosen once ends, and computes the turn nearest to the reference |
| `Timestamps.UnwrapIs` | webroot/hls.js:1 | the result is congruent to the input modulo 2^33, within 2^32 of the reference, and stable |
| `Timestamps.UnwrapRecovers` | webroot/hls.js:1 | a time less than half a turn from the reference is recovered from its wrapped value |
| `Mp4Boxes.FindBox` | webroot/hls.js:1 | the box search ends on any bytes and finds the payloads of its recursive definition |
| `Mp4Boxes.WriteBox` | webroot/hls.js:1 | the two loops of the box writer yield size, name and the parts in order |
| `Mp4Boxes.ReadBack` | webroot/hls.js:1 | a 32-bit word is read back from where it was written, modulo 2^32 |
| `Mp4Tree.FindWritten` | webroot/hls.js:1 | in the bytes of a forest the search finds exactly the payloads at the path, in document order (section 4.2 of ISO/IEC 14496-12) |
| `Mp4Tree.LastBoxOpen` | webroot/hls.js:1 | a last box of size 0 or 1, or cut short of its size, is found with all bytes to the end |
| `Mp4Fragment.TrunBytes` | webroot/hls.js:1 | the in-place track run writer |
| `Mp4Fragment.SdtpBytes` | webroot/hls.js:1 | the in-place sample dependency writer |
| `Mp4Fragment.MoofLength` | webroot/hls.js:1 | the true length of the movie fragment box |
| `Mp4Fragment.DataOffsetIs` | webroot/hls.js:1 | the hand-summed data offset is that length plus 8 |
| `Mp4Fragment.OffsetStored` | webroot/hls.js:1 | the 32-bit field of a written track run reads back the data offset modulo 2^32 |
| `Mp4Fragment.SampleDurations` | webroot/hls.js:1 | the duration reader with its optional fields, on any bytes |
| `Mp4Fragment.RunDurationWritten` | webroot/hls.js:1 | reading a written track run gives the sum of all sample durations as stored modulo 2^32, hence their sum when each fits its word (section 8.8.8 of ISO/IEC 14496-12) |
| `Mp4Fragment.DecodeTimeWritten` | webroot/hls.js:1 | the version-1 base time is read back exactly when its upper word is not 2^32 - 1 (section 8.8.12) |
| `Mp4Fragment.ShortDecodeTime` | webroot/hls.js:1 | a base time of another version is one word and never refused |
| `Mp4Fragment.FragmentReadBack` | webroot/hls.js:1 | the reader finds in a written fragment its one track fragment, and there the one box of each kind |
| `Mp4TrackRun.DurationOfRun` | webroot/hls.js:1 | for a track run with any subset of the optional fields, in the run and in its samples, the duration read is the sum of the stored durations when it has them and 0 when it has not (section 8.8.8 of ISO/IEC 14496-12) |
| `Mp4TrackRun.TrunIsStandard` | webroot/hls.js:1 | the written track run is the standard one with a data offset and all four sample fields |
| `Mp4TrackRun.SampleWritten` | webroot/hls.js:1 | duration, size, dependency, sync flag and composition offset of every sample read back at their places |
| `Mp4ReadBack.SequenceNumberRead` | webroot/hls.js:1 | the sequence number of a written fragment, found and read |
| `Mp4ReadBack.DependenciesRead` | webroot/hls.js:1 | the dependency byte of every sample, found and read |
| `Mp4ReadBack.OneSampleFragment` | webroot/hls.js:1 | every byte of the movie fragment of one key frame |
| `Mp4ReadBack.NamesSpelled` | webroot/hls.js:1 | the box names |
| `Mp4ReadBack.UnitsReadBack` | webroot/hls.js:1 | length-prefixed units read back |
| `Mp4ReadBack.SampleDataRead` | webroot/hls.js:1 | from the written bytes alone, the data offset, the sizes before a sample and its own size lead to its units, in any fragment of less than 2^32 bytes |
| `Mp4Passthrough.MediaDuration` | webroot/hls.js:1 | the loops over track fragments and runs sum the durations of audio and video; video counts first |
| `Mp4Passthrough.SegmentReadBack` | webroot/hls.js:1 | the search finds the track fragments of a written segment, in order |
| `Mp4Passthrough.StartWritten` | webroot/hls.js:1 | the start read from a written segment is the least base time, in seconds, of the fragments whose track is known and whose base time is not refused |
| `Mp4Passthrough.DurationWritten` | webroot/hls.js:1 | the seconds read from a written segment are, for audio and for video, the stored durations of its known tracks, or their defaults where a run has none |
| `Mp4Passthrough.NoIndex` | webroot/hls.js:1 | a written segment has no segment index, so its runs alone tell how long it lasts |
| `Mp4Passthrough.SegmentSpan` | webroot/hls.js:1 | a segment of fragments that follow each other starts at the base time of the first and lasts to the end of the last: the end it reports is where the next fragment starts |
| `Mp4Passthrough.TrafRead` | webroot/hls.js:1 | a track fragment of any header and any number of runs, each with any optional fields, adds the seconds of all its runs |
| `Mp4Passthrough.TrackDefault` | webroot/hls.js:1 | without a default duration in the fragment header the track default counts |
| `Mp4Passthrough.DefaultReadIff` | webroot/hls.js:1 | a default duration in the fragment header is read, whatever it is, if and only if no base data offset stands in front of it and a sample description does when bit 1 of the track default sample flags is set |
| `Mp4Passthrough.OneSecond` | webroot/hls.js:1 | a time scale of 0 counts as 90000 |
| `Mp4Passthrough.VideoCounts` | webroot/hls.js:1 | of a segment with audio and video the video tells the duration |
| `VideoRemuxer.NormalizeFrames` | webroot/hls.js:1 | normalizes every time and notices exactly when decode times go back |
| `VideoRemuxer.InOrderSorted` | webroot/hls.js:1 | frames end up in decode order, and are the same frames |
| `VideoRemuxer.FramesOrdered` | webroot/hls.js:1 | every time, less the initial one, is taken to its turn nearest to the reference; frames keep their order, or are sorted by decode time and then presentation time when decode times went back |
| `StableSort.SortStable` | webroot/hls.js:1 | array sorting is stable |
| `VideoRemuxer.TimelineContinues` | webroot/hls.js:1 | exactly when the first frame of a contiguous fragment moves to the end of the one before it, with its time from decoding to presentation; every other presentation time stays, and decode times are only clamped |
| `VideoRemuxer.AverageIs` | webroot/hls.js:1 | the average times one less than the frames is the span to within half a tick a frame |
| `VideoRemuxer.LastFrameIs` | webroot/hls.js:1 | exactly when the last frame is stretched, and that it then ends one usual duration before the audio |
| `VideoRemuxer.ReferenceIs` | webroot/hls.js:1 | the reference of a first fragment lies before its offset by the first composition offset |
| `VideoRemuxer.BuildTimeline` | webroot/hls.js:1 | order, join, clamp and size in the loops of `remuxVideo`; the size is that of the media data box, and the span of presentation times is found |
| `VideoRemuxer.WriteSamples` | webroot/hls.js:1 | the one pass that fills the media data box and the sample table |
| `VideoRemuxer.SampleTimes` | webroot/hls.js:1 | base time plus earlier durations is the sorted, clamped decode time of every sample, and with its composition offset the presentation time; all durations but the last are non-negative |
| `VideoRemuxer.MediaSize` | webroot/hls.js:1 | the size field of the media data box is 8 plus the sum of the sample sizes |
| `VideoRemuxer.DataPlaced` | webroot/hls.js:1 | every sample's length-prefixed units stand in the file exactly at the data offset plus the sizes before it, and the stored field reads that offset whenever it fits |
| `VideoRemuxer.Remuxer.RemuxVideo` | webroot/hls.js:1 | one call: the movie fragment, media data and times it returns, what it keeps and changes of the times of its frames, and the next decode time, frame duration and sequence number it leaves |
| `VideoRemuxer.RemuxTwo` | webroot/hls.js:1 | two calls in a row: the second fragment starts where the first one ends exactly when its first frame moves there, and that end is what the base time and the written durations of the first add up to unless its last frame is stretched or has no duration |
| `BitReader.Reader.LoadWord` | webroot/hls.js:1 | the next four bytes, or the short rest, become the window; the bits to come are unchanged |
| `BitReader.Reader.SkipBits` | webroot/hls.js:1 | skips that many bits of the list, across reloads; fails exactly when none would be left |
| `BitReader.Reader.ReadBits` | webroot/hls.js:1 | consumes that many bits across reloads, and fails exactly when none would be left; up to 31 bits are read as their number, 32 as a word |
| `BitReader.Reader.SkipLZ` | webroot/hls.js:1 | skips and counts the zeros before the next one bit |
| `BitReader.Reader.ReadUEG` | webroot/hls.js:1 | consumes the ue(v) codeword at the front of the list (section 9.1 of ITU-T H.264); up to 30 leading zeros it is read as its number, with 31 as its number modulo 2^32 |
| `BitReader.Reader.SkipUEG` | webroot/hls.js:1 | skips a codeword |
| `BitReader.Reader.ReadEG` | webroot/hls.js:1 | consumes the se(v) codeword at the front of the list, and reads its number up to 30 leading zeros |
| `BitReader.Joined` | webroot/hls.js:1 | shifting what one window gave and joining the next bits gives the number of all of them, as a word when they are 32 |
| `BitReader.UeDecodes` | webroot/hls.js:1 | every unsigned codeword whose number fits and that a bit follows is in reach of the readers, and no other codeword is there |
| `BitReader.SeDecodes` | webroot/hls.js:1 | the same for signed codewords |
| `BitReader.FirstCodewords` | webroot/hls.js:1 | the first codewords of tables 9-2 and 9-3 of ITU-T H.264 |
| `Emulation.RemoveEmulationPrevention` | webroot/hls.js:1 | the index-collecting scan and the copy loop remove exactly the emulation prevention bytes |
| `Emulation.CopyAround` | webroot/hls.js:1 | skipping at most one byte per copied byte is enough, because removals are never adjacent |
| `Emulation.PositionsSpaced` | webroot/hls.js:1 | collected indices are never adjacent |
| `Emulation.UnescapeEscaped` | webroot/hls.js:1 | removal undoes insertion for every payload behind its header byte (section 7.3.1 of ITU-T H.264) |
| `Emulation.RemoveDrops` | webroot/hls.js:1 | a 03 behind 00 00 is dropped, whatever stands before and behind it |
| `Emulation.RemoveKeeps` | webroot/hls.js:1 | bytes without 00 00 03 stay as they are |
| `Emulation.EscapedIsClean` | webroot/hls.js:1 | in escaped bytes two zeros are never followed by a byte below 3 |
| `BufferHelper.MergeRanges` | webroot/hls.js:1 | the merging loop: ranges apart by at least the tolerance, covering every input and bridging only shorter gaps |
| `BufferHelper.MergedIsComponents` | webroot/hls.js:1 | merged ranges are exactly the components of the input collection |
| `BufferHelper.SeeNext` | webroot/hls.js:1 | at most one merged range matches the position |
| `BufferHelper.AnswerPlain` | webroot/hls.js:1 | without a tolerance the answer tells of the match that starts latest and, among those, ends first |
| `BufferHelper.BufferedInfo` | webroot/hls.js:1 | length, start, end and next start equal their definition over the unordered input ranges, with a positive tolerance and without one |
| `BufferHelper.PairInfo` | webroot/hls.js:1 | the whole answer for two ranges, at any position and with any positive tolerance: they are one exactly when their gap is shorter than the tolerance |
| `OperationQueue.Controller.ExecuteNext` | webroot/hls.js:1 | starts the head of a queue, and the next ones when it is over at once; order and at-most-one-in-flight are kept |
| `OperationQueue.Controller.ShiftAndExecuteNext` | webroot/hls.js:1 | finishes the head and goes on |
| `OperationQueue.Controller.Append` | webroot/hls.js:1 | an operation joins its queue and is started if it is alone there |
| `OperationQueue.Controller.OnUpdateEnd` | webroot/hls.js:1 | the end of an update finishes the head, once, in append order |
| `OperationQueue.Controller.CreateSourceBuffers` | webroot/hls.js:1 | operations queued before their buffer existed start when it does |
| `OperationQueue.Controller.BlockBuffers` | webroot/hls.js:1 | a blocker joins each queue behind everything queued before |
| `OperationQueue.Controller.RunBarrier` | webroot/hls.js:1 | the callback of a barrier runs once, when every operation queued earlier on each blocked buffer has finished |
| `OperationQueue.NoDeadlock` | webroot/hls.js:1 | when no buffer is updating, queued operations never wait in vain: some barrier is ready |
| `SampleFanout.TakeKeeps` | gst-app.c:2431-2464 | a streaming thread taking the lock with a sample keeps the invariant |
| `SampleFanout.DeliverKeeps` | gst-app.c:2465-2468 | pushing to the source that the pair at the current node holds keeps the invariant |
| `SampleFanout.LeaveKeeps` | gst-app.c:2469 | so does giving the lock back at the end of the list |
| `SampleFanout.ConnectKeeps` | soup.c:496-532 | a new session starts in a legal shape |
| `SampleFanout.CommandKeeps` | soup.c:297-316 | start and stop commands from any session and a closing connection keep the invariant, a start that is let through finding its pair not listed |
| `SampleFanout.SessionsEdit` | gst-app.c:2409-2411 | an append or removal under the lock leaves every session in a legal shape |
| `SampleFanout.SessionsStep` | soup.c:534-561 | each step of closing a session, from sources to freed memory, leads from one legal shape to the next |
| `SampleFanout.SourcesStep` | gst-app.c:1459-1471 | every listed pair keeps holding the sources made for its registration: new ones go only into a pair no node points at |
| `SampleFanout.AppendOnce` | gst-app.c:1470 | an append keeps pairs single on the list if and only if the pair was not on it |
| `SampleFanout.AppendEntries` | gst-app.c:1469-1471 | an append registers a pair at the current end of both feeds |
| `SampleFanout.RemoveEntries` | gst-app.c:2085-2087 | a removal closes exactly one registration, having received everything up to it |
| `SampleFanout.StepKeeps` | gst-app.c:1358-1379 | every step of every thread keeps the invariant, under that one condition on starts |
| `SampleFanout.RunKeeps` | gst-app.c:2464-2469 | so does every run, in every interleaving and with stops from any session |
| `SampleFanout.ListedPairsLive` | soup.c:534-561 | in all these runs a listed pair lies in a session that is not freed and still owns its sources |
| `SampleFanout.ReceivesWhileListed` | gst-app.c:2464-2469 | in all these runs the sources of a listed registration receive exactly the samples taken meanwhile: in order, once each, none left out |
| `SampleFanout.ReceivedWhenRemoved` | gst-app.c:1372-1374 | and after its removal they have received exactly the slice between append and removal, and never more |
| `SampleProgress.SamplePasses` | gst-app.c:2464-2469 | with the lock free a sample of either medium can be taken, its thread reaches the end of the list and frees the lock, and every listed registration has received it once |
| `SampleProgress.NeverStuck` | gst-app.c:1469-1471 | from every state of a run with fresh starts, letting the threads go on brings the main thread to the end of its operation and frees the lock |
| `RecordingControl.FlagStep` | gst-app.c:1363-1371 | every step keeps the recording flag right, as long as nobody stops another session's recording |
| `RecordingControl.RunKeepsFlag` | soup.c:297-316 | over such runs the flag stays right, and every start that is let through finds its pair not listed |
| `RecordingControl.FlagMeansRecording` | gst-app.c:1054 | between callbacks of such runs the flag is set exactly when one live session has a pipeline |
| `RecordingControl.ReferencesReturned` | gst-app.c:1375-1378 | when no session that stopped recording is stopped again, every source reference is given back exactly once, and a freed session owns none |
| `RecordingControl.StopKeepsIff` | soup.c:312-315 | one stop from any session, whatever streams meanwhile: listed pairs still live and deliveries go on; the flag stays right if and only if that session records or nobody does; no reference is dropped twice if and only if it records or never did |
| `RecordingControl.StartKeepsIff` | soup.c:298-311 | one start that is let through, whatever streams meanwhile: pairs stay single on the list if and only if the session's pair was not on it |
| `RecordingRuns.StopByAnotherFails` | soup.c:312-315 | a reachable run: viewer 1 stops while viewer 0 records, the flag is wrong, and a second recording is let through |
| `RecordingRuns.TwiceDeliversTwice` | gst-app.c:1470 | the run goes on: viewer 0 starts again, its pair is listed twice, its new source gets every sample twice and the old registration none |
| `RecordingRuns.ClosedStaysListed` | soup.c:534-561 | the run goes on: viewer 0 closes, one of the two nodes is removed, and the other points into the freed session |
| `RecordingRuns.StopTwiceFails` | gst-app.c:1375-1377 | a reachable run: a session stops its recording twice and its references are dropped twice |
| `StringReplace.StrStr` | soup.c:628 | the first occurrence at or after a position |
| `StringReplace.GString.Replace` | soup.c:610-646 | the erase and insert loop ends and equals one left-to-right reading, with its count, limit and empty pattern; inserted text is not read again |
| `StringReplace.ReplacedIsJoined` | soup.c:610-646 | the string is its pieces joined by the pattern, the result the same pieces joined by the replacement; the count never exceeds a limit |
| `StringReplace.PiecesAreClean` | soup.c:628-643 | the matches are the leftmost ones, and unless the limit ran out none is left |
| `StringReplace.EmptyPatternPieces` | soup.c:634-641 | an empty pattern matches before each character and once at the end |
| `FileReceiver.Receiver.Announce` | gst-app.c:1911-1927 | an announcement drops the last file and opens the next, which keeps what a file of that name held |
| `FileReceiver.Receiver.Data` | gst-app.c:1858-1880 | the position is always the bytes written, the file what was written over what it held, and it is closed and handed to the player once, when the size is reached |
| `FileReceiver.CompleteIff` | gst-app.c:1859-1863 | a file completes exactly when some of its first chunks make up the announced size |
| `FileReceiver.AllAccepted` | gst-app.c:1858-1863 | when the chunks add up to the size, all their bytes are taken |
| `FileReceiver.WholeFileArrives` | gst-app.c:1858-1927 | such a file is closed and played once, and holds exactly the chunks if and only if no longer file of that name was there |
| `FileReceiver.LongerFileShows` | gst-app.c:1925 | two bytes sent under the name of a three-byte file leave its third byte behind them in a file that counts as complete |

## Left out

- NalParser.AvcTrack.ParseAvcNalu: a unit that a later packet ends is stated up to trailing zeros, PatchExactIff saying when their number is the usual one; the last unit emitted stands for `getLastNalUnit`, which asks the demuxer's samples.
- NalHeadless.ParseHeadless: the if-and-only-if is about one such packet in a run; for a unit that is also damaged by a packet ending with its first start code it goes one way, since such a unit is wrong already.
- AesDecrypter.Decrypter.ExpandKey: only the first sixteen bytes of a key are ever read by the source (four words), so its branches for longer keys cannot be reached and are not modelled; the encryption tables, which decryption does not use, are not built. A little-endian host is assumed.
- StreamDecrypter.Decrypter.SoftwareDecrypt: takes the byte arrays it is given as whole buffers (the source passes on their underlying buffers) and keys and initial vectors of at least sixteen bytes (the source throws on shorter ones); a key that changes in the middle of a stream is not part of the run theorems, and the browser's own decrypter is not modelled.
- PesParser.Packet.Parse: the fields of a packet after a range error are not modelled.
- Timestamps.NormalizePts: integer timestamps and references, as the property of congruence asks for.
- Mp4Passthrough.MediaDuration: what segment index boxes tell is a parameter, as is the initialization segment's table of tracks; seconds are reals. The rewriting of base times in place and the choice of the initial timestamp are not modelled.
- VideoRemuxer.Remuxer.RemuxVideo: integer times; the end of the audio for stretching the last frame is a parameter; the Safari branch that recomputes durations from presentation times, the flag patch for old Chrome versions, and a failed allocation are not modelled; the reported times are in ticks, which the source divides by the time scale.
- VideoRemuxer.DataPlaced: describes the `moof` and `mdat` of one video track; audio remuxing and initialization segments are not modelled.
- BitReader.Reader.ReadBits: says which bits are consumed for any count, but not what number more than 32 bits at a time or no bits give, for which the source logs an error or returns its window; the state after a thrown error is not modelled.
- BitReader.Reader.ReadUEG: the same for codewords of more than 31 leading zeros.
- BitReader.Reader.ReadEG: the same for codewords of more than 30 leading zeros.
- BufferHelper.BufferedInfo: reals for floating-point numbers, and nothing is said for a negative tolerance; the source also widens its input objects while merging, which is not modelled.
- OperationQueue.Controller.Append: `insertAbort` and operations that throw are not modelled, source buffers are created once, and what an operation's own callbacks append counts as a separate event.
- OperationQueue.Controller.RunBarrier: the callback makes no buffer update of its own here, so the test of `updating` that follows it always finds the buffer idle.
- SampleFanout.StepKeeps: audio is enabled and pipeline construction succeeds; the two sources of a pair share one reference count; `gst_object_unref` of a missing object does nothing. Motion-triggered recording, which is compiled out, is not modelled.
- SampleFanout.RunKeeps: runs in which a start that is let through finds its pair still listed are not covered; StartKeepsIff says that just those starts list a pair twice, and RecordingRuns where that leads.
- RecordingControl.FlagMeansRecording: runs in which one session stops another's recording are not covered; StopKeepsIff says what such a stop does.
- StringReplace.GString.Replace: the count does not wrap at 2^32, which no string here is long enough for.
- FileReceiver.Receiver.Data: every write is complete, and no other session uses the same file name; parsing the announcement is left out.
- Everything around these parts: pipeline and encoder construction, video device controls, the database, HTTP, TLS, authentication and signalling, JSON, the browser page, and the rest of the player (loaders, DRM, captions, bandwidth estimation, browser events, logging).
