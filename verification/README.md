# sacd-rs in Dafny

A model of the path that audio takes through sacd-rs, from the raw 2048-byte sectors of an SACD area
to the bytes of the DSF files, with the byte formats around it: the ID3 footer, the track-text table,
the response framing of the network reader, and the track selection of the command line. `dafny
verify dfyconfig.toml` checks everything.

## How the pieces fit

* **Sectors to frames.** `AudioPackets` decodes a sector into the packets the framing layer sees, and
  `FrameParser` is that layer as a function on values: the parser state, one step per packet, the end
  of a sector, `flush`. The class `AudioSectorParser` has the source's fields and loops and is proved
  to do exactly this. `FramingTheorems`, `FrameProvenance` and `PlainDsd` prove what holds for
  arbitrary sectors, well-formed or not. `SectorEncoding` and `Demux` prove the round trip from
  multiplexed frames, for sectors with and without DST, and `AreaStream` what any range of an area's
  sectors yields, by the numbers of the frames.
* **Bytes to files.** `BlockInterleave` defines the interleaving of whole groups of 4096 bytes per
  channel and its inverse, `DsfFile` the file layout and an independent reader that follows chunk
  sizes. The class `DsfWriter` has the source's channel buffers, counters and in-place patches and is
  proved to produce `FinalFile`; `DsfTheorems` says what such a file contains.
* **Tracks.** `TrackWindows` models the sector ranges, from a track list or estimated, and the timecode
  filters of a track, `TrackChain` the loop over the selected tracks with its pending carry, `Gapless`
  and `TrackFiles` what the files of any selection contain, in terms of track numbers, `TrackSelection`
  the parsing of the selection itself.
* **The pipeline.** `Pipeline` is a transition system: producer, decoder and writer, two bounded
  channels, any scheduling, and a possible fault at every read, write and thread-pool creation.
  `PipelineSafety` holds its invariant, `PipelineTheorems` deadlock freedom, termination and meaning.
* **End to end.** `Extraction` connects one track's pipeline to its sectors, `DiscExtraction` and
  `PlainExtraction` connect all or consecutive tracks of a disc to the bytes of their DSF files, for
  DST and for uncompressed areas, with a track list and without.
* **Names.** `Id3Footer` builds the footer as the source does, `Id3Tag` is a reader that walks it by its
  sizes, `Id3Theorems` proves that no frame is there twice, and `Id3Contents` what a reader finds under
  each identifier.

Throughout, a loop or an object that the source updates step by step is a method or a class that is
proved against a function, and the theorems are about that function. Every induction is written out:
the lemmas carry `{:induction false}`.

## Modelling assumptions

* `decode_frame` of the external DST decoder is any function from a raw frame to a result. Where a
  theorem needs it, `WholeRows` says that a decoded frame has as many bytes for each channel. The
  parallel map over a batch keeps the order and fails if one of its frames does.
* A stage of the pipeline takes one step at a time. Whether a read, a write or the creation of the
  thread pool fails is decided freely at each step. A stage learns of another's end only through the
  channel ends that it dropped.
* Bytes are integers below 256; masks and shifts are written as `%` and `/` by powers of two, and the
  byte of `reverse_bits` is a bit vector. `u8` casts truncate. 32-bit LSN sums and the index of a
  track number wrap around, as in release builds. 64-bit counters do not overflow.
* `pre_load_carry` asserts that there is a tail for every channel and, in debug builds, that all tails
  are equally long; a carry that fails either check is modelled as the error `CarryMismatch`.
* Library calls on strings and lists (`split`, `trim`, `parse`, `sort_unstable`, `find`) are functions.
* Texts are sequences of Unicode characters; the lossy conversion from bytes is any function.

## Where a simple claim would be false

Each item has its exact condition, and a lemma with an input that fails.

* For uncompressed areas `total_bytes` counts a flushed tail twice. `PlainDsd.FlushCompletes` says when
  it is right, `PlainDsd.FlushedTailExists` gives a sector after which it is not. The timecode filter
  does not apply to these areas at all.
* `flush` drops a frame outside the filter without counting it. `FramingTheorems.FilterFlush` gives the
  condition under which the counters still agree, `FramingTheorems.UncountedDropExists` a sector after
  which they do not.
* The comment at src/scarletbook/audio.rs:723-726 says that the last frame of a sector is left to
  `flush`. The code yields it at the end of the sector: `FramingTheorems.RunKeepsWellFormed` and
  `Demux.DemuxRoundTrip` state what the code does.
* `sample_count` leaves out bytes that were carried in, unless the file itself ends with a carry:
  `DsfTheorems.SampleCountExact`, and two tracks that show it in `Gapless.UncountedSamplesExist`.
* Carry tails are equally long exactly if the bytes so far are a multiple of the channel count:
  `DsfTheorems.CarryTailsEqual`, and two tracks whose carry does not fit in `Gapless.UnevenCarryExists`.
* A track that reaches past 256 minutes loses the frames outside its wrapped filter:
  `TrackWindows.FilterPastTheEnd`, `TrackWindows.KeepsAllFrames`, and the area in
  `TrackWindows.LateTrackExists`.
* A response is refused if a read before its last goes past the size limit. With reads of at most 8192
  bytes, messages within the limit always arrive (`ResponseFraming.MessageArrives`), messages of 8192
  bytes more never do (`ResponseFraming.TooBigIsRefused`), and between them the cut decides
  (`ResponseFraming.CutDecides`, for the response in `ResponseFraming.OversizedResponse`).

## Model

| member | source | states |
|---|---|---|
| BitOrder.ReverseBit | src/scarletbook/dsf.rs:313-319 | bit i of the swapped byte is bit 7-i of the original |
| BitOrder.ReverseBitsInvolution | src/scarletbook/dsf.rs:313-319 | reversing the bits of a byte twice gives the byte back |
| AudioPackets.SectorFits | src/scarletbook/audio.rs:264-330 | a sector parses if and only if its header size plus the sum of all packet lengths fits it |
| AudioPackets.WalkStaysStopped | src/scarletbook/audio.rs:322-330 | after the first packet that leaves the sector nothing more of the sector is read |
| AudioPackets.InfoCountIsNumber | src/scarletbook/audio.rs:87-91 | the count made of the three time bytes of a frame is the disc frame they name, at 60 seconds a minute and 75 frames a second |
| AudioSectorParserClass.AudioSectorParser.constructor | src/scarletbook/audio.rs:160-174 | a new parser has no open frame, an empty buffer, zero counters and no filter |
| AudioSectorParserClass.AudioSectorParser.SetTimecodeFilter | src/scarletbook/audio.rs:193-208 | the window goes from the disc frame that the first time names to the one that the second names, and nothing else changes |
| AudioSectorParserClass.AudioSectorParser.ReadPacketInfos | src/scarletbook/audio.rs:264-288 | all packet entries of a full sector are read, and the offset ends behind them |
| AudioSectorParserClass.AudioSectorParser.ReadFrameInfos | src/scarletbook/audio.rs:290-319 | all frame infos are read, in three or four bytes each as the header byte asks for; what these are for encoded sectors says SectorEncoding.SectorRoundTrip |
| AudioSectorParserClass.AudioSectorParser.AcceptPacket | src/scarletbook/audio.rs:382-477 | one audio packet moves the object, and adds to its yields, as one step of the framing layer does |
| AudioSectorParserClass.AudioSectorParser.ProcessPackets | src/scarletbook/audio.rs:321-480 | the loop over the packets is the walk over the sector followed by the framing layer, up to the first packet that does not fit |
| AudioSectorParserClass.AudioSectorParser.ParseSector | src/scarletbook/audio.rs:231-519 | every field of the object and the result are those of the parser on values, on success and on every error |
| AudioSectorParserClass.AudioSectorParser.Flush | src/scarletbook/audio.rs:524-551 | the same for flush |
| FramingTheorems.RunKeepsWellFormed | src/scarletbook/audio.rs:408-517 | in any DST run the countdown stays in 0..31, no open frame means an empty buffer, a buffered frame has a timecode, and after a successful call flush can only return an unfinished frame |
| FramingTheorems.SectorResult | src/scarletbook/audio.rs:231-330 | a sector is refused as too short exactly below 2048 bytes, and then changes nothing; a longer one is refused exactly if its header and packets do not fit it |
| FramingTheorems.FilterCommutes | src/scarletbook/audio.rs:408-517 | with and without a filter the same sectors fail and the framing state is the same; the filtered output is the unfiltered one restricted to the window; frames decoded without filter are those decoded plus those filtered |
| FramingTheorems.FilterFlush | src/scarletbook/audio.rs:524-545 | flush restricts in the same way, and the counters still agree exactly if it dropped nothing |
| FramingTheorems.UncountedDropExists | src/scarletbook/audio.rs:535-538 | a sector after which flush drops a frame that no counter shows |
| FramingTheorems.ExtractionIsFiltered | src/scarletbook/audio.rs:231-551 | a whole extraction with a filter, flush included, is the unfiltered one restricted to the window |
| FramingTheorems.FramesAreAccountedFor | src/scarletbook/audio.rs:383-517 | accepted frame starts are the frames decoded, filtered, abandoned and still open |
| FramingTheorems.CountersMatchYields | src/scarletbook/audio.rs:421-430 | without failing sectors, decoded_frames and total_bytes are the number and the size of the frames returned, and last_yielded_timecode is that of the last one |
| FrameProvenance.YieldsAreExplained | src/scarletbook/audio.rs:408-517 | each yielded frame is the payload of its own start packet followed by all continuations up to the point where it went out, which is the next frame start, or the end, of the sector that yielded it; it then has all its announced packets |
| FrameProvenance.CutIsUnique | src/scarletbook/audio.rs:408-517 | for a start packet and a sector there is only one such point |
| PlainDsd.BytesAreConserved | src/scarletbook/audio.rs:472-489 | for uncompressed areas the yields followed by the buffer are the payload of all sectors, in order |
| PlainDsd.FlushCompletes | src/scarletbook/audio.rs:545-550 | with the flushed chunk the payload is complete; total_bytes is its length if and only if nothing was flushed |
| PlainDsd.FlushedTailExists | src/scarletbook/audio.rs:545-549 | a sector after which total_bytes counts a byte twice |
| PlainDsd.SectorPayload | src/scarletbook/audio.rs:264-330 | a 2048-byte sector carries at most 2045 bytes of audio |
| PlainDsd.ChunkSizes | src/scarletbook/audio.rs:484-489 | a call yields at most one chunk and leaves fewer than 32768 bytes buffered |
| PlainDsd.AllChunkSizes | src/scarletbook/audio.rs:484-489 | every chunk of a run is between 32768 and 34812 bytes long |
| SectorEncoding.HeaderRoundTrip | src/scarletbook/audio.rs:19-25 | decoding an encoded header byte gives back the DST bit and both counts, whatever the unused bit is |
| SectorEncoding.PacketInfoRoundTrip | src/scarletbook/audio.rs:41-50 | decoding an encoded packet entry gives it back, whatever the unused bit is |
| SectorEncoding.FrameInfoRoundTrip | src/scarletbook/audio.rs:67-85 | decoding an encoded frame info gives back its time, and in a DST sector its countdown, whatever the hint bits are |
| SectorEncoding.SectorRoundTrip | src/scarletbook/audio.rs:252-346 | for any legal layout, with or without DST, with any other packets between, more or fewer frame infos than starts, and any unused bits, the decoded packets are those laid out, and start number n has frame info number n |
| SectorEncoding.SmallPlainSector | src/scarletbook/audio.rs:252-346 | the bytes of the smallest sector without DST |
| SectorEncoding.SmallDstSector | src/scarletbook/audio.rs:569-583 | the bytes of the smallest sector with DST |
| Demux.MuxRun | src/scarletbook/audio.rs:382-517 | over any run of sectors the parser has yielded the whole frames so far and owes exactly the rest of the open one |
| Demux.WindowRoundTrip | src/scarletbook/audio.rs:231-551 | any window of a multiplexed stream, beginning and ending inside frames, yields its whole frames and the unfinished last one, restricted to the filter |
| Demux.DemuxRoundTrip | src/scarletbook/audio.rs:231-551 | frames of 1 to 31 packets, packed into sectors in any legal way, come out exactly and in order, and flush returns nothing |
| AreaStream.FrontCut | src/scarletbook/audio.rs:231-519 | where the packets of the first sectors of an area end within its frames |
| AreaStream.RangeYields | src/scarletbook/audio.rs:231-551 | any range of an area's sectors, wherever its bounds cut frames, yields with a filter exactly the frames of the area that the filter selects, if these begin and end in the range |
| AreaStream.FilterIsBetween | src/scarletbook/audio.rs:413-430 | filtering frames by timecode keeps exactly those whose time bytes name a disc frame in the window |
| BlockInterleave.AudioAt | src/scarletbook/dsf.rs:183-207 | byte j of block (k, ch) of the output is byte (k\*4096+j)\*C+ch of the input |
| BlockInterleave.AudioConcat | src/scarletbook/dsf.rs:183-207 | more input only adds to what is buffered; blocks already written stay |
| BlockInterleave.DeinterleaveAudio | src/scarletbook/dsf.rs:183-207 | de-interleaving the written blocks and adding the buffered bytes restores the input |
| BlockInterleave.WeaveOfColumns | src/scarletbook/dsf.rs:183-191 | dealing bytes out to channels and weaving them together again is the identity |
| BlockInterleave.ColumnOfWeave | src/scarletbook/dsf.rs:153-165 | weaving equally long tails and dealing them out again gives each channel its tail |
| DsfFile.PatchedHeader | src/scarletbook/dsf.rs:272-302 | the four patches turn the header of any estimate into the header with the final fields |
| DsfFile.PatchedElsewhere | src/scarletbook/dsf.rs:272-302 | no byte outside the four patched fields changes |
| DsfFile.DsdFields | src/scarletbook/dsf.rs:72-76 | a reader finds the chunk identifier, the chunk size, the file size and the metadata pointer at their offsets |
| DsfFile.FmtFields | src/scarletbook/dsf.rs:78-110 | a reader finds the whole fmt chunk: version 1, raw DSD, one bit a sample, blocks of 4096 bytes, the channels, sampling frequency and sample count; the channel type has as many speakers as there are channels from 1 to 6, four channels are quad, and any other number is stereo |
| DsfFile.DataFields | src/scarletbook/dsf.rs:112-115 | a reader finds the data chunk and its size |
| DsfWriterClass.DsfWriter.constructor | src/scarletbook/dsf.rs:61-132 | a new file is its header, which reads as DsfFile.FmtFields says, whatever the estimate, with nothing received |
| DsfWriterClass.DsfWriter.PreLoadCarry | src/scarletbook/dsf.rs:153-165 | the tails become the buffers, and the bytes received are the tails woven together |
| DsfWriterClass.DsfWriter.WriteByte | src/scarletbook/dsf.rs:183-208 | one byte is added, reversed, to the bytes received; full blocks go to the file, the rest is buffered |
| DsfWriterClass.DsfWriter.WriteSamples | src/scarletbook/dsf.rs:176-211 | the same for all bytes of a write, and decoded_bytes_total grows by their number |
| DsfWriterClass.DsfWriter.PadAndFlush | src/scarletbook/dsf.rs:250-256 | the file then holds the interleaving of the zero-padded stream |
| DsfWriterClass.DsfWriter.HoldBackOrPad | src/scarletbook/dsf.rs:236-259 | a begun group is returned as a carry in nopad mode and padded otherwise, and the file has the final audio |
| DsfWriterClass.DsfWriter.PatchHeader | src/scarletbook/dsf.rs:272-302 | the four seeks and writes patch exactly the four fields |
| DsfWriterClass.DsfWriter.Finalize | src/scarletbook/dsf.rs:235-306 | file and carry are those of the closed form, whatever was estimated at creation |
| DsfWriterClass.PushByte | src/scarletbook/dsf.rs:184-191 | round robin by position keeps the buffers the columns of what is left over |
| DsfWriterClass.AllFull | src/scarletbook/dsf.rs:193-198 | all channels have a full block exactly when the group is complete, and none ever has more |
| DsfWriterClass.PaddedAudio | src/scarletbook/dsf.rs:250-256 | padding every channel to a block is padding the interleaved stream to a group |
| DsfWriterClass.FinishedFile | src/scarletbook/dsf.rs:261-302 | footer and patches turn any intermediate file into the closed form |
| DsfTheorems.FinishedFileReads | src/scarletbook/dsf.rs:261-302 | a reader that follows the chunk sizes finds the true length 92 + audio + footer, the fmt chunk, the footer behind the metadata pointer (or 0 and none), and exactly the audio |
| DsfTheorems.AudioIsWholeGroups | src/scarletbook/dsf.rs:193-207 | the audio is a multiple of 4096 bytes per channel |
| DsfTheorems.PaddedLength | src/scarletbook/dsf.rs:250-256 | padding completes the last group and never adds a whole one |
| DsfTheorems.SampleCountIsStored | src/scarletbook/dsf.rs:286-296 | sample_count never exceeds the samples stored per channel |
| DsfTheorems.SampleCountExact | src/scarletbook/dsf.rs:286-296 | sample_count covers the whole stream if and only if nothing was carried in; a file that ends with a carry counts what it stores |
| DsfTheorems.OutputByte | src/scarletbook/dsf.rs:183-207 | output byte (k\*C+ch)\*4096+j is the reversed input byte (k\*4096+j)\*C+ch |
| DsfTheorems.ChunkingIsIrrelevant | src/scarletbook/dsf.rs:176-211 | how the input is split into writes makes no difference |
| DsfTheorems.PlayerRestores | src/scarletbook/dsf.rs:176-259 | undoing interleaving and bit order gives the input followed by less than one group of silence |
| DsfTheorems.CarryTailsEqual | src/scarletbook/dsf.rs:159-164 | the tails are equally long, as the next file demands, if and only if the bytes so far are whole rows; then they are shorter than a block |
| DsfTheorems.CarryRestores | src/scarletbook/dsf.rs:153-165 | weaving the tails again gives exactly the held-back bytes |
| TrackChain.WriteFrames | src/scarletbook/extractor.rs:326-345 | the writer receives all frames in order behind what it already had |
| TrackChain.WriteTrack | src/scarletbook/extractor.rs:174-192 | file and carry of one track are the closed form for the carried bytes followed by the decoded ones |
| TrackChain.ExtractTrack | src/scarletbook/extractor.rs:174-192 | a track fails exactly if its carry does not fit (as the assertions of a debug build find it, before anything is read) or its pipeline failed, and has its file and its carry otherwise |
| TrackChain.ExtractTracks | src/scarletbook/extractor.rs:532-625 | for any selection, the empty one standing for all tracks, the loop writes the files of the chain of tracks up to the first failure, whatever the estimates; what these files are in terms of track numbers says TrackFiles; a carry that does not fit is a failure, as for ExtractTrack |
| Gapless.RunIsGapless | src/scarletbook/extractor.rs:563-622 | the audio of a run of consecutive tracks, file after file, is the interleaving of all decoded audio, zero-padded exactly if the run ends with the last track of the area |
| Gapless.MissingTail | src/scarletbook/dsf.rs:238-248 | otherwise fewer than 4096 bytes per channel are missing, at the end |
| Gapless.PendingIsLatest | src/scarletbook/extractor.rs:615-617 | a pending carry belongs to the track before |
| Gapless.ExtractConcat | src/scarletbook/extractor.rs:563-622 | extraction goes on after any tracks from nothing but the pending carry |
| Gapless.GapDropsCarry | src/scarletbook/extractor.rs:600-603 | after a gap in the selection the files are as if nothing had been extracted before |
| Gapless.RunIsWritten | src/scarletbook/extractor.rs:563-622 | the same for the bytes of the files: a player that follows the chunk sizes finds in each file the track's footer, and file after file the one stream |
| Gapless.UnevenCarryExists | src/scarletbook/dsf.rs:159-164 | two consecutive tracks whose carry does not fit |
| Gapless.UncountedSamplesExist | src/scarletbook/dsf.rs:286-296 | two consecutive tracks, the second of which counts fewer samples than its stream has |
| TrackFiles.RowsSucceed | src/scarletbook/extractor.rs:563-622 | if every track delivers whole rows, no carry is ever refused, in any selection |
| TrackFiles.RunInSelectionPlays | src/scarletbook/extractor.rs:563-622 | nopad, any selection: wherever consecutive track numbers stand in it, with no track right before them, their files play the concatenation of what these tracks deliver as one stream with nothing of earlier tracks, padded exactly if they end the area; each file reads, with its own footer |
| TrackFiles.ConsecutiveTracksPlay | src/scarletbook/extractor.rs:532-625 | all tracks, or consecutive ones: the extraction succeeds and its files play the tracks as one stream |
| TrackFiles.PaddedTracksPlay | src/scarletbook/extractor.rs:532-625 | without nopad, any selection: each file plays its own track alone, padded, with its own footer, up to the first track that fails, whose error is reported |
| TrackWindows.CountIsNumber | src/scarletbook/extractor.rs:97-100 | the count made of a time of the table of contents is the disc frame it names |
| TrackWindows.FrameGetsItsNumber | src/scarletbook/audio.rs:408-445 | a frame whose info holds the time of disc frame n, below 256 minutes, gets the timecode n |
| TrackWindows.SetTrackFilter | src/scarletbook/extractor.rs:202-217 | the parser gets the window from the start count to start plus duration, both modulo 1152000 |
| TrackWindows.UsualNotation | src/scarletbook/extractor.rs:210-217 | the three bytes handed to the parser are the usual notation of the frame count modulo 1152000 |
| TrackWindows.TruncatedIsMod | src/scarletbook/extractor.rs:202-217 | a frame count that goes through the byte timecode is reduced modulo 1152000 |
| TrackWindows.TruncatedIsExact | src/scarletbook/audio.rs:193-208 | it survives if and only if it is below 256 minutes |
| TrackWindows.FilterPastTheEnd | src/scarletbook/extractor.rs:202-217 | which of its own frames a track keeps, wherever it starts: all if it ends below 256 minutes, those below the wrapped end if it starts there, none otherwise |
| TrackWindows.KeepsAllFrames | src/scarletbook/extractor.rs:202-217 | it keeps all of them if and only if it is empty or ends below 256 minutes |
| TrackWindows.LateTrackExists | src/scarletbook/extractor.rs:202-217 | an area whose track loses its only frame |
| TrackWindows.SectorsOfFormat | src/scarletbook/types.rs:49-60 | a known format has 16 sectors for three frames if it is 3-in-16, and 14 otherwise |
| TrackWindows.PlanOutcome | src/scarletbook/extractor.rs:76-137 | when a track can be planned at all, and which error is reported otherwise |
| TrackWindows.RangesTile | src/scarletbook/extractor.rs:118-136 | without a track list the estimated ranges begin where the one before ends, cover the area, are never reversed, and no 32-bit sum wraps |
| TrackWindows.EverySectorHasATrack | src/scarletbook/extractor.rs:118-136 | every sector of the area lies in exactly one estimated range |
| TrackWindows.ListedReads | src/scarletbook/extractor.rs:112-116 | a track with an entry in the track list reads exactly the sectors from its first one on, as many as the entry says |
| TrackWindows.ListedSectorHasATrack | src/scarletbook/extractor.rs:112-116 | if the entries follow each other, every sector from the first entry to the end of the last one is read by exactly one track |
| TrackWindows.WrappedEntryReadsNothing | src/scarletbook/extractor.rs:116-139 | an entry that reaches past the last 32-bit sector number wraps around, and its track reads nothing |
| TrackWindows.FiltersAbut | src/scarletbook/extractor.rs:202-217 | the filters of contiguous tracks are exact and adjacent |
| TrackWindows.ExactlyOneTrack | src/scarletbook/extractor.rs:202-217 | each timecode of the disc passes the filter of exactly one track |
| TrackWindows.TracksPartitionFrames | src/scarletbook/extractor.rs:202-217 | the tracks together emit each frame of their common range once, in stream order |
| PipelineSafety.InitialInv | src/scarletbook/extractor.rs:254-263 | the pipeline starts in a state with the invariant |
| PipelineSafety.InvKept | src/scarletbook/extractor.rs:263-466 | every step of every stage, failing or not, keeps it: written, in hand, queued and decoded frames followed by the decode of what is batched and queued raw are the decode of all frames sent; queues and batches are within their bounds, all batches but the last have 256 frames |
| PipelineSafety.WaitsOnlyFor | src/scarletbook/extractor.rs:254-474 | a stage waits exactly for room in a full queue, of 16384 frames or 4 batches, or for something in an empty one, whose other end is alive |
| PipelineSafety.ReadsInFull | src/scarletbook/extractor.rs:271-285 | a read that does not fail takes 256 sectors, or all that are left |
| PipelineTheorems.SomeStageRuns | src/scarletbook/extractor.rs:263-474 | a stage that waits for a channel waits for one that can run |
| PipelineTheorems.NoDeadlock | src/scarletbook/extractor.rs:263-474 | in every reachable state some stage can step, unless all have ended |
| PipelineTheorems.EveryStepDescends | src/scarletbook/extractor.rs:271-457 | every step lowers a weighted measure of unread sectors and frames in flight |
| PipelineTheorems.RunsTerminate | src/scarletbook/extractor.rs:263-474 | no run is longer than the measure of its start, every state keeps the invariant, and a run is stuck exactly if all stages have ended |
| PipelineTheorems.SuccessMeansReference | src/scarletbook/extractor.rs:468-514 | a state in which finalize is reached has written the in-order decode of all frames |
| PipelineTheorems.CompleteRunMeansReference | src/scarletbook/extractor.rs:263-516 | a successful run delivers what the sequential program computes, flush included, under any schedule; without faults it fails exactly if that program does |
| PipelineTheorems.CanComplete | src/scarletbook/extractor.rs:263-474 | whatever has happened so far, a run can be continued to its end without a further fault |
| PipelineTheorems.ReferenceIsReached | src/scarletbook/extractor.rs:263-516 | every track has a complete run with the result of the sequential program |
| PipelineTheorems.WrittenIsPrefix | src/scarletbook/extractor.rs:326-345 | at any moment of any run, failing or not, what was written is a prefix of the decoded track |
| Extraction.SetupRuns | src/scarletbook/extractor.rs:271-304 | what the producer parses is a run of the parser over each sector of the range, once and in order |
| Extraction.SetupFrames | src/scarletbook/extractor.rs:271-307 | the frames of the pipeline are the yields of that run and the flushed frame |
| Extraction.PlainTrackDelivers | src/scarletbook/extractor.rs:417-421 | a successful run over an uncompressed area delivers all payload bytes of the track's sectors in order |
| Extraction.TrackDelivers | src/scarletbook/extractor.rs:263-516 | a successful run over sectors that carry a window of a multiplexed stream delivers the decoded frames of the window that pass the track's filter |
| DiscExtraction.TrackFrames | src/scarletbook/extractor.rs:263-308 | what enters a track's pipeline is exactly the frames of the area that its filter selects, if the track's sector range holds them |
| DiscExtraction.FilterIsTrack | src/scarletbook/extractor.rs:202-217 | what a track asks the parser for are the disc frames from its start on, as many as its duration says |
| DiscExtraction.DiscToFiles | src/scarletbook/extractor.rs:532-625 | for a DST area whose sectors, in any legal layout, carry frames in time order, all or consecutive tracks whose sector ranges hold the frames with their numbers, and any schedules: every DSF file reads with its own header and footer, and together they play the block-interleaved, bit-reversed decode of exactly the frames whose disc frame numbers lie from the start of the first track to the end of the last, zero-padded exactly at the end of the area |
| DiscExtraction.ListedDiscToFiles | src/scarletbook/extractor.rs:532-625 | the same for a disc with a track list, in terms of its entries |
| DiscExtraction.TrackCanSucceed | src/scarletbook/extractor.rs:263-516 | such a track has a complete and successful run if the frames that its filter selects decode |
| DiscExtraction.SmallDiscRuns | src/scarletbook/extractor.rs:532-625 | there is a disc with successful runs for which all of this holds |
| PlainExtraction.EncodedAudio | src/scarletbook/audio.rs:252-346 | the payload that the parser finds in encoded sectors is the audio laid out in them |
| PlainExtraction.PlainDiscToFiles | src/scarletbook/extractor.rs:532-625 | for an uncompressed area whose sectors have any legal layouts, with three-byte frame infos or four-byte ones, and all or consecutive tracks with adjacent ranges of whole rows: the files play the audio laid out in all their sectors without a gap |
| PlainExtraction.ListedPlainDiscToFiles | src/scarletbook/extractor.rs:532-625 | the same for a disc with a track list: what is played are the sectors from the first entry to the end of the last one |
| PlainExtraction.EstimatesAreAdjacent | src/scarletbook/extractor.rs:112-137 | estimated ranges are adjacent |
| PlainExtraction.ListIsAdjacent | src/scarletbook/extractor.rs:112-116 | so are the ranges of a track list whose entries follow each other |
| ProtoWire.VarintRoundTrip | src/sacd_reader/net_reader.rs:112-114 | decoding an encoded 64-bit varint, whatever follows, gives it back |
| ProtoWire.VarintFits | src/sacd_reader/net_reader.rs:112-114 | no varint decodes to more than 64 bits |
| ProtoWire.ZeroIsNoKey | src/sacd_reader/net_reader.rs:110-113 | a zero byte is never a field key |
| ProtoWire.OneByteKeys | src/sacd_reader/net_reader.rs:112-114 | which single bytes are field keys, and of which fields |
| ProtoWire.SkipPrefix | src/sacd_reader/net_reader.rs:112-114 | an unknown field, groups included, is skipped alike when more bytes follow |
| ProtoWire.ValueIsSkipped | src/sacd_reader/net_reader.rs:112-114 | a value of an unknown field that is not a group is skipped exactly, by its wire type |
| ResponseFraming.ResponseRoundTrip | src/protos/sacd_ripper.proto:20-36 | decoding an encoded response gives it back |
| ResponseFraming.UnknownFieldIgnored | src/sacd_reader/net_reader.rs:112-114 | such a field leaves the response as it is |
| ResponseFraming.WrongWireType | src/protos/sacd_ripper.proto:20-36 | a field of the schema with another wire type than its own is an error |
| ResponseFraming.DecodeAppend | src/sacd_reader/net_reader.rs:112-114 | decoding a message and more bytes is decoding the message and going on from there |
| ResponseFraming.FramingIsUnambiguous | src/sacd_reader/net_reader.rs:110-130 | no proper prefix of a message that is followed by a zero inside the message decodes |
| ResponseFraming.ReceiveMessage | src/sacd_reader/net_reader.rs:95-140 | the loop stops at the first read after which a zero-terminated message is complete, at the end of the stream, or past the size limit, and has done that many reads |
| ResponseFraming.ReceiveAnyCut | src/sacd_reader/net_reader.rs:95-140 | for every cut into non-empty reads an unambiguous message is returned after exactly all the reads if the reads before the last keep within the limit, and refused earlier otherwise |
| ResponseFraming.NoEarlierEnd | src/sacd_reader/net_reader.rs:110-130 | what has arrived before the last read is no terminated message |
| ResponseFraming.MessageArrives | src/sacd_reader/net_reader.rs:95-140 | every valid message, unknown fields and any field order included, is recognised at its last byte and at no earlier read; it is returned exactly if the reads before the last keep within the limit, and always if the message does |
| ResponseFraming.ResponseArrives | src/sacd_reader/net_reader.rs:95-140 | so is the encoding of every response |
| ResponseFraming.FullBlockArrives | src/sacd_reader/net_reader.rs:93-140 | a response with up to one megabyte of data arrives, however the stream cuts it |
| ResponseFraming.CutDecides | src/sacd_reader/net_reader.rs:133-139 | a message less than 8192 bytes above the limit arrives with some cuts and is refused with others |
| ResponseFraming.TooBigIsRefused | src/sacd_reader/net_reader.rs:133-139 | a longer one is refused with every cut |
| ResponseFraming.OversizedResponse | src/protos/sacd_ripper.proto:20-36 | there are responses just above the limit |
| TrackText.WalkItem | src/scarletbook/area_toc.rs:399-450 | one turn of the loop stores one item and stops behind its zeros, or ends the walk at the end of the data |
| TrackText.ParseTrackText | src/scarletbook/area_toc.rs:336-454 | for arbitrary bytes every track has the texts of its items, and the two errors occur exactly for a table outside the data and a wrong signature |
| TrackText.ItemsRoundTrip | src/scarletbook/area_toc.rs:399-450 | items laid out one after the other, with any padding, are visited in order and completely |
| TrackText.TrackRoundTrip | src/scarletbook/area_toc.rs:372-451 | for any legal layout a track gets, by type, what its items leave |
| TrackText.UnterminatedItem | src/scarletbook/area_toc.rs:400-432 | an item whose text does not end before the data does ends the walk, and is not stored |
| TrackText.NoBlock | src/scarletbook/area_toc.rs:372-391 | a track whose table entry is missing, zero, or points behind the data has no texts |
| TrackText.TypeOfCode | src/scarletbook/types.rs:176-199 | codes 1 to 8 are the eight fields in order, 0x81 to 0x88 their phonetic forms, and all others unknown |
| TrackText.LastOfField | src/scarletbook/area_toc.rs:399-450 | of the items with the code of a field the last one with a text is kept |
| TrackText.NoneOfField | src/scarletbook/area_toc.rs:399-450 | a field for which no item has a text stays absent |
| TrackText.LastWins | src/scarletbook/types.rs:289-315 | that is the last non-empty text of the type |
| TrackText.OthersKeep | src/scarletbook/types.rs:289-315 | items of other types and empty texts change nothing |
| Id3Tag.SyncSafeRoundTrip | src/scarletbook/id3.rs:57-64 | the four bytes, all below 128, give back the size modulo 2^28, and the size itself if and only if it is below 2^28 |
| Id3Tag.TagRoundTrip | src/scarletbook/id3.rs:15-20 | walking the frames of a tag by their sizes ends at its end and recovers every frame, if and only if the body is below 2^28 bytes |
| Id3Tag.TextRoundTrip | src/scarletbook/id3.rs:22-37 | a text frame gives its text back if and only if that is Latin-1 without NUL |
| Id3Footer.EncodeIso8859 | src/scarletbook/id3.rs:22-29 | one byte per character, a question mark beyond Latin-1 |
| Id3Footer.TrimmedAscii | src/scarletbook/id3.rs:66-75 | the bytes before the first zero, without surrounding white space |
| Id3Footer.AsciiConcat | src/scarletbook/id3.rs:77-88 | the parts, each up to its first zero, one after the other |
| Id3Footer.FrameBuffer.PushFrame | src/scarletbook/id3.rs:15-20 | the bytes grow by exactly one frame |
| Id3Footer.FrameBuffer.AddAlbum | src/scarletbook/id3.rs:108-125 | album title, and the disc title as subtitle or in its place |
| Id3Footer.FrameBuffer.AddArtists | src/scarletbook/id3.rs:127-148 | track performer or its fallbacks, album artist, performer |
| Id3Footer.FrameBuffer.AddCatalogNumbers | src/scarletbook/id3.rs:157-170 | disc and album catalogue number, the album's in place of a missing one, and never the same twice |
| Id3Footer.RenderId3 | src/scarletbook/id3.rs:92-253 | the bytes rendered are the tag of the track's frames |
| Id3Theorems.FramesAreUnique | src/scarletbook/id3.rs:92-253 | for all metadata, two frames with the same identifier are TXXX frames with different descriptions |
| Id3Theorems.TextsRead | src/scarletbook/id3.rs:31-37 | the text of every text frame of every footer is found by its identifier, if and only if it is Latin-1 without NUL |
| Id3Theorems.UserTextsRead | src/scarletbook/id3.rs:39-47 | the value of every user frame is found by its description, if and only if it is Latin-1 without NUL |
| Id3Theorems.FooterReads | src/scarletbook/id3.rs:92-253 | for all metadata the footer reads back frame by frame if and only if its body is below 2^28 bytes, and its title is the track's if and only if that is Latin-1 without NUL |
| Id3Contents.TitleRead | src/scarletbook/id3.rs:102-106 | under TIT2 a reader finds the track's title, the phonetic one if there is no other, or a fixed text; here and below the text itself exactly if it is Latin-1 without NUL |
| Id3Contents.AlbumRead | src/scarletbook/id3.rs:108-125 | under TALB the album's title, or else the disc's |
| Id3Contents.SubtitleRead | src/scarletbook/id3.rs:112-125 | under DISCSUBTITLE the disc's title, exactly if there is an album title too and it differs or the set has more than one disc |
| Id3Contents.ArtistRead | src/scarletbook/id3.rs:127-135 | under TPE1 the track's performer, or else the disc's artist, or else the album's |
| Id3Contents.AlbumArtistRead | src/scarletbook/id3.rs:137-143 | under TPE2 the album's artist |
| Id3Contents.PerformerRead | src/scarletbook/id3.rs:145-148 | under PERFORMER the track's performer |
| Id3Contents.ComposerRead | src/scarletbook/id3.rs:150-155 | under TCOM the composer |
| Id3Contents.CatalogRead | src/scarletbook/id3.rs:157-170 | under Catalog Number the disc's number or else the album's, and under Album Catalog Number the album's if the disc has another one |
| Id3Contents.IsrcRead | src/scarletbook/id3.rs:172-187 | under TSRC the four parts of the code, each up to its first zero, exactly if one of them is not empty |
| Id3Contents.PartOfSetRead | src/scarletbook/id3.rs:188-194 | under TPOS the disc's number and the size of the set, which is at least one |
| Id3Contents.GenreRead | src/scarletbook/id3.rs:196-224 | under TCON the name of the track's genre if that is of the general table, or else of the first such of the disc, or else of the album |
| Id3Contents.YearRead | src/scarletbook/id3.rs:226-231 | under TYER the year in four digits |
| Id3Contents.DayRead | src/scarletbook/id3.rs:226-239 | under TDAT day and month in two digits each |
| Id3Contents.TrackNumberRead | src/scarletbook/id3.rs:241-243 | under TRCK the track's number, counted from one, and the number of tracks |
| Text.SplitJoin | src/main.rs:481-485 | splitting undoes joining, for pieces without the separator |
| Text.TrimOf | src/main.rs:482 | trimming takes away the white space on both sides and nothing else |
| Text.PaddedValue | src/scarletbook/id3.rs:226-239 | a padded number has the same value, and the digits asked for unless it needs more |
| Text.DecimalIsShort | src/scarletbook/id3.rs:188-194 | a decimal number has no superfluous zeros in front |
| TrackSelection.SelectPart | src/main.rs:481-519 | a part adds exactly the tracks of its span, each once, or reports what is wrong with it |
| TrackSelection.PieceParses | src/main.rs:481-519 | what a number or a range stands for, written with plus signs and white space or not, and which error it is otherwise: too large, zero, or backwards |
| TrackSelection.TooManyEnds | src/main.rs:485-488 | a part with more than one hyphen is no range |
| TrackSelection.ParseTrackSelection | src/main.rs:478-524 | an accepted selection is a non-empty, strictly increasing list of positive numbers, and their set is the union of the listed spans; otherwise the first wrong part is reported |
| TrackSelection.UnionDecides | src/main.rs:478-524 | the text alone decides the list |
| TrackSelection.NeighboursAreAdjacent | src/scarletbook/extractor.rs:600-603 | two consecutive selected tracks follow each other in the list, which is what the carry relies on |
| TrackSelection.SelectionRoundTrip | src/main.rs:478-524 | numbers and ranges, separated by commas, with plus signs and white space or not, select exactly the tracks they name |
| TrackSelection.PieceSelects | src/main.rs:478-524 | a single number or range selects its tracks in order, without a gap: the consecutive numbers that the end-to-end theorems ask for |

## Left out

* DST arithmetic decoding, which lives in an external crate; its length check is a debug assertion.
* Files, sockets, seeks in real files and buffered writers; a file is its byte sequence. The partly
  written file that a failed track leaves behind is not described.
* Thread panics, and the poisoned state they leave; timing statistics, progress bars and logging.
* The request that `send_req` writes, and the recursion limit of the protobuf library on nested groups.
* Unknown fields of a response that are groups: they are skipped as the library does, but no encoder for
  them is modelled.
* The cross-check of the channel hint, which only logs. Its mask clears the bit that six channels
  would need.
* DsfWriterClass.DsfWriter.PreLoadCarry: does not model carry tails of different lengths, which a
  release build accepts; a debug build asserts that there are none.
* TrackChain.ExtractTrack: such a carry ends the track with an error here, as in a debug build.
* TrackChain.ExtractTracks: the same.
* DsfWriterClass.DsfWriter.constructor: does not model a file with no channels, for which
  `write_samples` divides by zero.
* DiscExtraction.DiscToFiles: does not say what a track delivers whose sector range cuts a frame that its
  filter selects; `Extraction.TrackDelivers` does, for any range.
* Fixed-offset fields of the master and area TOC, genre and locale tables, list readers, and the choice
  between redundant TOC copies.
* Characters that `from_utf8_lossy` replaces: the conversion is a parameter.
* File names, the disc prefix, `dump_iso`, the ISO reader and the rest of the command line.
* TrackSelection.ParseTrackSelection: a range of many billions of tracks is accepted, as in the source;
  memory is not modelled.
