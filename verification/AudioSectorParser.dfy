/** The parser object itself: byte offsets, loops and fields that change in place. */
module AudioSectorParserClass {
  import opened Bytes
  import opened AudioPackets
  import FP = FrameParser

  class AudioSectorParser {
    const frameFormat: FrameFormat
    var frameBuffer: seq<byte>
    var totalBytes: nat
    var decodedFrames: nat
    var filteredFrames: nat
    var dstSectorCount: nat
    var frameStarted: bool
    var timecodeFilter: Option<FP.Window>
    var currentFrameTimecode: Option<nat>
    var lastYieldedTimecode: Option<nat>

    ghost function State(): FP.Parser
      reads this
    {
      FP.Parser(frameFormat, timecodeFilter,
                FP.Framing(frameBuffer, dstSectorCount, frameStarted, currentFrameTimecode),
                FP.Tally(totalBytes, decodedFrames, filteredFrames, lastYieldedTimecode))
    }

    constructor (format: FrameFormat)
      ensures State() == FP.NewParser(format, None)
    {
      frameFormat := format;
      frameBuffer, totalBytes, decodedFrames, filteredFrames := [], 0, 0, 0;
      dstSectorCount, frameStarted := 0, false;
      timecodeFilter, currentFrameTimecode, lastYieldedTimecode := None, None, None;
    }

    /** Bounds are minutes, seconds and frames, each truncated to a byte by the caller. */
    method SetTimecodeFilter(startMinutes: byte, startSeconds: byte, startFrames: byte,
                             endMinutes: byte, endSeconds: byte, endFrames: byte)
      modifies this`timecodeFilter
      ensures timecodeFilter == Some(FP.Window(FrameNumber(startMinutes, startSeconds, startFrames),
                                               FrameNumber(endMinutes, endSeconds, endFrames)))
    {
      var start := startMinutes * FRAMES_PER_MINUTE + startSeconds * FRAMES_PER_SECOND + startFrames;
      var end := endMinutes * FRAMES_PER_MINUTE + endSeconds * FRAMES_PER_SECOND + endFrames;
      timecodeFilter := Some(FP.Window(start, end));
    }

    predicate ShouldYield()
      reads this
      ensures ShouldYield() == FP.Passes(timecodeFilter, currentFrameTimecode)
    {
      match timecodeFilter
      case None => true
      case Some(w) =>
        match currentFrameTimecode
        case None => true
        case Some(tc) => tc >= w.start && tc < w.end
    }

    /** Hands the buffered frame to the caller and counts it, or counts it as filtered. */
    method EmitFrame(yielded: seq<FP.Frame>) returns (r: seq<FP.Frame>)
      modifies this`frameBuffer, this`totalBytes, this`decodedFrames, this`filteredFrames, this`lastYieldedTimecode
      ensures frameBuffer == []
      ensures var o := FP.Emit(old(State()), State().framing);
              State() == o.parser && r == yielded + o.frames
    {
      if ShouldYield() {
        r := yielded + [FP.Frame(currentFrameTimecode, frameBuffer)];
        totalBytes := totalBytes + |frameBuffer|;
        decodedFrames := decodedFrames + 1;
        lastYieldedTimecode := currentFrameTimecode;
      } else {
        r := yielded;
        filteredFrames := filteredFrames + 1;
      }
      frameBuffer := [];
    }

    /** One audio payload, with `frameInfoIdx` of the sector's frame infos used so far. */
    method AcceptPacket(packet: AudioPacketInfo, frameInfos: seq<AudioFrameInfo>, frameInfoIdx: nat, data: seq<byte>,
                        yielded: seq<FP.Frame>)
      returns (r: seq<FP.Frame>, idx: nat)
      modifies this
      ensures var o := FP.Step(old(State()), ReadPacket(packet, frameInfos, frameInfoIdx, data));
              State() == o.parser && r == yielded + o.frames
      ensures idx == if frameFormat.Dst? && packet.frameStart && frameInfoIdx < |frameInfos| then frameInfoIdx + 1
                     else frameInfoIdx
    {
      r, idx := yielded, frameInfoIdx;
      if frameFormat.Dst? {
        if packet.frameStart {
          if frameInfoIdx < |frameInfos| {
            var frameInfo := frameInfos[frameInfoIdx];
            idx := frameInfoIdx + 1;
            if frameStarted && dstSectorCount == 0 && frameBuffer != [] {
              r := EmitFrame(r);
            }
            frameBuffer := data;
            dstSectorCount := frameInfo.sectorCount;
            frameStarted := true;
            currentFrameTimecode := Some(frameInfo.ToFrameCount());
          }
        } else if frameStarted {
          frameBuffer := frameBuffer + data;
        }
        if frameStarted && dstSectorCount > 0 {
          dstSectorCount := dstSectorCount - 1;
        }
      } else {
        frameBuffer := frameBuffer + data;
        totalBytes := totalBytes + |data|;
      }
    }

    /** The packet table, read entry by entry; returns the offset just past it. */
    static method ReadPacketInfos(sector: seq<byte>, header: AudioFrameHeader)
      returns (packets: seq<AudioPacketInfo>, offset: nat)
      requires |sector| >= SECTOR_SIZE && header == HeaderFromByte(sector[0])
      ensures packets == PacketInfos(sector) && offset == 1 + 2 * header.packetInfoCount
    {
      packets, offset := [], 1;
      for i := 0 to header.packetInfoCount
        invariant offset == 1 + 2 * i
        invariant packets == PacketInfos(sector)[..i]
      {
        assert offset + 2 <= |sector|;
        packets := packets + [PacketFromBytes(sector[offset], sector[offset + 1])];
        offset := offset + 2;
      }
    }

    /** The frame info table that follows; returns the offset of the first payload. */
    static method ReadFrameInfos(sector: seq<byte>, header: AudioFrameHeader, tableOffset: nat)
      returns (frameInfos: seq<AudioFrameInfo>, offset: nat)
      requires |sector| >= SECTOR_SIZE && header == HeaderFromByte(sector[0])
      requires tableOffset == 1 + 2 * header.packetInfoCount
      ensures frameInfos == FrameInfos(sector) && offset == HeaderSize(header)
    {
      var size := FrameInfoSize(header.dstEncoded);
      frameInfos, offset := [], tableOffset;
      for i := 0 to header.frameInfoCount
        invariant offset == FrameInfoOffset(header, i)
        invariant frameInfos == FrameInfos(sector)[..i]
      {
        assert offset + size <= |sector|;
        frameInfos := frameInfos + [FrameInfoFromBytes(sector[offset..offset + size], header.dstEncoded)];
        offset := offset + size;
      }
    }

    /** Walks the payloads; stops with `fits == false` at the first one that overruns the sector. */
    method ProcessPackets(packets: seq<AudioPacketInfo>, frameInfos: seq<AudioFrameInfo>, sector: seq<byte>, start: nat)
      returns (yielded: seq<FP.Frame>, fits: bool)
      requires start <= |sector|
      modifies this
      ensures var walk := WalkPackets(packets, frameInfos, sector, start, |packets|);
              && fits == walk.fits
              && FP.Outcome(State(), yielded) == FP.Feed(old(State()), walk.packets)
    {
      ghost var before := State();
      ghost var walk := Walk(start, 0, [], true);
      var offset := start;
      var frameInfoIdx := 0;
      yielded := [];
      for k := 0 to |packets|
        invariant walk == WalkPackets(packets, frameInfos, sector, start, k)
        invariant walk.fits && offset == walk.offset
        invariant frameFormat.Dst? ==> frameInfoIdx == walk.used
        invariant FP.Outcome(State(), yielded) == FP.Feed(before, walk.packets)
      {
        var packet := packets[k];
        var next := offset + packet.packetLength;
        ghost var walk' := WalkTurn(walk, packet, frameInfos, sector);
        if next > |sector| {
          WalkStaysStopped(packets, frameInfos, sector, start, k + 1, |packets|);
          return yielded, false;
        }
        if packet.dataType == DATA_TYPE_AUDIO {
          ghost var event := ReadPacket(packet, frameInfos, walk.used, sector[offset..next]);
          FP.FeedSnoc(before, walk.packets, event);
          FP.PlainStep(State(), event, ReadPacket(packet, frameInfos, frameInfoIdx, sector[offset..next]));
          yielded, frameInfoIdx := AcceptPacket(packet, frameInfos, frameInfoIdx, sector[offset..next], yielded);
          assert FP.Outcome(State(), yielded) == FP.Feed(before, walk'.packets);
        }
        offset, walk := next, walk';
      }
      fits := true;
    }

    /**
     * Parses one audio sector and returns the frames it completes. The source's three tests
     * that a header lies inside the sector are assertions here: they can never fail.
     */
    method ParseSector(sector: seq<byte>) returns (r: Result<seq<FP.Frame>, FP.ParseError>)
      modifies this
      ensures r == FP.ParseSector(old(State()), sector).result
      ensures State() == FP.ParseSector(old(State()), sector).parser
    {
      if |sector| < SECTOR_SIZE {
        return Err(FP.SectorTooShort);
      }
      var header := HeaderFromByte(sector[0]);
      var packets, tableEnd := ReadPacketInfos(sector, header);
      var frameInfos, offset := ReadFrameInfos(sector, header, tableEnd);
      var yielded, fits := ProcessPackets(packets, frameInfos, sector, offset);
      if !fits {
        return Err(FP.PacketOverrun);
      }
      if !frameFormat.Dst? {
        if |frameBuffer| >= FP.CHUNK_SIZE {
          yielded := yielded + [FP.Frame(None, frameBuffer)];
          frameBuffer := [];
        }
      } else if frameStarted && dstSectorCount == 0 && frameBuffer != [] {
        yielded := EmitFrame(yielded);
        frameStarted := false;
        dstSectorCount := 0;
      }
      assert yielded + [] == yielded;
      return Ok(yielded);
    }

    /** The frame still buffered at the end of the stream, complete or not. */
    method Flush() returns (r: Option<FP.Frame>)
      modifies this
      ensures r == FP.Flush(old(State())).frame
      ensures State() == FP.Flush(old(State())).parser
    {
      if frameBuffer == [] {
        return None;
      }
      if frameFormat.Dst? {
        if !ShouldYield() {
          frameBuffer := [];
          return None;
        }
        r := Some(FP.Frame(currentFrameTimecode, frameBuffer));
        totalBytes := totalBytes + |frameBuffer|;
        decodedFrames := decodedFrames + 1;
        lastYieldedTimecode := currentFrameTimecode;
      } else {
        r := Some(FP.Frame(None, frameBuffer));
        totalBytes := totalBytes + |frameBuffer|;
      }
      frameBuffer := [];
    }
  }
}
