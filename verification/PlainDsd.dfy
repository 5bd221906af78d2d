/** Uncompressed areas: the parser only re-chunks the payload bytes. */
module PlainDsd {
  import opened Bytes
  import opened AudioPackets
  import opened FrameParser
  import opened FramingTheorems
  import opened SectorEncoding

  function Payload(packets: seq<Packet>): seq<byte> {
    if packets == [] then [] else Payload(packets[..|packets| - 1]) + packets[|packets| - 1].data
  }

  function TotalPayload(sectors: seq<seq<byte>>): seq<byte> {
    if sectors == [] then []
    else TotalPayload(sectors[..|sectors| - 1]) + Payload(PacketsOf(sectors[|sectors| - 1]))
  }

  lemma {:induction false} FeedAppends(p: Parser, packets: seq<Packet>)
    requires !p.format.Dst?
    ensures var o := Feed(p, packets);
            && o.parser.format == p.format && o.frames == []
            && o.parser.framing.buffer == p.framing.buffer + Payload(packets)
            && o.parser.tally.totalBytes == p.tally.totalBytes + |Payload(packets)|
    decreases |packets|
  {
    if packets == [] {
      assert p.framing.buffer + [] == p.framing.buffer;
    } else {
      var init, last := packets[..|packets| - 1], packets[|packets| - 1];
      FeedAppends(p, init);
      var before := Feed(p, init);
      assert Feed(p, packets) == Outcome(Step(before.parser, last).parser, before.frames + []);
      assert (p.framing.buffer + Payload(init)) + last.data == p.framing.buffer + (Payload(init) + last.data);
    }
  }

  lemma {:induction false} SectorConserves(p: Parser, sector: seq<byte>)
    requires !p.format.Dst?
    ensures var r := ParseSector(p, sector);
            && r.parser.format == p.format
            && Data(if r.result.Ok? then r.result.value else []) + r.parser.framing.buffer
               == p.framing.buffer + Payload(PacketsOf(sector))
            && r.parser.tally.totalBytes == p.tally.totalBytes + |Payload(PacketsOf(sector))|
  {
    FeedAppends(p, PacketsOf(sector));
    var fed := Feed(p, PacketsOf(sector));
    var closed := EndSector(fed.parser);
    assert Data([]) == [];
    assert Data([Frame(None, fed.parser.framing.buffer)]) == fed.parser.framing.buffer;
    assert Data(closed.frames) + closed.parser.framing.buffer == fed.parser.framing.buffer;
    assert fed.frames + closed.frames == closed.frames;
  }

  lemma {:induction false} Shift(done: seq<byte>, buffered: seq<byte>, total: seq<byte>, out: seq<byte>,
                                 left: seq<byte>, payload: seq<byte>)
    requires done + buffered == total && out + left == buffered + payload
    ensures (done + out) + left == total + payload
  {
    assert (done + out) + left == done + (out + left);
    assert done + (buffered + payload) == (done + buffered) + payload;
  }

  /**
   * No audio byte is lost, repeated or reordered: what was yielded, followed by what is
   * buffered, is the payload of all sectors; `total_bytes` is its length.
   */
  lemma {:induction false} BytesAreConserved(format: FrameFormat, filter: Option<Window>, sectors: seq<seq<byte>>)
    requires !format.Dst?
    ensures var r := ParseAll(NewParser(format, filter), sectors);
            && r.parser.format == format
            && Data(Yields(r.results)) + r.parser.framing.buffer == TotalPayload(sectors)
            && r.parser.tally.totalBytes == |TotalPayload(sectors)|
    decreases |sectors|
  {
    if sectors != [] {
      var p := NewParser(format, filter);
      var init, last := sectors[..|sectors| - 1], sectors[|sectors| - 1];
      SplitLast(sectors);
      BytesAreConserved(format, filter, init);
      YieldsSnoc(p, init, last);
      var before := ParseAll(p, init);
      var now := ParseSector(before.parser, last);
      SectorConserves(before.parser, last);
      var out := if now.result.Ok? then now.result.value else [];
      DataConcat(Yields(before.results), out);
      Shift(Data(Yields(before.results)), before.parser.framing.buffer, TotalPayload(init),
            Data(out), now.parser.framing.buffer, Payload(PacketsOf(last)));
    }
  }

  /** After `flush` nothing is buffered, and the yields with the flushed chunk are the whole payload. */
  lemma {:induction false} FlushCompletes(format: FrameFormat, filter: Option<Window>, sectors: seq<seq<byte>>)
    requires !format.Dst?
    ensures var r := ParseAll(NewParser(format, filter), sectors);
            var f := Flush(r.parser);
            && f.parser.framing.buffer == []
            && Data(Yields(r.results)) + (if f.frame.Some? then f.frame.value.data else []) == TotalPayload(sectors)
            // the flushed chunk is counted a second time, so the counter is right only if there is none
            && (f.parser.tally.totalBytes == |TotalPayload(sectors)| <==> r.parser.framing.buffer == [])
  {
    BytesAreConserved(format, filter, sectors);
  }

  /** Such a tail is a matter of one byte: a sector with a single short packet leaves it. */
  lemma {:induction false} FlushedTailExists() returns (sectors: seq<seq<byte>>)
    ensures |sectors| == 1 && |sectors[0]| == 2048
    ensures var r := ParseAll(NewParser(Dsd3In14, None), sectors);
            && AllOk(r.results) && r.parser.framing.buffer != []
            && Flush(r.parser).parser.tally.totalBytes != |TotalPayload(sectors)|
  {
    AloneRoundTrip(false, None, [0]);
    sectors := [Alone(false, None, [0]).Encode()];
    FlushCompletes(Dsd3In14, None, sectors);
    OneShortPacket(NewParser(Dsd3In14, None), sectors[0]);
  }

  lemma {:induction false} OneShortPacket(p: Parser, sector: seq<byte>)
    requires !p.format.Dst? && p.framing.buffer == []
    requires |sector| >= SECTOR_SIZE && SectorPackets(sector).fits && SectorPackets(sector).packets == [Continue([0])]
    ensures var r := ParseAll(p, [sector]); AllOk(r.results) && r.parser.framing.buffer != []
  {
    OneSector(p, sector);
    OnePacket(p, Continue([0]));
    assert Step(p, Continue([0])).parser.framing.buffer == [0];
  }

  // ---------------------------------------------------------------- chunk sizes

  lemma {:induction false} WalkPayload(ps: seq<AudioPacketInfo>, infos: seq<AudioFrameInfo>, sector: seq<byte>,
                                       start: nat, k: nat)
    requires start <= |sector| && k <= |ps|
    ensures var w := WalkPackets(ps, infos, sector, start, k);
            |Payload(w.packets)| <= w.offset - start
  {
    if k > 0 {
      WalkPayload(ps, infos, sector, start, k - 1);
      var before := WalkPackets(ps, infos, sector, start, k - 1);
      var w := WalkPackets(ps, infos, sector, start, k);
      if w.packets != before.packets {
        assert w.packets[..|w.packets| - 1] == before.packets;
      }
    }
  }

  /** A sector has at most 2045 bytes of audio: the header byte and one packet entry come first. */
  lemma {:induction false} SectorPayload(sector: seq<byte>)
    requires |sector| == 2048
    ensures |Payload(PacketsOf(sector))| <= 2045
  {
    var ps := PacketInfos(sector);
    if ps != [] {
      WalkPayload(ps, FrameInfos(sector), sector, HeaderSize(HeaderFromByte(sector[0])), |ps|);
    }
  }

  predicate ChunkSized(frames: seq<Frame>) {
    forall i :: 0 <= i < |frames| ==> 32768 <= |frames[i].data| <= 34812
  }

  /** With fewer than 32768 bytes buffered, a call yields at most one chunk, of bounded size. */
  lemma {:induction false} ChunkSizes(p: Parser, sector: seq<byte>)
    requires !p.format.Dst? && |sector| == 2048 && |p.framing.buffer| < 32768
    requires ParseSector(p, sector).result.Ok?
    ensures var r := ParseSector(p, sector);
            && r.parser.format == p.format && |r.parser.framing.buffer| < 32768
            && |r.result.value| <= 1 && ChunkSized(r.result.value)
  {
    SectorPayload(sector);
    FeedAppends(p, PacketsOf(sector));
  }

  lemma {:induction false} MoreChunks(a: seq<Frame>, b: seq<Frame>)
    requires ChunkSized(a) && ChunkSized(b)
    ensures ChunkSized(a + b)
  {
  }

  /** Hence in a run without failing sectors every chunk is between 32768 and 34812 bytes long. */
  lemma {:induction false} AllChunkSizes(p: Parser, sectors: seq<seq<byte>>)
    requires !p.format.Dst? && |p.framing.buffer| < 32768
    requires forall i :: 0 <= i < |sectors| ==> |sectors[i]| == 2048
    requires AllOk(ParseAll(p, sectors).results)
    ensures var r := ParseAll(p, sectors);
            && r.parser.format == p.format && |r.parser.framing.buffer| < 32768
            && |Yields(r.results)| <= |sectors| && ChunkSized(Yields(r.results))
    decreases |sectors|
  {
    if sectors != [] {
      var init, last := sectors[..|sectors| - 1], sectors[|sectors| - 1];
      SplitLast(sectors);
      YieldsSnoc(p, init, last);
      AllOkSnoc(p, init, last);
      AllChunkSizes(p, init);
      ChunkSizes(ParseAll(p, init).parser, last);
      MoreChunks(Yields(ParseAll(p, init).results), ParseSector(ParseAll(p, init).parser, last).result.value);
    }
  }
}
