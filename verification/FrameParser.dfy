/** The framing state machine: from audio packets to complete frames. */
module FrameParser {
  import opened Bytes
  import opened AudioPackets

  const CHUNK_SIZE: nat := 32768

  /** A half-open range of frame counts. */
  datatype Window = Window(start: nat, end: nat) {
    predicate Contains(timecode: nat) { start <= timecode < end }
  }

  /** A yielded frame, together with the timecode it was filtered by. */
  datatype Frame = Frame(timecode: Option<nat>, data: seq<byte>)

  datatype ParseError = SectorTooShort | PacketOverrun

  /** What the parser knows about the frame being assembled. */
  datatype Framing = Framing(buffer: seq<byte>, countdown: nat, started: bool, timecode: Option<nat>) {
    predicate Complete() { started && countdown == 0 && buffer != [] }
  }

  /** The counters, which framing never looks at. */
  datatype Tally = Tally(totalBytes: nat, decodedFrames: nat, filteredFrames: nat, lastYielded: Option<nat>)

  /** The value of every field of the parser object. */
  datatype Parser = Parser(format: FrameFormat, filter: Option<Window>, framing: Framing, tally: Tally)

  function NewParser(format: FrameFormat, filter: Option<Window>): Parser {
    Parser(format, filter, Framing([], 0, false, None), Tally(0, 0, 0, None))
  }

  predicate Passes(filter: Option<Window>, timecode: Option<nat>) {
    filter == None || timecode == None || filter.value.Contains(timecode.value)
  }

  function Counted(t: Tally, frame: Frame): Tally {
    Tally(t.totalBytes + |frame.data|, t.decodedFrames + 1, t.filteredFrames, frame.timecode)
  }

  datatype Outcome = Outcome(parser: Parser, frames: seq<Frame>)

  /** Counts the buffered frame and yields it, or counts it as filtered; `next` replaces the framing. */
  function Emit(p: Parser, next: Framing): Outcome {
    var frame := Frame(p.framing.timecode, p.framing.buffer);
    if Passes(p.filter, frame.timecode) then
      Outcome(p.(framing := next, tally := Counted(p.tally, frame)), [frame])
    else
      Outcome(p.(framing := next, tally := p.tally.(filteredFrames := p.tally.filteredFrames + 1)), [])
  }

  /** Every audio packet of an open frame is counted, whether or not its payload was used. */
  function Tick(f: Framing): Framing {
    if f.started && f.countdown > 0 then f.(countdown := f.countdown - 1) else f
  }

  /** The framing after a DST packet. */
  function Advance(f: Framing, packet: Packet): Framing {
    match packet
    case Start(info, data) => Tick(Framing(data, info.sectorCount, true, Some(info.ToFrameCount())))
    case Orphan(_) => Tick(f)
    case Continue(data) => Tick(if f.started then f.(buffer := f.buffer + data) else f)
  }

  function Step(p: Parser, packet: Packet): Outcome {
    if !p.format.Dst? then
      Outcome(p.(framing := p.framing.(buffer := p.framing.buffer + packet.data),
                 tally := p.tally.(totalBytes := p.tally.totalBytes + |packet.data|)), [])
    else if packet.Start? && p.framing.Complete() then
      Emit(p, Advance(p.framing, packet))
    else
      Outcome(p.(framing := Advance(p.framing, packet)), [])
  }

  /** Outside DST only the payload matters. */
  lemma {:induction false} PlainStep(p: Parser, a: Packet, b: Packet)
    requires a.data == b.data
    requires p.format.Dst? ==> a == b
    ensures Step(p, a) == Step(p, b)
  {
  }

  /** The packets in order, the last one on top of what the others did. */
  function Feed(p: Parser, packets: seq<Packet>): Outcome
    decreases |packets|
  {
    if packets == [] then Outcome(p, [])
    else
      var before := Feed(p, packets[..|packets| - 1]);
      var o := Step(before.parser, packets[|packets| - 1]);
      Outcome(o.parser, before.frames + o.frames)
  }

  lemma {:induction false} FeedSnoc(p: Parser, packets: seq<Packet>, last: Packet)
    ensures var before := Feed(p, packets);
            var o := Step(before.parser, last);
            Feed(p, packets + [last]) == Outcome(o.parser, before.frames + o.frames)
  {
    assert (packets + [last])[..|packets|] == packets;
  }

  function EndSector(p: Parser): Outcome {
    if !p.format.Dst? then
      if |p.framing.buffer| >= CHUNK_SIZE then
        Outcome(p.(framing := p.framing.(buffer := [])), [Frame(None, p.framing.buffer)])
      else
        Outcome(p, [])
    else if p.framing.Complete() then
      Emit(p, Framing([], 0, false, p.framing.timecode))
    else
      Outcome(p, [])
  }

  datatype Parsed = Parsed(parser: Parser, result: Result<seq<Frame>, ParseError>)

  /** One call of `parse_sector`. A failing sector keeps the effects of the packets before the bad one. */
  function ParseSector(p: Parser, sector: seq<byte>): Parsed {
    if |sector| < SECTOR_SIZE then
      Parsed(p, Err(SectorTooShort))
    else
      var walk := SectorPackets(sector);
      var fed := Feed(p, walk.packets);
      if !walk.fits then
        Parsed(fed.parser, Err(PacketOverrun))
      else
        var closed := EndSector(fed.parser);
        Parsed(closed.parser, Ok(fed.frames + closed.frames))
  }

  datatype Flushed = Flushed(parser: Parser, frame: Option<Frame>)

  /** The end of the stream: an unfinished frame goes out too, and a dropped one is not counted. */
  function Flush(p: Parser): Flushed {
    var emptied := p.(framing := p.framing.(buffer := []));
    var frame := Frame(if p.format.Dst? then p.framing.timecode else None, p.framing.buffer);
    if p.framing.buffer == [] then
      Flushed(p, None)
    else if !p.format.Dst? then
      Flushed(emptied.(tally := p.tally.(totalBytes := p.tally.totalBytes + |frame.data|)), Some(frame))
    else if !Passes(p.filter, p.framing.timecode) then
      Flushed(emptied, None)
    else
      Flushed(emptied.(tally := Counted(p.tally, frame)), Some(frame))
  }

  datatype Run = Run(parser: Parser, results: seq<Result<seq<Frame>, ParseError>>)

  /** `parse_sector` on each sector in turn, going on after a failing one. */
  function ParseAll(p: Parser, sectors: seq<seq<byte>>): (r: Run)
    ensures |r.results| == |sectors|
    decreases |sectors|
  {
    if sectors == [] then Run(p, [])
    else
      var before := ParseAll(p, sectors[..|sectors| - 1]);
      var last := ParseSector(before.parser, sectors[|sectors| - 1]);
      Run(last.parser, before.results + [last.result])
  }

  predicate AllOk(results: seq<Result<seq<Frame>, ParseError>>) {
    forall i :: 0 <= i < |results| ==> results[i].Ok?
  }

  /** All frames yielded by a run, in order; a failing call yields nothing. */
  function Yields(results: seq<Result<seq<Frame>, ParseError>>): seq<Frame>
    decreases |results|
  {
    if results == [] then []
    else
      var last := results[|results| - 1];
      Yields(results[..|results| - 1]) + if last.Ok? then last.value else []
  }

  /** The bytes of a list of frames, end to end. */
  function Data(frames: seq<Frame>): seq<byte> {
    if frames == [] then [] else Data(frames[..|frames| - 1]) + frames[|frames| - 1].data
  }

  lemma {:induction false} DataConcat(a: seq<Frame>, b: seq<Frame>)
    ensures Data(a + b) == Data(a) + Data(b)
    decreases |b|
  {
    if b == [] {
      assert a + b == a;
    } else {
      DataConcat(a, b[..|b| - 1]);
      InitConcat(a, b);
      Assoc(Data(a), Data(b[..|b| - 1]), b[|b| - 1].data);
    }
  }
}
