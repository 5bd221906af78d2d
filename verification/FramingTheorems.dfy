/** What every run of the frame parser keeps, over arbitrary and possibly malformed sectors. */
module FramingTheorems {
  import opened Bytes
  import opened AudioPackets
  import opened FrameParser
  import opened SectorEncoding

  // ---------------------------------------------------------------- state invariant

  /** Holds between any two packets of a DST area. */
  predicate WellFormed(p: Parser) {
    && p.framing.countdown <= 31
    && (!p.framing.started ==> p.framing.buffer == [])
    && (p.framing.started ==> p.framing.timecode.Some?)
  }

  lemma {:induction false} FeedKeepsWellFormed(p: Parser, packets: seq<Packet>)
    requires p.format.Dst? && WellFormed(p)
    ensures var q := Feed(p, packets).parser; q.format == p.format && q.filter == p.filter && WellFormed(q)
    decreases |packets|
  {
    if packets != [] {
      FeedKeepsWellFormed(p, packets[..|packets| - 1]);
    }
  }

  lemma {:induction false} ParseKeepsWellFormed(p: Parser, sector: seq<byte>)
    requires p.format.Dst? && WellFormed(p)
    ensures var r := ParseSector(p, sector);
            && r.parser.format == p.format && r.parser.filter == p.filter && WellFormed(r.parser)
            && (r.result.Ok? ==> !r.parser.framing.Complete())
  {
    if |sector| >= SECTOR_SIZE {
      FeedKeepsWellFormed(p, SectorPackets(sector).packets);
    }
  }

  /**
   * After any run the state is well formed, and after a successful last call no complete
   * frame is left behind: whatever `flush` then returns is an unfinished frame.
   */
  lemma {:induction false} RunKeepsWellFormed(filter: Option<Window>, sectors: seq<seq<byte>>)
    ensures var r := ParseAll(NewParser(Dst, filter), sectors);
            && r.parser.format.Dst? && r.parser.filter == filter && WellFormed(r.parser)
            && (r.parser.framing.buffer != [] ==> r.parser.framing.timecode.Some?)
            && (sectors == [] || r.results[|sectors| - 1].Ok? ==>
                  && !r.parser.framing.Complete()
                  && (Flush(r.parser).frame.Some? ==> r.parser.framing.started && r.parser.framing.countdown > 0))
    decreases |sectors|
  {
    if sectors != [] {
      var init := sectors[..|sectors| - 1];
      RunKeepsWellFormed(filter, init);
      ParseKeepsWellFormed(ParseAll(NewParser(Dst, filter), init).parser, sectors[|sectors| - 1]);
    }
  }

  // ---------------------------------------------------------------- filtering

  /** The frames whose timecode passes the filter, in order. */
  function Restrict(frames: seq<Frame>, w: Window): seq<Frame> {
    if frames == [] then []
    else
      var last := frames[|frames| - 1];
      Restrict(frames[..|frames| - 1], w) + if Passes(Some(w), last.timecode) then [last] else []
  }

  lemma {:induction false} RestrictConcat(a: seq<Frame>, b: seq<Frame>, w: Window)
    ensures Restrict(a + b, w) == Restrict(a, w) + Restrict(b, w)
    decreases |b|
  {
    if b == [] {
      assert a + b == a;
    } else {
      RestrictConcat(a, b[..|b| - 1], w);
      assert (a + b)[..|a + b| - 1] == a + b[..|b| - 1];
    }
  }

  /** A filtered and an unfiltered parser that have seen the same sectors. */
  predicate Twins(f: Parser, u: Parser, w: Window) {
    && f.format.Dst? && u.format.Dst?
    && f.filter == Some(w) && u.filter == None
    && f.framing == u.framing
    && u.tally.decodedFrames == f.tally.decodedFrames + f.tally.filteredFrames
  }

  lemma {:induction false} FilterFeed(f: Parser, u: Parser, w: Window, packets: seq<Packet>)
    requires Twins(f, u, w)
    ensures Twins(Feed(f, packets).parser, Feed(u, packets).parser, w)
    ensures Feed(f, packets).frames == Restrict(Feed(u, packets).frames, w)
    decreases |packets|
  {
    if packets != [] {
      var init := packets[..|packets| - 1];
      FilterFeed(f, u, w, init);
      var o := Step(Feed(u, init).parser, packets[|packets| - 1]);
      RestrictConcat(Feed(u, init).frames, o.frames, w);
    }
  }

  /** The filtered answer to a call is the unfiltered one with the frames outside dropped. */
  predicate Restricts(f: Result<seq<Frame>, ParseError>, u: Result<seq<Frame>, ParseError>, w: Window) {
    if u.Err? then f == u else f == Ok(Restrict(u.value, w))
  }

  lemma {:induction false} FilterSector(f: Parser, u: Parser, w: Window, sector: seq<byte>)
    requires Twins(f, u, w)
    ensures Twins(ParseSector(f, sector).parser, ParseSector(u, sector).parser, w)
    ensures Restricts(ParseSector(f, sector).result, ParseSector(u, sector).result, w)
  {
    if |sector| >= SECTOR_SIZE {
      var packets := SectorPackets(sector).packets;
      FilterFeed(f, u, w, packets);
      RestrictConcat(Feed(u, packets).frames, EndSector(Feed(u, packets).parser).frames, w);
    }
  }

  /**
   * Filtering commutes with demultiplexing: the two runs fail on the same sectors, assemble
   * the same frames, and differ exactly by the frames outside the window, all of which
   * `filtered_frames` counts.
   */
  lemma {:induction false} FilterCommutes(w: Window, sectors: seq<seq<byte>>)
    ensures var f := ParseAll(NewParser(Dst, Some(w)), sectors);
            var u := ParseAll(NewParser(Dst, None), sectors);
            && Twins(f.parser, u.parser, w)
            && (forall i :: 0 <= i < |sectors| ==> Restricts(f.results[i], u.results[i], w))
            && Yields(f.results) == Restrict(Yields(u.results), w)
    decreases |sectors|
  {
    if sectors != [] {
      var init := sectors[..|sectors| - 1];
      FilterCommutes(w, init);
      var f := ParseAll(NewParser(Dst, Some(w)), init);
      var u := ParseAll(NewParser(Dst, None), init);
      var last := ParseSector(u.parser, sectors[|sectors| - 1]).result;
      FilterSector(f.parser, u.parser, w, sectors[|sectors| - 1]);
      RestrictConcat(Yields(u.results), if last.Ok? then last.value else [], w);
    }
  }

  /** `flush` restricts too, but the filter count then agrees only if it did not drop a frame. */
  lemma {:induction false} FilterFlush(f: Parser, u: Parser, w: Window)
    requires Twins(f, u, w)
    ensures var ff := Flush(f);
            var uf := Flush(u);
            && ff.parser.framing == uf.parser.framing
            && ff.frame == (if uf.frame.Some? && Passes(Some(w), uf.frame.value.timecode) then uf.frame else None)
            && (uf.parser.tally.decodedFrames == ff.parser.tally.decodedFrames + ff.parser.tally.filteredFrames
                <==> f.framing.buffer == [] || Passes(Some(w), f.framing.timecode))
  {
  }

  lemma {:induction false} OneSector(p: Parser, sector: seq<byte>)
    ensures ParseAll(p, [sector]) == Run(ParseSector(p, sector).parser, [ParseSector(p, sector).result])
  {
    assert [sector][..0] == [];
    assert ParseAll(p, []) == Run(p, []);
  }

  /** It does drop one, uncounted, after a single sector with the start of a frame outside the window. */
  lemma {:induction false} UncountedDropExists() returns (w: Window, sectors: seq<seq<byte>>)
    ensures |sectors| == 1 && |sectors[0]| == 2048
    ensures var f := Flush(ParseAll(NewParser(Dst, Some(w)), sectors).parser);
            var u := Flush(ParseAll(NewParser(Dst, None), sectors).parser);
            && AllOk(ParseAll(NewParser(Dst, None), sectors).results)
            && u.frame.Some? && f.frame == None
            && u.parser.tally.decodedFrames != f.parser.tally.decodedFrames + f.parser.tally.filteredFrames
  {
    var entry := Some(Entry(AudioFrameInfo(0, 0, 0, 2), 0, 0));
    AloneRoundTrip(true, entry, [0]);
    w, sectors := Window(1, 2), [Alone(true, entry, [0]).Encode()];
    OneSector(NewParser(Dst, Some(w)), sectors[0]);
    OneSector(NewParser(Dst, None), sectors[0]);
    OnePacket(NewParser(Dst, Some(w)), Start(entry.value.info, [0]));
    OnePacket(NewParser(Dst, None), Start(entry.value.info, [0]));
  }

  lemma {:induction false} OnePacket(p: Parser, packet: Packet)
    ensures Feed(p, [packet]) == Step(p, packet)
  {
    assert [packet][..0] == [];
    assert [] + Step(p, packet).frames == Step(p, packet).frames;
  }

  function OptionalFrame(frame: Option<Frame>): seq<Frame> {
    if frame == None then [] else [frame.value]
  }

  /** All that comes out of a list of sectors, flush included. */
  function Extracted(p: Parser, sectors: seq<seq<byte>>): seq<Frame> {
    var r := ParseAll(p, sectors);
    Yields(r.results) + OptionalFrame(Flush(r.parser).frame)
  }

  lemma {:induction false} RestrictOptional(frame: Option<Frame>, w: Window)
    ensures Restrict(OptionalFrame(frame), w)
         == OptionalFrame(if frame.Some? && Passes(Some(w), frame.value.timecode) then frame else None)
  {
    assert Restrict([], w) == [];
  }

  /** A whole extraction, flush included, with a filter and without. */
  lemma {:induction false} ExtractionIsFiltered(w: Window, sectors: seq<seq<byte>>)
    ensures var f := ParseAll(NewParser(Dst, Some(w)), sectors);
            var u := ParseAll(NewParser(Dst, None), sectors);
            && (AllOk(f.results) <==> AllOk(u.results))
            && Yields(f.results) + OptionalFrame(Flush(f.parser).frame)
               == Restrict(Yields(u.results) + OptionalFrame(Flush(u.parser).frame), w)
            && (Flush(u.parser).frame == None ==> Flush(f.parser).frame == None)
  {
    var f := ParseAll(NewParser(Dst, Some(w)), sectors);
    var u := ParseAll(NewParser(Dst, None), sectors);
    FilterCommutes(w, sectors);
    FilterFlush(f.parser, u.parser, w);
    RestrictConcat(Yields(u.results), OptionalFrame(Flush(u.parser).frame), w);
    RestrictOptional(Flush(u.parser).frame, w);
    forall i | 0 <= i < |sectors| ensures f.results[i].Ok? <==> u.results[i].Ok? {
      assert Restricts(f.results[i], u.results[i], w);
    }
  }

  // ---------------------------------------------------------------- frame accounting

  function Starts(packets: seq<Packet>): nat {
    if packets == [] then 0
    else Starts(packets[..|packets| - 1]) + if packets[|packets| - 1].Start? then 1 else 0
  }

  /** Frames thrown away because another one started before they were complete. */
  function Abandoned(p: Parser, packets: seq<Packet>): nat {
    if packets == [] then 0
    else
      var init := packets[..|packets| - 1];
      var f := Feed(p, init).parser.framing;
      Abandoned(p, init) + if packets[|packets| - 1].Start? && f.started && !f.Complete() then 1 else 0
  }

  function OpenFrames(p: Parser): nat { if p.framing.started then 1 else 0 }

  function Counted(p: Parser): nat { p.tally.decodedFrames + p.tally.filteredFrames }

  lemma {:induction false} FeedAccounts(p: Parser, packets: seq<Packet>)
    requires p.format.Dst?
    ensures var q := Feed(p, packets).parser;
            && q.format.Dst?
            && Counted(p) + OpenFrames(p) + Starts(packets)
               == Counted(q) + OpenFrames(q) + Abandoned(p, packets)
    decreases |packets|
  {
    if packets != [] {
      FeedAccounts(p, packets[..|packets| - 1]);
    }
  }

  /** The audio packets a sector contributes, those before an overrun included. */
  function PacketsOf(sector: seq<byte>): seq<Packet> {
    if |sector| < SECTOR_SIZE then [] else SectorPackets(sector).packets
  }

  /** When a sector is refused, and why; a short one changes nothing. */
  lemma {:induction false} SectorResult(p: Parser, sector: seq<byte>)
    ensures var r := ParseSector(p, sector);
            && (r.result == Err(SectorTooShort) <==> |sector| < 2048)
            && (|sector| < 2048 ==> r.parser == p)
            && (|sector| >= 2048 ==>
                  (r.result == Err(PacketOverrun) <==>
                     HeaderSize(HeaderFromByte(sector[0])) + TotalLength(PacketInfos(sector)) > |sector|))
  {
    if |sector| >= 2048 {
      SectorFits(sector);
    }
  }

  function TotalStarts(sectors: seq<seq<byte>>): nat {
    if sectors == [] then 0
    else TotalStarts(sectors[..|sectors| - 1]) + Starts(PacketsOf(sectors[|sectors| - 1]))
  }

  function TotalAbandoned(p: Parser, sectors: seq<seq<byte>>): nat
    decreases |sectors|
  {
    if sectors == [] then 0
    else
      var init := sectors[..|sectors| - 1];
      TotalAbandoned(p, init) + Abandoned(ParseAll(p, init).parser, PacketsOf(sectors[|sectors| - 1]))
  }

  lemma {:induction false} SectorAccounts(p: Parser, sector: seq<byte>)
    requires p.format.Dst?
    ensures var q := ParseSector(p, sector).parser;
            && q.format.Dst?
            && Counted(p) + OpenFrames(p) + Starts(PacketsOf(sector))
               == Counted(q) + OpenFrames(q) + Abandoned(p, PacketsOf(sector))
  {
    FeedAccounts(p, PacketsOf(sector));
  }

  /** Every accepted frame start is yielded, filtered, abandoned, or still open. */
  lemma {:induction false} FramesAreAccountedFor(filter: Option<Window>, sectors: seq<seq<byte>>)
    ensures var p := NewParser(Dst, filter);
            var q := ParseAll(p, sectors).parser;
            && q.format.Dst?
            && TotalStarts(sectors) == q.tally.decodedFrames + q.tally.filteredFrames
                                     + TotalAbandoned(p, sectors) + OpenFrames(q)
    decreases |sectors|
  {
    if sectors != [] {
      var init := sectors[..|sectors| - 1];
      FramesAreAccountedFor(filter, init);
      SectorAccounts(ParseAll(NewParser(Dst, filter), init).parser, sectors[|sectors| - 1]);
    }
  }

  /** The timecode of the last of these frames, or the earlier one if there is none. */
  function LastTimecode(before: Option<nat>, frames: seq<Frame>): Option<nat> {
    if frames == [] then before else frames[|frames| - 1].timecode
  }

  lemma {:induction false} LastOfConcat(before: Option<nat>, a: seq<Frame>, b: seq<Frame>)
    ensures LastTimecode(before, a + b) == LastTimecode(LastTimecode(before, a), b)
  {
    if b == [] {
      assert a + b == a;
    }
  }

  lemma {:induction false} FeedCounts(p: Parser, packets: seq<Packet>)
    requires p.format.Dst?
    ensures var o := Feed(p, packets);
            && o.parser.format.Dst?
            && o.parser.tally.decodedFrames == p.tally.decodedFrames + |o.frames|
            && o.parser.tally.totalBytes == p.tally.totalBytes + |Data(o.frames)|
            && o.parser.tally.lastYielded == LastTimecode(p.tally.lastYielded, o.frames)
    decreases |packets|
  {
    if packets != [] {
      var init := packets[..|packets| - 1];
      FeedCounts(p, init);
      LastOfConcat(p.tally.lastYielded, Feed(p, init).frames,
                   Step(Feed(p, init).parser, packets[|packets| - 1]).frames);
      DataConcat(Feed(p, init).frames, Step(Feed(p, init).parser, packets[|packets| - 1]).frames);
    }
  }

  lemma {:induction false} SectorCounts(p: Parser, sector: seq<byte>)
    requires p.format.Dst?
    ensures var r := ParseSector(p, sector);
            && r.parser.format.Dst?
            && (r.result.Ok? ==>
                  && r.parser.tally.decodedFrames == p.tally.decodedFrames + |r.result.value|
                  && r.parser.tally.totalBytes == p.tally.totalBytes + |Data(r.result.value)|
                  && r.parser.tally.lastYielded == LastTimecode(p.tally.lastYielded, r.result.value))
  {
    FeedCounts(p, PacketsOf(sector));
    var fed := Feed(p, PacketsOf(sector));
    LastOfConcat(p.tally.lastYielded, fed.frames, EndSector(fed.parser).frames);
    DataConcat(fed.frames, EndSector(fed.parser).frames);
    assert Data([]) == [];
  }

  lemma {:induction false} RunSnoc(p: Parser, init: seq<seq<byte>>, last: seq<byte>) returns (now: Parsed)
    ensures now == ParseSector(ParseAll(p, init).parser, last)
    ensures ParseAll(p, init + [last]) == Run(now.parser, ParseAll(p, init).results + [now.result])
  {
    TakeDrop(init, [last]);
    now := ParseSector(ParseAll(p, init).parser, last);
  }

  lemma {:induction false} YieldsSnoc(p: Parser, init: seq<seq<byte>>, last: seq<byte>)
    ensures var before := ParseAll(p, init);
            var now := ParseSector(before.parser, last);
            var r := ParseAll(p, init + [last]);
            && r.parser == now.parser
            && r.results == before.results + [now.result]
            && Yields(r.results) == Yields(before.results) + (if now.result.Ok? then now.result.value else [])
  {
    assert (init + [last])[..|init|] == init;
    var before := ParseAll(p, init);
    var now := ParseSector(before.parser, last);
    assert (before.results + [now.result])[..|init|] == before.results;
  }

  lemma {:induction false} AllOkSnoc(p: Parser, init: seq<seq<byte>>, last: seq<byte>)
    requires AllOk(ParseAll(p, init + [last]).results)
    ensures AllOk(ParseAll(p, init).results)
    ensures ParseSector(ParseAll(p, init).parser, last).result.Ok?
  {
    YieldsSnoc(p, init, last);
    var results := ParseAll(p, init + [last]).results;
    assert results[|init|].Ok?;
    forall i | 0 <= i < |init| ensures ParseAll(p, init).results[i].Ok? {
      assert results[i].Ok?;
    }
  }

  /** In a run without failing sectors the counters describe exactly what came out. */
  lemma {:induction false} CountersMatchYields(filter: Option<Window>, sectors: seq<seq<byte>>)
    requires AllOk(ParseAll(NewParser(Dst, filter), sectors).results)
    ensures var r := ParseAll(NewParser(Dst, filter), sectors);
            && r.parser.format.Dst?
            && r.parser.tally.decodedFrames == |Yields(r.results)|
            && r.parser.tally.totalBytes == |Data(Yields(r.results))|
            && r.parser.tally.lastYielded == LastTimecode(None, Yields(r.results))
    decreases |sectors|
  {
    if sectors != [] {
      var p := NewParser(Dst, filter);
      var init, last := sectors[..|sectors| - 1], sectors[|sectors| - 1];
      SplitLast(sectors);
      YieldsSnoc(p, init, last);
      var before := ParseAll(p, init);
      AllOkSnoc(p, init, last);
      CountersMatchYields(filter, init);
      SectorCounts(before.parser, last);
      DataConcat(Yields(before.results), ParseSector(before.parser, last).result.value);
      LastOfConcat(None, Yields(before.results), ParseSector(before.parser, last).result.value);
    }
  }
}
