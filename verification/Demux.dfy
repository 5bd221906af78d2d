/** Demultiplexing gives back the frames that were multiplexed, from any window of the stream. */
module Demux {
  import opened Bytes
  import opened AudioPackets
  import opened FrameParser
  import opened FramingTheorems
  import opened FrameProvenance
  import opened SectorEncoding

  /** A DST frame cut into the payloads of its packets; its frame info announces their number. */
  datatype MuxFrame = MuxFrame(minutes: byte, seconds: byte, frames: byte, chunks: seq<seq<byte>>) {
    predicate Legal() { 1 <= |chunks| <= 31 && Flatten(chunks) != [] }

    /** The disc frame that its three time bytes name. */
    function Number(): nat { FrameNumber(minutes, seconds, frames) }

    function Info(): AudioFrameInfo
      requires Legal()
    {
      AudioFrameInfo(minutes, seconds, frames, |chunks|)
    }

    /** The whole frame, as the parser should yield it. */
    function Whole(): Frame
      requires Legal()
    {
      Frame(Some(Number()), Flatten(chunks))
    }
  }

  predicate LegalFrames(frames: seq<MuxFrame>) {
    forall i :: 0 <= i < |frames| ==> frames[i].Legal()
  }

  /**
   * The packet stream of a list of frames: each frame's first payload as a start packet, its
   * others as continuations. `rest` are continuation payloads that come before all of them.
   */
  function Multiplex(rest: seq<seq<byte>>, frames: seq<MuxFrame>): seq<Packet>
    requires LegalFrames(frames)
    decreases |frames|, |rest|
  {
    if rest != [] then
      [Continue(rest[0])] + Multiplex(rest[1..], frames)
    else if frames != [] then
      [Start(frames[0].Info(), frames[0].chunks[0])] + Multiplex(frames[0].chunks[1..], frames[1..])
    else
      []
  }

  function Wholes(frames: seq<MuxFrame>): seq<Frame>
    requires LegalFrames(frames)
  {
    if frames == [] then [] else [frames[0].Whole()] + Wholes(frames[1..])
  }

  // ---------------------------------------------------------------- the parser follows the stream

  /** `rest` are the payloads still missing from the open frame, or stray ones if none is open. */
  predicate Follows(p: Parser, rest: seq<seq<byte>>) {
    && p.format.Dst? && p.filter == None
    && (p.framing.started ==> p.framing.countdown == |rest| && p.framing.buffer + Flatten(rest) != [])
    && (!p.framing.started ==> p.framing.buffer == [])
  }

  /** What is still to be yielded when the rest of the stream is `rest` and then `frames`. */
  function Owed(p: Parser, rest: seq<seq<byte>>, frames: seq<MuxFrame>): seq<Frame>
    requires LegalFrames(frames)
  {
    (if p.framing.started then [Frame(p.framing.timecode, p.framing.buffer + Flatten(rest))] else []) + Wholes(frames)
  }

  lemma {:induction false} NextPacket(packet: Packet, more: seq<Packet>, rest: seq<seq<byte>>, frames: seq<MuxFrame>)
    requires LegalFrames(frames) && [packet] + more == Multiplex(rest, frames)
    ensures if rest != [] then packet == Continue(rest[0]) && more == Multiplex(rest[1..], frames)
            else frames != [] && packet == Start(frames[0].Info(), frames[0].chunks[0]) &&
                 more == Multiplex(frames[0].chunks[1..], frames[1..])
  {
    var ahead := [packet] + more;
    assert packet == ahead[0] && more == ahead[1..];
  }

  /** `tail` is the end of frame `k - 1`, its first payload excluded, or of what came before frame 0. */
  predicate CutInside(tail: seq<seq<byte>>, rest: seq<seq<byte>>, frames: seq<MuxFrame>, k: nat)
    requires k <= |frames|
  {
    if k == 0 then |tail| <= |rest| else |tail| < |frames[k - 1].chunks|
  }

  /** What happened between two points of the stream: nothing was yielded too early and nothing owed is lost. */
  predicate InStep(p: Parser, o: Outcome, rest: seq<seq<byte>>, k: nat, rest': seq<seq<byte>>, k': nat,
                   frames: seq<MuxFrame>)
    requires LegalFrames(frames) && k <= |frames|
  {
    && k <= k' <= |frames|
    && (if k == k' then |rest'| <= |rest| else |rest'| < |frames[k' - 1].chunks|)
    && Follows(o.parser, rest')
    && o.frames + Owed(o.parser, rest', frames[k'..]) == Owed(p, rest, frames[k..])
    && (p.framing.started || k < k' ==> o.parser.framing.started)
  }

  lemma {:induction false} InStepTrans(p: Parser, a: Outcome, b: Outcome, rest: seq<seq<byte>>, k: nat,
                                       mid: seq<seq<byte>>, j: nat, rest': seq<seq<byte>>, k': nat,
                                       frames: seq<MuxFrame>)
    requires LegalFrames(frames) && k <= j <= |frames|
    requires InStep(p, a, rest, k, mid, j, frames) && InStep(a.parser, b, mid, j, rest', k', frames)
    ensures InStep(p, Outcome(b.parser, a.frames + b.frames), rest, k, rest', k', frames)
  {
    Assoc(a.frames, b.frames, Owed(b.parser, rest', frames[k'..]));
  }

  /** One packet of the stream: nothing is yielded too early and nothing owed is lost. */
  lemma {:induction false} MuxStep(p: Parser, packet: Packet, more: seq<Packet>, rest: seq<seq<byte>>,
                                   frames: seq<MuxFrame>, k: nat)
    returns (rest': seq<seq<byte>>, k': nat)
    requires LegalFrames(frames) && Follows(p, rest) && k <= |frames| && [packet] + more == Multiplex(rest, frames[k..])
    ensures k <= k' <= |frames| && more == Multiplex(rest', frames[k'..])
    ensures InStep(p, Step(p, packet), rest, k, rest', k', frames)
  {
    NextPacket(packet, more, rest, frames[k..]);
    if rest != [] {
      rest', k' := rest[1..], k;
      assert p.framing.buffer + (rest[0] + Flatten(rest')) == (p.framing.buffer + rest[0]) + Flatten(rest');
    } else {
      rest', k' := frames[k].chunks[1..], k + 1;
      InfoCountIsNumber(frames[k].Info());
      assert frames[k..][1..] == frames[k'..];
      assert p.framing.buffer + [] == p.framing.buffer;
    }
  }

  lemma {:induction false} MuxFeed(p: Parser, packets: seq<Packet>, more: seq<Packet>, rest: seq<seq<byte>>,
                                   frames: seq<MuxFrame>, k: nat)
    returns (rest': seq<seq<byte>>, k': nat)
    requires LegalFrames(frames) && Follows(p, rest) && k <= |frames| && packets + more == Multiplex(rest, frames[k..])
    ensures k <= k' <= |frames| && more == Multiplex(rest', frames[k'..])
    ensures InStep(p, Feed(p, packets), rest, k, rest', k', frames)
    decreases |packets|
  {
    if packets == [] {
      assert packets + more == more;
      rest', k' := rest, k;
      assert [] + Owed(p, rest, frames[k..]) == Owed(p, rest, frames[k..]);
    } else {
      var init, last := packets[..|packets| - 1], packets[|packets| - 1];
      SplitLast(packets);
      Assoc(init, [last], more);
      var mid, j := MuxFeed(p, init, [last] + more, rest, frames, k);
      rest', k' := MuxStep(Feed(p, init).parser, last, more, mid, frames, j);
      InStepTrans(p, Feed(p, init), Step(Feed(p, init).parser, last), rest, k, mid, j, rest', k', frames);
    }
  }

  /** The end of a sector hands over a complete frame and leaves an incomplete one alone. */
  lemma {:induction false} MuxEndSector(p: Parser, rest: seq<seq<byte>>, frames: seq<MuxFrame>)
    requires LegalFrames(frames) && Follows(p, rest)
    ensures var o := EndSector(p);
            && Follows(o.parser, rest)
            && o.frames + Owed(o.parser, rest, frames) == Owed(p, rest, frames)
            && (o.parser.framing.started <==> p.framing.started && rest != [])
  {
    assert p.framing.buffer + [] == p.framing.buffer;
  }

  lemma {:induction false} MuxSector(p: Parser, sector: seq<byte>, more: seq<Packet>, rest: seq<seq<byte>>,
                                     frames: seq<MuxFrame>, k: nat)
    returns (rest': seq<seq<byte>>, k': nat)
    requires |sector| >= SECTOR_SIZE && SectorPackets(sector).fits
    requires LegalFrames(frames) && Follows(p, rest) && k <= |frames|
    requires PacketsOf(sector) + more == Multiplex(rest, frames[k..])
    ensures k <= k' <= |frames| && more == Multiplex(rest', frames[k'..])
    ensures if k == k' then |rest'| <= |rest| else |rest'| < |frames[k' - 1].chunks|
    ensures var r := ParseSector(p, sector);
            && r.result.Ok? && Follows(r.parser, rest')
            && r.result.value + Owed(r.parser, rest', frames[k'..]) == Owed(p, rest, frames[k..])
            && (r.parser.framing.started ==> rest' != [])
            && (rest' != [] && (p.framing.started || k < k') ==> r.parser.framing.started)
  {
    rest', k' := MuxFeed(p, PacketsOf(sector), more, rest, frames, k);
    var fed := Feed(p, PacketsOf(sector));
    MuxEndSector(fed.parser, rest', frames[k'..]);
    var closed := EndSector(fed.parser);
    Assoc(fed.frames, closed.frames, Owed(closed.parser, rest', frames[k'..]));
  }

  /** Every sector is long enough and holds all its payloads. */
  predicate AllFit(sectors: seq<seq<byte>>) {
    forall i :: 0 <= i < |sectors| ==> |sectors[i]| >= SECTOR_SIZE && SectorPackets(sectors[i]).fits
  }

  /** A run in step with the stream: what it yielded and what it owes make up `total`. */
  predicate Owes(r: Run, rest: seq<seq<byte>>, frames: seq<MuxFrame>, k: nat, total: seq<Frame>)
    requires LegalFrames(frames) && k <= |frames|
  {
    && AllOk(r.results) && Follows(r.parser, rest)
    && Yields(r.results) + Owed(r.parser, rest, frames[k..]) == total
    && (r.parser.framing.started ==> rest != [])
    && (rest != [] && k > 0 ==> r.parser.framing.started)
  }

  lemma {:induction false} MuxRunStep(before: Run, last: seq<byte>, more: seq<Packet>, rest: seq<seq<byte>>,
                                      frames: seq<MuxFrame>, k: nat,
                   total: seq<Frame>, stray: seq<seq<byte>>)
    returns (rest': seq<seq<byte>>, k': nat)
    requires |last| >= SECTOR_SIZE && SectorPackets(last).fits
    requires LegalFrames(frames) && k <= |frames| && Owes(before, rest, frames, k, total)
    requires PacketsOf(last) + more == Multiplex(rest, frames[k..]) && CutInside(rest, stray, frames, k)
    ensures k' <= |frames| && more == Multiplex(rest', frames[k'..]) && CutInside(rest', stray, frames, k')
    ensures var now := ParseSector(before.parser, last);
            Owes(Run(now.parser, before.results + [now.result]), rest', frames, k', total)
  {
    rest', k' := MuxSector(before.parser, last, more, rest, frames, k);
    var now := ParseSector(before.parser, last);
    var results := before.results + [now.result];
    assert results[..|before.results|] == before.results;
    Assoc(Yields(before.results), now.result.value, Owed(now.parser, rest', frames[k'..]));
  }

  lemma {:induction false} MuxRun(p: Parser, sectors: seq<seq<byte>>, more: seq<Packet>, rest: seq<seq<byte>>,
                                  frames: seq<MuxFrame>)
    returns (rest': seq<seq<byte>>, k: nat)
    requires LegalFrames(frames) && Follows(p, rest) && !p.framing.started && AllFit(sectors)
    requires Trace(sectors) + more == Multiplex(rest, frames)
    ensures k <= |frames| && more == Multiplex(rest', frames[k..]) && CutInside(rest', rest, frames, k)
    ensures Owes(ParseAll(p, sectors), rest', frames, k, Wholes(frames))
    decreases |sectors|
  {
    if sectors == [] {
      rest', k := rest, 0;
      assert [] + more == more && frames[0..] == frames;
    } else {
      var init, last := sectors[..|sectors| - 1], sectors[|sectors| - 1];
      SplitLast(sectors);
      TraceSnoc(init, last);
      Assoc(Trace(init), PacketsOf(last), more);
      var mid, j := MuxRun(p, init, PacketsOf(last) + more, rest, frames);
      rest', k := MuxRunStep(ParseAll(p, init), last, more, mid, frames, j, Wholes(frames), rest);
    }
  }

  lemma {:induction false} WholesSplit(frames: seq<MuxFrame>, k: nat)
    requires LegalFrames(frames) && k <= |frames|
    ensures Wholes(frames) == Wholes(frames[..k]) + Wholes(frames[k..])
    decreases k
  {
    if k == 0 {
      assert frames[..0] == [] && frames[0..] == frames;
    } else {
      WholesSplit(frames[1..], k - 1);
      assert frames[..k][1..] == frames[1..][..k - 1];
      assert frames[1..][k - 1..] == frames[k..];
      assert frames[..k][0] == frames[0];
    }
  }

  lemma {:induction false} CancelRight(a: seq<Frame>, b: seq<Frame>, c: seq<Frame>)
    requires a + c == b + c
    ensures a == b
  {
    assert |a| == |b|;
    assert a == (a + c)[..|a|] && b == (b + c)[..|b|];
  }

  function Filtered(frames: seq<Frame>, filter: Option<Window>): seq<Frame> {
    if filter == None then frames else Restrict(frames, filter.value)
  }

  /** The frames of a window of the stream that ends with `tail` missing from frame `k - 1`. */
  predicate WindowContents(r: Run, tail: seq<seq<byte>>, frames: seq<MuxFrame>, k: nat)
    requires LegalFrames(frames) && k <= |frames|
  {
    if tail == [] then
      Yields(r.results) == Wholes(frames[..k]) && r.parser.framing.buffer == []
    else if k == 0 then
      Yields(r.results) == [] && r.parser.framing.buffer == []
    else
      && Yields(r.results) == Wholes(frames[..k - 1])
      && r.parser.framing.timecode == frames[k - 1].Whole().timecode
      && r.parser.framing.buffer + Flatten(tail) == frames[k - 1].Whole().data
  }

  lemma {:induction false} OwedWindow(r: Run, tail: seq<seq<byte>>, frames: seq<MuxFrame>, k: nat)
    requires LegalFrames(frames) && k <= |frames| && Owes(r, tail, frames, k, Wholes(frames))
    ensures WindowContents(r, tail, frames, k)
  {
    WholesSplit(frames, k);
    var done, later := Wholes(frames[..k]), Wholes(frames[k..]);
    if !r.parser.framing.started {
      assert Owed(r.parser, tail, frames[k..]) == later;
      CancelRight(Yields(r.results), done, later);
    } else {
      var open := Frame(r.parser.framing.timecode, r.parser.framing.buffer + Flatten(tail));
      Assoc(Yields(r.results), [open], later);
      CancelRight(Yields(r.results) + [open], done, later);
      LastWhole(frames, k);
      assert Yields(r.results) == (Yields(r.results) + [open])[..|done| - 1];
    }
  }

  lemma {:induction false} LastWhole(frames: seq<MuxFrame>, k: nat)
    requires LegalFrames(frames) && k <= |frames|
    requires Wholes(frames[..k]) != []
    ensures k > 0 && Wholes(frames[..k]) == Wholes(frames[..k - 1]) + [frames[k - 1].Whole()]
  {
    var done := frames[..k];
    WholesSplit(done, k - 1);
    assert done[..k - 1] == frames[..k - 1] && done[k - 1..] == [frames[k - 1]];
    assert Wholes([frames[k - 1]]) == [frames[k - 1].Whole()] + Wholes([]);
  }

  /** Without a filter: all complete frames come out, and the buffer holds the received part of the last one. */
  lemma {:induction false} WindowYields(sectors: seq<seq<byte>>, more: seq<Packet>, stray: seq<seq<byte>>,
                                        frames: seq<MuxFrame>)
    returns (tail: seq<seq<byte>>, k: nat)
    requires LegalFrames(frames) && AllFit(sectors)
    requires Trace(sectors) + more == Multiplex(stray, frames)
    ensures k <= |frames| && more == Multiplex(tail, frames[k..]) && CutInside(tail, stray, frames, k)
    ensures var r := ParseAll(NewParser(Dst, None), sectors);
            AllOk(r.results) && WindowContents(r, tail, frames, k)
  {
    tail, k := MuxRun(NewParser(Dst, None), sectors, more, stray, frames);
    OwedWindow(ParseAll(NewParser(Dst, None), sectors), tail, frames, k);
  }

  // ---------------------------------------------------------------- the theorems, down to bytes

  /** The encoded sectors of a list of layouts, and the packets they carry. */
  function Encoded(layouts: seq<Layout>): (sectors: seq<seq<byte>>)
    requires forall i :: 0 <= i < |layouts| ==> layouts[i].Legal()
    ensures |sectors| == |layouts|
  {
    if layouts == [] then [] else Encoded(layouts[..|layouts| - 1]) + [layouts[|layouts| - 1].Encode()]
  }

  function Carried(layouts: seq<Layout>): seq<Packet> {
    if layouts == [] then []
    else Carried(layouts[..|layouts| - 1]) + layouts[|layouts| - 1].Packets()
  }

  lemma {:induction false} EncodedCarries(layouts: seq<Layout>)
    requires forall i :: 0 <= i < |layouts| ==> layouts[i].Legal()
    ensures AllFit(Encoded(layouts)) && Trace(Encoded(layouts)) == Carried(layouts)
    decreases |layouts|
  {
    if layouts != [] {
      var init, last := layouts[..|layouts| - 1], layouts[|layouts| - 1];
      EncodedCarries(init);
      SectorRoundTrip(last);
      TraceSnoc(Encoded(init), last.Encode());
    }
  }

  /** What a window of the stream contains: whole frames, then the received part of the one cut off by its end. */
  function WindowFrames(tail: seq<seq<byte>>, frames: seq<MuxFrame>, k: nat): seq<Frame>
    requires LegalFrames(frames) && k <= |frames|
  {
    if tail == [] then
      Wholes(frames[..k])
    else if k == 0 || |Flatten(tail)| >= |frames[k - 1].Whole().data| then
      Wholes(frames[..if k == 0 then 0 else k - 1])
    else
      var cut := frames[k - 1].Whole();
      Wholes(frames[..k - 1]) + [Frame(cut.timecode, cut.data[..|cut.data| - |Flatten(tail)|])]
  }

  lemma {:induction false} FlushedWindow(r: Run, tail: seq<seq<byte>>, frames: seq<MuxFrame>, k: nat)
    requires LegalFrames(frames) && k <= |frames| && WindowContents(r, tail, frames, k)
    requires r.parser.format.Dst? && r.parser.filter == None
    ensures Yields(r.results) + OptionalFrame(Flush(r.parser).frame) == WindowFrames(tail, frames, k)
  {
    var buffer := r.parser.framing.buffer;
    assert Yields(r.results) + [] == Yields(r.results);
    if tail != [] && k > 0 {
      assert (buffer + Flatten(tail))[..|buffer|] == buffer;
    }
  }

  /**
   * Everything extracted from sectors that carry a window of a multiplexed stream, flush
   * included, is what the window contains, restricted to the filter. `stray` are payloads of
   * an earlier frame at the front of the window, `more` is whatever follows it.
   */
  lemma {:induction false} WindowRoundTrip(filter: Option<Window>, layouts: seq<Layout>, more: seq<Packet>,
                                           stray: seq<seq<byte>>,
                        frames: seq<MuxFrame>)
    returns (tail: seq<seq<byte>>, k: nat)
    requires LegalFrames(frames) && forall i :: 0 <= i < |layouts| ==> layouts[i].Legal()
    requires Carried(layouts) + more == Multiplex(stray, frames)
    ensures k <= |frames| && more == Multiplex(tail, frames[k..]) && CutInside(tail, stray, frames, k)
    ensures var r := ParseAll(NewParser(Dst, filter), Encoded(layouts));
            && AllOk(r.results)
            && Yields(r.results) + OptionalFrame(Flush(r.parser).frame)
               == Filtered(WindowFrames(tail, frames, k), filter)
            && (tail == [] ==> Flush(r.parser).frame == None)
  {
    var sectors := Encoded(layouts);
    EncodedCarries(layouts);
    tail, k := WindowYields(sectors, more, stray, frames);
    var u := ParseAll(NewParser(Dst, None), sectors);
    RunKeepsWellFormed(None, sectors);
    FlushedWindow(u, tail, frames, k);
    if filter.Some? {
      ExtractionIsFiltered(filter.value, sectors);
    }
  }

  lemma {:induction false} NothingLeft(rest: seq<seq<byte>>, frames: seq<MuxFrame>)
    requires LegalFrames(frames) && Multiplex(rest, frames) == []
    ensures rest == [] && frames == []
  {
  }

  lemma {:induction false} WholeWindow(frames: seq<MuxFrame>, k: nat)
    requires LegalFrames(frames) && k <= |frames| && frames[k..] == []
    ensures WindowFrames([], frames, k) == Wholes(frames)
  {
    assert |frames[k..]| == |frames| - k;
    assert frames[..k] == frames;
  }

  /**
   * The round trip: whole frames, packed into sectors in any legal way, come out exactly as
   * they went in, restricted to the filter, and nothing is left for `flush`.
   */
  lemma {:induction false} DemuxRoundTrip(filter: Option<Window>, layouts: seq<Layout>, stray: seq<seq<byte>>,
                                          frames: seq<MuxFrame>)
    requires LegalFrames(frames) && forall i :: 0 <= i < |layouts| ==> layouts[i].Legal()
    requires Carried(layouts) == Multiplex(stray, frames)
    ensures var r := ParseAll(NewParser(Dst, filter), Encoded(layouts));
            && AllOk(r.results)
            && Yields(r.results) == Filtered(Wholes(frames), filter)
            && Flush(r.parser).frame == None
  {
    assert Carried(layouts) + [] == Carried(layouts);
    var tail, k := WindowRoundTrip(filter, layouts, [], stray, frames);
    NothingLeft(tail, frames[k..]);
    WholeWindow(frames, k);
    var r := ParseAll(NewParser(Dst, filter), Encoded(layouts));
    assert Yields(r.results) + [] == Yields(r.results);
  }
}
