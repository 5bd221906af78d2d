/** Where the bytes of a yielded frame come from, for arbitrary DST sector streams. */
module FrameProvenance {
  import opened Bytes
  import opened AudioPackets
  import opened FrameParser
  import opened FramingTheorems

  /** The audio packets of all sectors, in stream order. */
  function Trace(sectors: seq<seq<byte>>): seq<Packet> {
    if sectors == [] then [] else Trace(sectors[..|sectors| - 1]) + PacketsOf(sectors[|sectors| - 1])
  }

  lemma {:induction false} TraceSnoc(init: seq<seq<byte>>, last: seq<byte>)
    ensures Trace(init + [last]) == Trace(init) + PacketsOf(last)
  {
    assert (init + [last])[..|init|] == init;
  }

  /** The payload of the latest frame start, followed by every continuation payload after it. */
  function LatestFrame(trace: seq<Packet>): Frame {
    if trace == [] then Frame(None, [])
    else
      var earlier := LatestFrame(trace[..|trace| - 1]);
      match trace[|trace| - 1]
      case Start(info, data) => Frame(Some(info.ToFrameCount()), data)
      case Orphan(_) => earlier
      case Continue(data) => Frame(earlier.timecode, earlier.data + data)
  }

  /** How many packets the latest frame start still announces; every audio packet since then counts. */
  function Missing(trace: seq<Packet>): nat {
    if trace == [] then 0
    else
      var last := trace[|trace| - 1];
      var before := if last.Start? then last.info.sectorCount else Missing(trace[..|trace| - 1]);
      if before > 0 then before - 1 else 0
  }

  /**
   * Frame `i` is the latest frame as of the first `cuts[i]` packets, with all its announced
   * packets, and no two frames go back to the same start packet.
   */
  predicate Explains(trace: seq<Packet>, frames: seq<Frame>, cuts: seq<nat>) {
    && |cuts| == |frames|
    && (forall i :: 0 <= i < |cuts| ==> Explain(trace, frames[i], cuts[i]))
    && (forall i, j :: 0 <= i < j < |cuts| ==>
          cuts[i] <= |trace| && cuts[j] <= |trace| && Starts(trace[..cuts[i]]) < Starts(trace[..cuts[j]]))
  }

  predicate Explain(trace: seq<Packet>, frame: Frame, cut: nat) {
    && cut <= |trace| && Starts(trace[..cut]) > 0
    && frame == LatestFrame(trace[..cut]) && Missing(trace[..cut]) == 0
  }

  /** The sector that each yielded frame came out of. */
  function Sources(results: seq<Result<seq<Frame>, ParseError>>): (sources: seq<nat>)
    ensures forall i :: 0 <= i < |sources| ==> sources[i] < |results|
    decreases |results|
  {
    if results == [] then []
    else
      var n := |results| - 1;
      Sources(results[..n]) + if results[n].Ok? then seq(|results[n].value|, _ => n) else []
  }

  /** Between `from` and the end of the trace, at the end or in front of a frame start. */
  predicate Lands(trace: seq<Packet>, since: nat, cut: nat) {
    since <= cut <= |trace| && (cut == |trace| || trace[cut].Start?)
  }

  /** The cut lies in sector `n`: at its end, or in front of one of its frame starts. */
  predicate GoesOut(sectors: seq<seq<byte>>, n: nat, cut: nat) {
    n < |sectors| && Lands(Trace(sectors[..n + 1]), |Trace(sectors[..n])|, cut)
  }

  // ---------------------------------------------------------------- one packet

  /** The induction hypothesis: an open frame is the latest one and has not been yielded. */
  predicate Explained(p: Parser, trace: seq<Packet>, frames: seq<Frame>, cuts: seq<nat>) {
    && p.format.Dst?
    && Explains(trace, frames, cuts)
    && (forall i :: 0 <= i < |cuts| ==> cuts[i] <= |trace| && Starts(trace[..cuts[i]]) <= Starts(trace))
    && (p.framing.started ==>
          && Starts(trace) > 0
          && Frame(p.framing.timecode, p.framing.buffer) == LatestFrame(trace)
          && p.framing.countdown == Missing(trace)
          && forall i :: 0 <= i < |cuts| ==> cuts[i] <= |trace| && Starts(trace[..cuts[i]]) < Starts(trace))
  }

  /** The cuts of new frames come behind those of the old ones, and land from `since` on. */
  predicate Grows(trace: seq<Packet>, since: nat, cuts: seq<nat>, cuts': seq<nat>) {
    cuts <= cuts' && forall i :: |cuts| <= i < |cuts'| ==> Lands(trace, since, cuts'[i])
  }

  lemma {:induction false} EmitExplained(p: Parser, next: Framing, trace: seq<Packet>, frames: seq<Frame>,
                                         cuts: seq<nat>)
    returns (cuts': seq<nat>)
    requires Explained(p, trace, frames, cuts) && p.framing.Complete()
    ensures Explains(trace, frames + Emit(p, next).frames, cuts')
    ensures forall i :: 0 <= i < |cuts'| ==> cuts'[i] <= |trace| && Starts(trace[..cuts'[i]]) <= Starts(trace)
    ensures cuts' == cuts || cuts' == cuts + [|trace|]
  {
    assert trace[..|trace|] == trace;
    cuts' := if Emit(p, next).frames == [] then cuts else cuts + [|trace|];
  }

  lemma {:induction false} ExplainsLonger(trace: seq<Packet>, packet: Packet, frames: seq<Frame>, cuts: seq<nat>)
    requires Explains(trace, frames, cuts) && forall i :: 0 <= i < |cuts| ==> cuts[i] <= |trace|
    ensures Explains(trace + [packet], frames, cuts)
    ensures forall i :: 0 <= i < |cuts| ==> (trace + [packet])[..cuts[i]] == trace[..cuts[i]]
  {
    forall i | 0 <= i < |cuts| ensures (trace + [packet])[..cuts[i]] == trace[..cuts[i]] {}
  }

  lemma {:induction false} StepExplained(p: Parser, packet: Packet, trace: seq<Packet>, frames: seq<Frame>,
                                         cuts: seq<nat>)
    returns (cuts': seq<nat>)
    requires Explained(p, trace, frames, cuts)
    ensures Explained(Step(p, packet).parser, trace + [packet], frames + Step(p, packet).frames, cuts')
    ensures cuts' == cuts || (packet.Start? && cuts' == cuts + [|trace|])
  {
    cuts' := cuts;
    if packet.Start? && p.framing.Complete() {
      cuts' := EmitExplained(p, Advance(p.framing, packet), trace, frames, cuts);
    } else {
      assert frames + [] == frames;
    }
    ExplainsLonger(trace, packet, frames + Step(p, packet).frames, cuts');
    assert (trace + [packet])[..|trace|] == trace;
  }

  // ---------------------------------------------------------------- a sector, and a run

  lemma {:induction false} GrowsSnoc(trace: seq<Packet>, packet: Packet, since: nat, cuts: seq<nat>, mid: seq<nat>,
                                     cuts': seq<nat>)
    requires since <= |trace| && Inside(trace, since, cuts, mid)
    requires cuts' == mid || (packet.Start? && cuts' == mid + [|trace|])
    ensures Inside(trace + [packet], since, cuts, cuts')
  {
  }

  /** New cuts so far within a sector: all in front of frame starts. */
  predicate Inside(trace: seq<Packet>, since: nat, cuts: seq<nat>, cuts': seq<nat>) {
    cuts <= cuts' && forall i :: |cuts| <= i < |cuts'| ==> since <= cuts'[i] < |trace| && trace[cuts'[i]].Start?
  }

  lemma {:induction false} FeedExplained(p: Parser, packets: seq<Packet>, trace: seq<Packet>, frames: seq<Frame>,
                                         cuts: seq<nat>)
    returns (cuts': seq<nat>)
    requires Explained(p, trace, frames, cuts)
    ensures Explained(Feed(p, packets).parser, trace + packets, frames + Feed(p, packets).frames, cuts')
    ensures Inside(trace + packets, |trace|, cuts, cuts')
    decreases |packets|
  {
    if packets == [] {
      assert trace + packets == trace && frames + [] == frames;
      cuts' := cuts;
    } else {
      var init, last := packets[..|packets| - 1], packets[|packets| - 1];
      var before := Feed(p, init);
      var mid := FeedExplained(p, init, trace, frames, cuts);
      cuts' := StepExplained(before.parser, last, trace + init, frames + before.frames, mid);
      GrowsSnoc(trace + init, last, |trace|, cuts, mid, cuts');
      var o := Step(before.parser, last);
      assert trace + packets == (trace + init) + [last];
      Assoc(frames, before.frames, o.frames);
    }
  }

  lemma {:induction false} SectorExplained(p: Parser, sector: seq<byte>, trace: seq<Packet>, frames: seq<Frame>,
                                           cuts: seq<nat>)
    returns (cuts': seq<nat>)
    requires Explained(p, trace, frames, cuts)
    ensures var r := ParseSector(p, sector);
            Explained(r.parser, trace + PacketsOf(sector), frames + (if r.result.Ok? then r.result.value else []),
                      cuts')
    ensures Grows(trace + PacketsOf(sector), |trace|, cuts, cuts')
  {
    var trace' := trace + PacketsOf(sector);
    var fed := Feed(p, PacketsOf(sector));
    cuts' := FeedExplained(p, PacketsOf(sector), trace, frames, cuts);
    if ParseSector(p, sector).result.Err? {
      cuts' := cuts'[..|frames|];
      assert frames + [] == frames;
    } else {
      var closed := EndSector(fed.parser);
      Assoc(frames, fed.frames, closed.frames);
      if fed.parser.framing.Complete() {
        cuts' := EmitExplained(fed.parser, closed.parser.framing, trace', frames + fed.frames, cuts');
      } else {
        assert (frames + fed.frames) + [] == frames + fed.frames;
      }
    }
  }

  /** The cuts of a run lie in the sectors its frames came out of. */
  predicate AllGoOut(sectors: seq<seq<byte>>, sources: seq<nat>, cuts: seq<nat>) {
    |cuts| == |sources| && forall i :: 0 <= i < |cuts| ==> GoesOut(sectors, sources[i], cuts[i])
  }

  lemma {:induction false} GoOutSnoc(init: seq<seq<byte>>, last: seq<byte>, sources: seq<nat>, sources': seq<nat>,
                                     cuts: seq<nat>,
                  cuts': seq<nat>)
    requires AllGoOut(init, sources, cuts) && Grows(Trace(init) + PacketsOf(last), |Trace(init)|, cuts, cuts')
    requires |cuts'| == |sources'| && sources <= sources'
    requires forall i :: |sources| <= i < |sources'| ==> sources'[i] == |init|
    ensures AllGoOut(init + [last], sources', cuts')
  {
    var sectors := init + [last];
    TraceSnoc(init, last);
    assert sectors[..|init|] == init && sectors[..|init| + 1] == sectors;
    forall i | 0 <= i < |cuts'| ensures GoesOut(sectors, sources'[i], cuts'[i]) {
      if i < |cuts| {
        assert GoesOut(init, sources[i], cuts[i]);
        GoesOutLater(init, last, sources[i], cuts[i]);
      } else {
        assert Lands(Trace(sectors), |Trace(init)|, cuts'[i]);
      }
    }
  }

  lemma {:induction false} GoesOutLater(init: seq<seq<byte>>, last: seq<byte>, n: nat, cut: nat)
    requires GoesOut(init, n, cut)
    ensures GoesOut(init + [last], n, cut)
  {
    assert (init + [last])[..n] == init[..n] && (init + [last])[..n + 1] == init[..n + 1];
  }

  lemma {:induction false} SourcesSnoc(results: seq<Result<seq<Frame>, ParseError>>, last: Result<seq<Frame>,
                                       ParseError>)
    ensures Sources(results + [last]) == Sources(results) + if last.Ok? then seq(|last.value|, _ => |results|) else []
    ensures |Sources(results)| == |Yields(results)|
  {
    TakeDrop(results, [last]);
    SourcesLength(results);
  }

  lemma {:induction false} SourcesLength(results: seq<Result<seq<Frame>, ParseError>>)
    ensures |Sources(results)| == |Yields(results)|
    decreases |results|
  {
    if results != [] {
      SourcesLength(results[..|results| - 1]);
    }
  }

  /**
   * Every frame a run yields is its start packet's payload followed by all the continuation
   * payloads up to the point where it went out, which is the next frame start, or the end, of the
   * sector that yielded it. It then has all its announced packets, and every start packet
   * accounts for one frame at most.
   */
  lemma {:induction false} YieldsAreExplained(filter: Option<Window>, sectors: seq<seq<byte>>) returns (cuts: seq<nat>)
    ensures var r := ParseAll(NewParser(Dst, filter), sectors);
            && Explained(r.parser, Trace(sectors), Yields(r.results), cuts)
            && Explains(Trace(sectors), Yields(r.results), cuts)
            && AllGoOut(sectors, Sources(r.results), cuts)
    decreases |sectors|
  {
    var p := NewParser(Dst, filter);
    if sectors == [] {
      cuts := [];
    } else {
      var init, last := sectors[..|sectors| - 1], sectors[|sectors| - 1];
      SplitLast(sectors);
      YieldsSnoc(p, init, last);
      var before := ParseAll(p, init);
      var now := ParseSector(before.parser, last);
      var earlier := YieldsAreExplained(filter, init);
      cuts := SectorExplained(before.parser, last, Trace(init), Yields(before.results), earlier);
      SourcesSnoc(before.results, now.result);
      SourcesLength(before.results + [now.result]);
      GoOutSnoc(init, last, Sources(before.results), Sources(before.results + [now.result]), earlier, cuts);
    }
  }

  /**
   * The point is the only one: two cuts of a trace that are in the same sector, explain frames of the
   * same start packet, and lie at the sector's end or in front of a frame start, are the same.
   */
  lemma {:induction false} CutIsUnique(sectors: seq<seq<byte>>, n: nat, a: nat, b: nat)
    requires GoesOut(sectors, n, a) && GoesOut(sectors, n, b) && a <= b
    requires Starts(Trace(sectors[..n + 1])[..a]) == Starts(Trace(sectors[..n + 1])[..b])
    ensures a == b
  {
    var trace := Trace(sectors[..n + 1]);
    if a < b {
      StartCounted(trace, a);
      StartsGrow(trace, a + 1, b);
    }
  }

  lemma {:induction false} StartCounted(trace: seq<Packet>, a: nat)
    requires a < |trace| && trace[a].Start?
    ensures Starts(trace[..a + 1]) == Starts(trace[..a]) + 1
  {
    assert trace[..a + 1][..a] == trace[..a];
  }

  lemma {:induction false} StartsGrow(trace: seq<Packet>, a: nat, b: nat)
    requires a <= b <= |trace|
    ensures Starts(trace[..a]) <= Starts(trace[..b])
    decreases b
  {
    if a < b {
      StartsGrow(trace, a, b - 1);
      assert trace[..b][..b - 1] == trace[..b - 1];
    }
  }
}
