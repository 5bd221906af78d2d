/** One track: what its pipeline delivers from the sectors of its range. */
module Extraction {
  import opened Bytes
  import AP = AudioPackets
  import FP = FrameParser
  import FT = FramingTheorems
  import SE = SectorEncoding
  import DX = Demux
  import TW = TrackWindows
  import PL = Pipeline
  import PS = PipelineSafety
  import PT = PipelineTheorems
  import PD = PlainDsd

  function Datas(frames: seq<FP.Frame>): (r: seq<seq<byte>>)
    ensures |r| == |frames|
  {
    seq(|frames|, i requires 0 <= i < |frames| => frames[i].data)
  }

  lemma {:induction false} DatasConcat(a: seq<FP.Frame>, b: seq<FP.Frame>)
    ensures Datas(a + b) == Datas(a) + Datas(b)
  {
  }

  function Adapt(r: FP.Parsed): PL.Parsed<FP.Parser> {
    PL.Parsed(r.parser, if r.result.Err? then Err(PL.StageError) else Ok(Datas(r.result.value)))
  }

  function AdaptFlush(f: FP.Flushed): Option<PL.Raw> {
    if f.frame == None then None else Some(f.frame.value.data)
  }

  type Decode = PL.Raw -> Result<PL.Audio, PL.StageError>

  /** The pipeline of one track; frames of an uncompressed area pass through undecoded. */
  function TrackSetup(plan: TW.Plan, format: AP.FrameFormat, disc: nat -> seq<byte>,
                      decode: Decode): PL.Setup<FP.Parser> {
    PL.Setup(plan.start, plan.end, disc, FP.NewParser(format, Some(plan.filter)),
             (p, sector) => Adapt(FP.ParseSector(p, sector)),
             p => AdaptFlush(FP.Flush(p)),
             if format.Dst? then decode else raw => Ok(raw))
  }

  /** A complete and successful run of a track's pipeline. */
  ghost predicate Succeeds(plan: TW.Plan, format: AP.FrameFormat, disc: nat -> seq<byte>, decode: Decode,
                           run: seq<PL.State<FP.Parser>>)
  {
    var c := TrackSetup(plan, format, disc, decode);
    PT.IsRun(c, run) && PL.Terminal(run[|run| - 1]) && PL.Outcome(run[|run| - 1]).Ok?
  }

  /** The first `n` sectors of the range. */
  function SectorsOf(disc: nat -> seq<byte>, start: nat, n: nat): (r: seq<seq<byte>>)
    ensures |r| == n
  {
    seq(n, i requires 0 <= i < n => disc(start + i))
  }

  /** The pipeline runs this parser. */
  ghost predicate Wraps(c: PL.Setup<FP.Parser>, format: AP.FrameFormat, filter: FP.Window) {
    && c.initial == FP.NewParser(format, Some(filter))
    && (forall p, sector :: c.parse(p, sector) == Adapt(FP.ParseSector(p, sector)))
    && (forall p :: c.flush(p) == AdaptFlush(FP.Flush(p)))
  }

  lemma {:induction false} TrackSetupWraps(plan: TW.Plan, format: AP.FrameFormat, disc: nat -> seq<byte>,
                                           decode: Decode)
    ensures Wraps(TrackSetup(plan, format, disc, decode), format, plan.filter)
  {
  }

  /** The parser's run over the first `n` sectors of the range. */
  function ParserRun(c: PL.Setup<FP.Parser>, format: AP.FrameFormat, filter: FP.Window, n: nat): FP.Run {
    FP.ParseAll(FP.NewParser(format, Some(filter)), SectorsOf(c.disc, c.start, n))
  }

  /** The pipeline's sequential meaning after `n` sectors is this run. */
  ghost predicate Agrees(c: PL.Setup<FP.Parser>, n: nat, r: FP.Run) {
    && PL.ParserAt(c, n) == r.parser
    && PL.FramesAt(c, n) == Datas(FP.Yields(r.results))
    && (PL.Parses(c, n) <==> FP.AllOk(r.results))
  }

  ghost predicate Extends(c: PL.Setup<FP.Parser>, n: nat, before: FP.Run, after: FP.Run) {
    exists now: FP.Parsed :: IsStep(c, n, before, now, after)
  }

  predicate IsStep(c: PL.Setup<FP.Parser>, n: nat, before: FP.Run, now: FP.Parsed, after: FP.Run) {
    && c.parse(before.parser, c.disc(c.start + n)) == Adapt(now)
    && after == FP.Run(now.parser, before.results + [now.result])
  }

  lemma {:induction false} AgreesAlong(c: PL.Setup<FP.Parser>, run: nat -> FP.Run, n: nat)
    requires run(0) == FP.Run(c.initial, []) && forall k: nat :: Extends(c, k, run(k), run(k + 1))
    ensures Agrees(c, n, run(n))
  {
    if n == 0 {
      assert Datas([]) == [];
    } else {
      AgreesAlong(c, run, n - 1);
      AgreesStep(c, n - 1, run(n - 1), run(n - 1 + 1));
    }
  }

  lemma {:induction false} AgreesStep(c: PL.Setup<FP.Parser>, n: nat, before: FP.Run, after: FP.Run)
    requires Agrees(c, n, before) && Extends(c, n, before, after)
    ensures Agrees(c, n + 1, after)
  {
    var now: FP.Parsed :| IsStep(c, n, before, now, after);
    YieldsAdd(before.results, now.result);
    DatasConcat(FP.Yields(before.results), if now.result.Ok? then now.result.value else []);
    SnocOk(before.results, now.result);
    SnocParses(c, n);
  }

  lemma {:induction false} YieldsAdd(results: seq<Result<seq<FP.Frame>, FP.ParseError>>, last: Result<seq<FP.Frame>,
                                     FP.ParseError>)
    ensures FP.Yields(results + [last]) == FP.Yields(results) + if last.Ok? then last.value else []
  {
    TakeDrop(results, [last]);
  }

  lemma {:induction false} ParserRunExtends(c: PL.Setup<FP.Parser>, format: AP.FrameFormat, filter: FP.Window, n: nat)
    requires Wraps(c, format, filter)
    ensures Extends(c, n, ParserRun(c, format, filter, n), ParserRun(c, format, filter, n + 1))
  {
    var now := ParserRunStep(c, format, filter, n);
    assert IsStep(c, n, ParserRun(c, format, filter, n), now, ParserRun(c, format, filter, n + 1));
  }

  lemma {:induction false} ParserRunStep(c: PL.Setup<FP.Parser>, format: AP.FrameFormat, filter: FP.Window, n: nat)
    returns (now: FP.Parsed)
    requires Wraps(c, format, filter)
    ensures c.parse(ParserRun(c, format, filter, n).parser, c.disc(c.start + n)) == Adapt(now)
    ensures ParserRun(c, format, filter, n + 1)
         == FP.Run(now.parser, ParserRun(c, format, filter, n).results + [now.result])
  {
    SectorsSnoc(c.disc, c.start, n);
    now := FT.RunSnoc(FP.NewParser(format, Some(filter)), SectorsOf(c.disc, c.start, n), c.disc(c.start + n));
    WrapsAt(c, format, filter, ParserRun(c, format, filter, n).parser, c.disc(c.start + n), now);
  }

  lemma {:induction false} WrapsAt(c: PL.Setup<FP.Parser>, format: AP.FrameFormat, filter: FP.Window, p: FP.Parser,
                                   sector: seq<byte>,
                now: FP.Parsed)
    requires Wraps(c, format, filter) && now == FP.ParseSector(p, sector)
    ensures c.parse(p, sector) == Adapt(now)
  {
  }

  lemma {:induction false} SectorsSnoc(disc: nat -> seq<byte>, start: nat, n: nat)
    ensures SectorsOf(disc, start, n + 1) == SectorsOf(disc, start, n) + [disc(start + n)]
  {
  }

  /** The pipeline's sequential meaning is a run of the parser over the sectors of the range. */
  lemma {:induction false} SetupRuns(c: PL.Setup<FP.Parser>, format: AP.FrameFormat, filter: FP.Window, n: nat)
    requires Wraps(c, format, filter)
    ensures Agrees(c, n, ParserRun(c, format, filter, n))
  {
    var run := (k: nat) => ParserRun(c, format, filter, k);
    forall k: nat ensures Extends(c, k, run(k), run(k + 1)) {
      ParserRunExtends(c, format, filter, k);
    }
    AgreesAlong(c, run, n);
  }

  lemma {:induction false} SnocOk(results: seq<Result<seq<FP.Frame>, FP.ParseError>>, last: Result<seq<FP.Frame>,
                                  FP.ParseError>)
    ensures FP.AllOk(results + [last]) <==> FP.AllOk(results) && last.Ok?
  {
    assert (results + [last])[|results|] == last;
    assert forall i :: 0 <= i < |results| ==> (results + [last])[i] == results[i];
  }

  lemma {:induction false} SnocParses<P>(c: PL.Setup<P>, n: nat)
    ensures PL.Parses(c, n + 1) <==> PL.Parses(c, n) && PL.SectorFrames(c, n).Ok?
  {
  }

  /** Hence the frames that enter the pipeline are what the parser extracts, flush included. */
  lemma {:induction false} SetupFrames(plan: TW.Plan, format: AP.FrameFormat, disc: nat -> seq<byte>, decode: Decode)
    ensures var c := TrackSetup(plan, format, disc, decode);
            var r := FP.ParseAll(FP.NewParser(format, Some(plan.filter)), SectorsOf(disc, plan.start, c.Sectors()));
            && PL.AllFrames(c) == Datas(FT.Extracted(FP.NewParser(format, Some(plan.filter)),
                                                     SectorsOf(disc, plan.start, c.Sectors())))
            && (PL.Parses(c, c.Sectors()) <==> FP.AllOk(r.results))
  {
    var c := TrackSetup(plan, format, disc, decode);
    TrackSetupWraps(plan, format, disc, decode);
    SetupRuns(c, format, plan.filter, c.Sectors());
    var r := ParserRun(c, format, plan.filter, c.Sectors());
    DatasConcat(FP.Yields(r.results), FT.OptionalFrame(FP.Flush(r.parser).frame));
  }

  lemma {:induction false} FlattenDatas(frames: seq<FP.Frame>)
    ensures Flatten(Datas(frames)) == FP.Data(frames)
    decreases |frames|
  {
    if frames != [] {
      var init, last := frames[..|frames| - 1], frames[|frames| - 1];
      FlattenDatas(init);
      assert Datas(frames) == Datas(init) + [last.data];
      FlattenSnoc(Datas(init), last.data);
    }
  }

  lemma {:induction false} PassThrough(plan: TW.Plan, format: AP.FrameFormat, disc: nat -> seq<byte>, decode: Decode,
                                       frames: seq<PL.Raw>)
    requires !format.Dst?
    ensures var c := TrackSetup(plan, format, disc, decode);
            PL.AllDecode(c, frames) && PL.Values(c, frames) == frames
  {
  }

  /**
   * Uncompressed areas: every successful complete run delivers all payload bytes of the
   * track's sectors in order. The timecode filter does not apply to them.
   */
  lemma {:induction false} PlainTrackDelivers(plan: TW.Plan, format: AP.FrameFormat, disc: nat -> seq<byte>,
                                              decode: Decode,
                           run: seq<PL.State<FP.Parser>>)
    requires !format.Dst? && Succeeds(plan, format, disc, decode, run)
    ensures var sectors := SectorsOf(disc, plan.start, TrackSetup(plan, format, disc, decode).Sectors());
            Flatten(PL.Outcome(run[|run| - 1]).value) == PD.TotalPayload(sectors)
  {
    var c := TrackSetup(plan, format, disc, decode);
    var sectors := SectorsOf(disc, plan.start, c.Sectors());
    PT.CompleteRunMeansReference(c, run);
    PassThrough(plan, format, disc, decode, PL.AllFrames(c));
    SetupFrames(plan, format, disc, decode);
    PD.FlushCompletes(format, Some(plan.filter), sectors);
    var r := FP.ParseAll(FP.NewParser(format, Some(plan.filter)), sectors);
    var last := FT.OptionalFrame(FP.Flush(r.parser).frame);
    FlattenDatas(FP.Yields(r.results) + last);
    FP.DataConcat(FP.Yields(r.results), last);
    if last != [] {
      assert FP.Data(last) == FP.Data([]) + last[0].data == last[0].data;
    }
  }

  // ---------------------------------------------------------------- one DST track

  /** The decoder's answers for a list of frames. */
  function Answers(decode: Decode, frames: seq<FP.Frame>): (r: seq<Result<PL.Audio, PL.StageError>>)
    ensures |r| == |frames|
  {
    seq(|frames|, i requires 0 <= i < |frames| => decode(frames[i].data))
  }

  lemma {:induction false} AnswersConcat(decode: Decode, a: seq<FP.Frame>, b: seq<FP.Frame>)
    ensures Answers(decode, a + b) == Answers(decode, a) + Answers(decode, b)
  {
  }

  /** A successful run of a track whose sectors yield `frames`. */
  ghost predicate Delivers(plan: TW.Plan, disc: nat -> seq<byte>, decode: Decode, run: seq<PL.State<FP.Parser>>,
                           frames: seq<FP.Frame>)
  {
    && Succeeds(plan, AP.Dst, disc, decode, run)
    && PL.AllFrames(TrackSetup(plan, AP.Dst, disc, decode)) == Datas(frames)
  }

  lemma {:induction false} DeliveredFrames(plan: TW.Plan, disc: nat -> seq<byte>, decode: Decode,
                                           run: seq<PL.State<FP.Parser>>,
                        frames: seq<FP.Frame>)
    requires Delivers(plan, disc, decode, run, frames)
    ensures PL.Oks(PL.Outcome(run[|run| - 1]).value) == Answers(decode, frames)
  {
    var c := TrackSetup(plan, AP.Dst, disc, decode);
    PT.CompleteRunMeansReference(c, run);
    PS.OksOfValues(c, PL.AllFrames(c));
    assert PL.Decoded(c, Datas(frames)) == Answers(decode, frames);
  }

  /**
   * One track, from sectors to decoded audio: if the sectors of its range carry a window of a
   * multiplexed stream, every complete successful run delivers exactly the decoded frames of
   * that window that pass the track's filter, in stream order.
   */
  lemma {:induction false} TrackDelivers(plan: TW.Plan, disc: nat -> seq<byte>, decode: Decode,
                                         run: seq<PL.State<FP.Parser>>,
                      layouts: seq<SE.Layout>, more: seq<AP.Packet>, stray: seq<seq<byte>>, frames: seq<DX.MuxFrame>)
    returns (tail: seq<seq<byte>>, k: nat)
    requires forall i :: 0 <= i < |layouts| ==> layouts[i].Legal()
    requires DX.LegalFrames(frames) && DX.Carried(layouts) + more == DX.Multiplex(stray, frames)
    requires SectorsOf(disc, plan.start, TrackSetup(plan, AP.Dst, disc, decode).Sectors()) == DX.Encoded(layouts)
    requires Succeeds(plan, AP.Dst, disc, decode, run)
    ensures k <= |frames| && more == DX.Multiplex(tail, frames[k..]) && DX.CutInside(tail, stray, frames, k)
    ensures var kept := FT.Restrict(DX.WindowFrames(tail, frames, k), plan.filter);
            && Delivers(plan, disc, decode, run, kept)
            && PL.Oks(PL.Outcome(run[|run| - 1]).value) == Answers(decode, kept)
  {
    SetupFrames(plan, AP.Dst, disc, decode);
    tail, k := DX.WindowRoundTrip(Some(plan.filter), layouts, more, stray, frames);
    DeliveredFrames(plan, disc, decode, run, FT.Restrict(DX.WindowFrames(tail, frames, k), plan.filter));
  }
}
