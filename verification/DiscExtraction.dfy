/** From the sectors of a disc to the bytes of its DSF files: all components together. */
module DiscExtraction {
  import opened Bytes
  import opened AreaStream
  import opened Extraction
  import opened TrackChain
  import opened TrackFiles
  import AP = AudioPackets
  import BI = BlockInterleave
  import BitOrder
  import DF = DsfFile
  import DX = Demux
  import FP = FrameParser
  import FT = FramingTheorems
  import GL = Gapless
  import PL = Pipeline
  import PS = PipelineSafety
  import PT = PipelineTheorems
  import SE = SectorEncoding
  import TW = TrackWindows

  // ---------------------------------------------------------------- one track of an area

  /** The sectors of the disc from `base` on are these layouts, encoded. */
  predicate OnDisc(base: nat, disc: nat -> seq<byte>, layouts: seq<SE.Layout>)
    requires LegalLayouts(layouts)
  {
    forall i :: 0 <= i < |layouts| ==> OnDiscAt(base, disc, layouts, i)
  }

  predicate OnDiscAt(base: nat, disc: nat -> seq<byte>, layouts: seq<SE.Layout>, i: nat)
    requires LegalLayouts(layouts) && i < |layouts|
  {
    disc(base + i) == layouts[i].Encode()
  }

  /** The sectors [start, end) of the disc hold the frames with numbers in the window. */
  predicate HoldsFrames(base: nat, layouts: seq<SE.Layout>, mux: seq<DX.MuxFrame>, start: nat, end: nat, w: FP.Window)
    requires DX.LegalFrames(mux)
  {
    base <= start <= end <= base + |layouts| && HoldsWindow(layouts, mux, start - base, end - base, w)
  }

  /** A track's sector range holds the frames that the track's filter selects. */
  predicate HoldsTrack(base: nat, layouts: seq<SE.Layout>, mux: seq<DX.MuxFrame>, plan: TW.Plan)
    requires DX.LegalFrames(mux)
  {
    HoldsFrames(base, layouts, mux, plan.start, plan.end, plan.filter)
  }

  lemma {:induction false} EncodedAt(layouts: seq<SE.Layout>, i: nat)
    requires LegalLayouts(layouts) && i < |layouts|
    ensures DX.Encoded(layouts)[i] == layouts[i].Encode()
    decreases |layouts|
  {
    if i < |layouts| - 1 {
      EncodedAt(layouts[..|layouts| - 1], i);
    }
  }

  lemma {:induction false} RangeOnDisc(base: nat, disc: nat -> seq<byte>, layouts: seq<SE.Layout>, start: nat,
                                       a: nat, b: nat)
    requires LegalLayouts(layouts) && OnDisc(base, disc, layouts) && a <= b <= |layouts| && start == base + a
    ensures SectorsOf(disc, start, b - a) == DX.Encoded(layouts[a..b])
  {
    var sectors := SectorsOf(disc, start, b - a);
    forall i | 0 <= i < b - a ensures sectors[i] == DX.Encoded(layouts[a..b])[i] {
      EncodedAt(layouts[a..b], i);
      assert OnDiscAt(base, disc, layouts, a + i);
      assert layouts[a..b][i] == layouts[a + i];
    }
  }

  lemma {:induction false} PlannedSectors(plan: TW.Plan, format: AP.FrameFormat, disc: nat -> seq<byte>, decode: Decode)
    requires plan.start <= plan.end
    ensures TrackSetup(plan, format, disc, decode).Sectors() == plan.end - plan.start
  {
  }

  /** One track of an area: what enters its pipeline is exactly the area's frames that its filter selects. */
  lemma {:induction false} TrackFrames(base: nat, disc: nat -> seq<byte>, decode: Decode, layouts: seq<SE.Layout>,
                                       mux: seq<DX.MuxFrame>, plan: TW.Plan)
    requires Carries(layouts, mux) && OnDisc(base, disc, layouts) && HoldsTrack(base, layouts, mux, plan)
    ensures PL.AllFrames(TrackSetup(plan, AP.Dst, disc, decode)) == Datas(FT.Restrict(DX.Wholes(mux), plan.filter))
  {
    var a, b := TrackRange(base, layouts, mux, plan);
    RangeOnDisc(base, disc, layouts, plan.start, a, b);
    RangeYields(layouts, mux, a, b, plan.filter);
    YieldsEnter(plan, disc, decode, DX.Encoded(layouts[a..b]), FT.Restrict(DX.Wholes(mux), plan.filter));
  }

  lemma {:induction false} TrackRange(base: nat, layouts: seq<SE.Layout>, mux: seq<DX.MuxFrame>, plan: TW.Plan)
    returns (a: nat, b: nat)
    requires DX.LegalFrames(mux) && HoldsTrack(base, layouts, mux, plan)
    ensures a <= b <= |layouts| && plan.start == base + a && plan.end == plan.start + (b - a)
    ensures HoldsWindow(layouts, mux, a, b, plan.filter)
  {
    a, b := plan.start - base, plan.end - base;
  }

  lemma {:induction false} YieldsEnter(plan: TW.Plan, disc: nat -> seq<byte>, decode: Decode, sectors: seq<seq<byte>>,
                                       frames: seq<FP.Frame>)
    requires plan.end == plan.start + |sectors| && SectorsOf(disc, plan.start, |sectors|) == sectors
    requires FT.Extracted(FP.NewParser(AP.Dst, Some(plan.filter)), sectors) == frames
    ensures PL.AllFrames(TrackSetup(plan, AP.Dst, disc, decode)) == Datas(frames)
  {
    PlannedSectors(plan, AP.Dst, disc, decode);
    SetupFrames(plan, AP.Dst, disc, decode);
  }

  // ---------------------------------------------------------------- tracks by disc frame numbers

  /** The number of the first frame of a track, and of the first one behind it. */
  function StartOf(area: TW.Area, number: nat): nat
    requires 1 <= number <= |area.starts|
  {
    var t := area.starts[number - 1];
    AP.FrameNumber(t.minutes, t.seconds, t.frames)
  }

  function EndOf(area: TW.Area, number: nat): nat
    requires 1 <= number <= |area.starts| && number <= |area.durations|
  {
    var t := area.durations[number - 1];
    StartOf(area, number) + AP.FrameNumber(t.minutes, t.seconds, t.frames)
  }

  /** The tracks up to number `n` follow each other without a gap, and end below 256 minutes. */
  predicate TracksFollow(area: TW.Area, n: nat) {
    && n <= |area.starts| && n <= |area.durations|
    && (forall i, j :: 1 <= i <= n && 1 <= j <= n && j == i + 1 ==> StartOf(area, j) == EndOf(area, i))
    && (n > 0 ==> EndOf(area, n) < 1152000)
  }

  lemma {:induction false} CountsAreNumbers(area: TW.Area, number: nat)
    requires 1 <= number <= |area.starts| && number <= |area.durations|
    ensures area.starts[number - 1].FrameCount() == StartOf(area, number)
    ensures area.starts[number - 1].FrameCount() + area.durations[number - 1].FrameCount() == EndOf(area, number)
  {
    TW.CountIsNumber(area.starts[number - 1]);
    TW.CountIsNumber(area.durations[number - 1]);
  }

  lemma {:induction false} FollowIsContiguous(area: TW.Area, n: nat)
    requires TracksFollow(area, n)
    ensures TW.Contiguous(area, n)
  {
    forall i | 0 <= i < n
      ensures i > 0 ==>
                area.starts[i].FrameCount() == area.starts[i - 1].FrameCount() + area.durations[i - 1].FrameCount()
      ensures i == n - 1 ==> area.starts[i].FrameCount() + area.durations[i].FrameCount() < 1152000
    {
      CountsAreNumbers(area, i + 1);
      if i > 0 {
        CountsAreNumbers(area, i);
      }
    }
  }

  /** What a track asks the parser for is its own frames, by number. */
  lemma {:induction false} FilterIsTrack(area: TW.Area, n: nat, number: nat)
    requires TracksFollow(area, n) && 1 <= number <= n
    ensures TW.TrackFilter(area, number - 1) == FP.Window(StartOf(area, number), EndOf(area, number))
  {
    FollowIsContiguous(area, n);
    TW.FiltersAbut(area, n, number - 1);
    CountsAreNumbers(area, number);
  }

  // ---------------------------------------------------------------- consecutive tracks

  /** Track number `number` was planned, its pipeline succeeded, and `d` has what it delivered. */
  ghost predicate TrackRan(area: TW.Area, disc: nat -> seq<byte>, decode: Decode, number: nat, plan: TW.Plan,
                           run: seq<PL.State<FP.Parser>>, d: Delivery)
  {
    && TW.PlanTrack(area, number) == Ok(plan)
    && Succeeds(plan, area.format, disc, decode, run)
    && d.delivered == Ok(PL.Outcome(run[|run| - 1]).value)
  }

  /** The same for `n` tracks from number `first` on. */
  ghost predicate TracksRan(area: TW.Area, disc: nat -> seq<byte>, decode: Decode, first: nat, n: nat,
                            plans: seq<TW.Plan>, runs: seq<seq<PL.State<FP.Parser>>>, deliver: nat -> Delivery)
  {
    && |plans| == n && |runs| == n
    && forall t :: 0 <= t < n ==> TrackRanAt(area, disc, decode, first, plans, runs, deliver, t)
  }

  ghost predicate TrackRanAt(area: TW.Area, disc: nat -> seq<byte>, decode: Decode, first: nat, plans: seq<TW.Plan>,
                             runs: seq<seq<PL.State<FP.Parser>>>, deliver: nat -> Delivery, t: nat)
    requires t < |plans| == |runs|
  {
    TrackRan(area, disc, decode, first + t, plans[t], runs[t], deliver(first + t))
  }

  lemma {:induction false} PlannedFilter(area: TW.Area, number: nat, plan: TW.Plan)
    requires TW.PlanTrack(area, number) == Ok(plan)
    ensures 1 <= number <= area.trackCount && number <= |area.starts| && number <= |area.durations|
    ensures plan.filter == TW.TrackFilter(area, number - 1)
  {
  }

  /** Every decoded frame has the same number of bytes for each channel. */
  ghost predicate WholeRows(decode: Decode, channels: nat)
    requires channels > 0
  {
    forall raw :: decode(raw).Ok? ==> |decode(raw).value| % channels == 0
  }

  /** The decoded frames of the tracks, one list. */
  function Outputs(deliver: nat -> Delivery, first: nat, n: nat): seq<PL.Audio> {
    if n == 0 then []
    else
      var last := deliver(first + n - 1);
      Outputs(deliver, first, n - 1) + if last.delivered.Ok? then last.delivered.value else []
  }

  lemma {:induction false} OutputsAreAudio(deliver: nat -> Delivery, first: nat, n: nat)
    ensures AudioOfTracks(deliver, first, n) == Flatten(Outputs(deliver, first, n))
  {
    if n > 0 {
      OutputsAreAudio(deliver, first, n - 1);
      var last := deliver(first + n - 1);
      FlattenConcat(Outputs(deliver, first, n - 1), if last.delivered.Ok? then last.delivered.value else []);
      assert Flatten<byte>([]) == [];
    }
  }

  /** What one track delivers, for the audio and for the carry. */
  lemma {:induction false} TrackAnswers(base: nat, disc: nat -> seq<byte>, decode: Decode, layouts: seq<SE.Layout>,
                     mux: seq<DX.MuxFrame>, plan: TW.Plan, run: seq<PL.State<FP.Parser>>, delivered: seq<PL.Audio>,
                     channels: nat)
    requires channels > 0 && WholeRows(decode, channels)
    requires Carries(layouts, mux) && OnDisc(base, disc, layouts) && HoldsTrack(base, layouts, mux, plan)
    requires Succeeds(plan, AP.Dst, disc, decode, run) && delivered == PL.Outcome(run[|run| - 1]).value
    ensures PL.Oks(delivered) == Answers(decode, FT.Restrict(DX.Wholes(mux), plan.filter))
    ensures |Flatten(delivered)| % channels == 0
  {
    var kept := FT.Restrict(DX.Wholes(mux), plan.filter);
    TrackFrames(base, disc, decode, layouts, mux, plan);
    DeliveredFrames(plan, disc, decode, run, kept);
    AnswersInRows(decode, kept, delivered, channels);
  }

  lemma {:induction false} AnswersInRows(decode: Decode, frames: seq<FP.Frame>, audio: seq<PL.Audio>, channels: nat)
    requires channels > 0 && WholeRows(decode, channels) && PL.Oks(audio) == Answers(decode, frames)
    ensures |Flatten(audio)| % channels == 0
  {
    forall i | 0 <= i < |audio| ensures |audio[i]| % channels == 0 {
      assert PL.Oks(audio)[i] == Answers(decode, frames)[i];
      assert decode(frames[i].data) == Ok(audio[i]);
    }
    RowsOfAll(audio, channels);
  }

  lemma {:induction false} RowsOfAll(audio: seq<PL.Audio>, channels: nat)
    requires channels > 0 && forall i :: 0 <= i < |audio| ==> |audio[i]| % channels == 0
    ensures |Flatten(audio)| % channels == 0
    decreases |audio|
  {
    if audio == [] {
      BI.ModOfRow(0, channels, 0);
    } else {
      RowsOfAll(audio[1..], channels);
      GL.RowsAddUp(|audio[0]|, |Flatten(audio[1..])|, channels);
    }
  }

  /** A delivered track of the area: the decoded frames that its filter selects, a whole number of rows. */
  ghost predicate TrackDone(area: TW.Area, decode: Decode, frames: seq<FP.Frame>, number: nat, d: Delivery,
                            channels: nat)
    requires channels > 0
  {
    && 1 <= number <= area.trackCount && number <= |area.starts| && number <= |area.durations|
    && DeliversRows(d, channels)
    && PL.Oks(d.delivered.value) == Answers(decode, FT.Restrict(frames, TW.TrackFilter(area, number - 1)))
  }

  lemma {:induction false} TrackIsDone(area: TW.Area, base: nat, disc: nat -> seq<byte>, decode: Decode,
                                       layouts: seq<SE.Layout>, mux: seq<DX.MuxFrame>, number: nat, plan: TW.Plan,
                                       run: seq<PL.State<FP.Parser>>, d: Delivery, channels: nat)
    requires channels > 0 && WholeRows(decode, channels) && area.format.Dst?
    requires Carries(layouts, mux) && OnDisc(base, disc, layouts) && HoldsTrack(base, layouts, mux, plan)
    requires TrackRan(area, disc, decode, number, plan, run, d)
    ensures TrackDone(area, decode, DX.Wholes(mux), number, d, channels)
  {
    PlannedFilter(area, number, plan);
    TrackAnswers(base, disc, decode, layouts, mux, plan, run, d.delivered.value, channels);
  }

  /** All tracks from number `first` on. */
  ghost predicate TracksDone(area: TW.Area, decode: Decode, frames: seq<FP.Frame>, first: nat, n: nat,
                             deliver: nat -> Delivery, channels: nat)
    requires channels > 0
  {
    forall k :: first <= k < first + n ==> TrackDone(area, decode, frames, k, deliver(k), channels)
  }

  lemma {:induction false} OutputsAreAnswers(area: TW.Area, decode: Decode, first: nat, frames: seq<FP.Frame>,
                                             deliver: nat -> Delivery, channels: nat, n: nat)
    requires channels > 0 && 1 <= first && TracksDone(area, decode, frames, first, n, deliver, channels)
    requires first + n - 1 <= |area.starts| && first + n - 1 <= |area.durations|
    ensures PL.Oks(Outputs(deliver, first, n)) == Answers(decode, TW.TracksOf(area, frames, first - 1, first - 1 + n))
  {
    if n > 0 {
      var filter := TW.TrackFilter(area, first + n - 2);
      OutputsAreAnswers(area, decode, first, frames, deliver, channels, n - 1);
      assert TrackDone(area, decode, frames, first + n - 1, deliver(first + n - 1), channels);
      TW.TracksUnfold(area, frames, first - 1, first - 1 + n, filter);
      OneMoreAnswer(decode, Outputs(deliver, first, n - 1), deliver(first + n - 1).delivered.value,
                    TW.TracksOf(area, frames, first - 1, first - 1 + (n - 1)), FT.Restrict(frames, filter));
    }
  }

  lemma {:induction false} OneMoreAnswer(decode: Decode, outputs: seq<PL.Audio>, more: seq<PL.Audio>,
                                         before: seq<FP.Frame>, kept: seq<FP.Frame>)
    requires PL.Oks(outputs) == Answers(decode, before) && PL.Oks(more) == Answers(decode, kept)
    ensures PL.Oks(outputs + more) == Answers(decode, before + kept)
  {
    PS.OksConcat(outputs, more);
    AnswersConcat(decode, before, kept);
  }

  // ---------------------------------------------------------------- in terms of disc frame numbers

  /** What the decoder makes of these frames. */
  function Decodings(decode: Decode, mux: seq<DX.MuxFrame>): (r: seq<Result<PL.Audio, PL.StageError>>)
    ensures |r| == |mux|
  {
    seq(|mux|, i requires 0 <= i < |mux| => decode(Flatten(mux[i].chunks)))
  }

  lemma {:induction false} AnswersAreDecodings(decode: Decode, mux: seq<DX.MuxFrame>)
    requires DX.LegalFrames(mux)
    ensures Answers(decode, DX.Wholes(mux)) == Decodings(decode, mux)
  {
    if mux != [] {
      WholesAt(mux, 0);
    }
    forall i | 0 <= i < |mux| ensures Answers(decode, DX.Wholes(mux))[i] == Decodings(decode, mux)[i] {
      WholesAt(mux, i);
    }
  }

  /** The numbers never go back. */
  predicate InTimeOrder(mux: seq<DX.MuxFrame>) {
    forall i, j :: 0 <= i <= j < |mux| ==> mux[i].Number() <= mux[j].Number()
  }

  lemma {:induction false} WholesInOrder(mux: seq<DX.MuxFrame>)
    requires DX.LegalFrames(mux) && InTimeOrder(mux)
    ensures TW.InOrder(DX.Wholes(mux))
  {
    if mux != [] {
      WholesAt(mux, 0);
    }
    forall i | 0 <= i < |mux| ensures DX.Wholes(mux)[i].timecode == Some(mux[i].Number()) {
      WholesAt(mux, i);
    }
  }

  lemma {:induction false} OutputsInRange(area: TW.Area, decode: Decode, mux: seq<DX.MuxFrame>, first: nat, n: nat,
                                          deliver: nat -> Delivery, channels: nat)
    requires channels > 0 && 0 < n && 1 <= first && DX.LegalFrames(mux) && InTimeOrder(mux)
    requires TracksFollow(area, first + n - 1)
    requires TracksDone(area, decode, DX.Wholes(mux), first, n, deliver, channels)
    ensures PL.Oks(Outputs(deliver, first, n))
         == Decodings(decode, Between(mux, StartOf(area, first), EndOf(area, first + n - 1)))
  {
    OutputsAreAnswers(area, decode, first, DX.Wholes(mux), deliver, channels, n);
    RangeIsBetween(area, mux, first, n);
    AnswersAreDecodings(decode, Between(mux, StartOf(area, first), EndOf(area, first + n - 1)));
  }

  lemma {:induction false} RangeIsBetween(area: TW.Area, mux: seq<DX.MuxFrame>, first: nat, n: nat)
    requires 0 < n && 1 <= first && DX.LegalFrames(mux) && InTimeOrder(mux) && TracksFollow(area, first + n - 1)
    ensures var kept := Between(mux, StartOf(area, first), EndOf(area, first + n - 1));
            DX.LegalFrames(kept) && TW.TracksOf(area, DX.Wholes(mux), first - 1, first - 1 + n) == DX.Wholes(kept)
  {
    WholesInOrder(mux);
    TracksInRange(area, DX.Wholes(mux), first, first + n - 1);
    FilterIsBetween(mux, StartOf(area, first), EndOf(area, first + n - 1));
  }

  /** The tracks `first` to `last` together keep the frames from the start of the one to the end of the other. */
  lemma {:induction false} TracksInRange(area: TW.Area, frames: seq<FP.Frame>, first: nat, last: nat)
    requires 1 <= first <= last && TW.InOrder(frames) && TracksFollow(area, last)
    ensures TW.TracksOf(area, frames, first - 1, last)
         == FT.Restrict(frames, FP.Window(StartOf(area, first), EndOf(area, last)))
  {
    FollowIsContiguous(area, last);
    TW.TracksPartitionFrames(area, last, frames, first - 1, last);
    CountsAreNumbers(area, first);
    CountsAreNumbers(area, last);
  }

  lemma {:induction false} DoneIsWritten(area: TW.Area, decode: Decode, frames: seq<FP.Frame>, trackNumbers: seq<nat>,
                                         first: nat, n: nat, deliver: nat -> Delivery, f: DF.Format)
    requires f.channels > 0 && 0 < n && 1 <= first
    requires TracksDone(area, decode, frames, first, n, deliver, f.channels)
    requires AsksFor(trackNumbers, area.trackCount, Numbers(first, n))
    ensures TracksWritten(f, area.trackCount, trackNumbers, deliver, first, n,
                          BitOrder.Reversed(Flatten(Outputs(deliver, first, n))))
  {
    forall i | 0 <= i < n
      ensures DeliversRows(deliver(Numbers(first, n)[i]), f.channels) && first + i <= area.trackCount
    {
      assert TrackDone(area, decode, frames, first + i, deliver(first + i), f.channels);
    }
    assert TrackDone(area, decode, frames, first + n - 1, deliver(first + n - 1), f.channels);
    OutputsAreAudio(deliver, first, n);
    StreamWritten(f, area.trackCount, trackNumbers, deliver, first, n,
                  BitOrder.Reversed(Flatten(Outputs(deliver, first, n))));
  }

  /** Each track's sector range holds its frames. */
  predicate HoldTracks(area: TW.Area, base: nat, layouts: seq<SE.Layout>, mux: seq<DX.MuxFrame>, first: nat, n: nat,
                       plans: seq<TW.Plan>)
    requires DX.LegalFrames(mux) && 1 <= first && n == |plans|
    requires first + n - 1 <= |area.starts| && first + n - 1 <= |area.durations|
  {
    forall t :: 0 <= t < n ==>
      HoldsFrames(base, layouts, mux, plans[t].start, plans[t].end,
                  FP.Window(StartOf(area, first + t), EndOf(area, first + t)))
  }

  lemma {:induction false} RanAt(area: TW.Area, disc: nat -> seq<byte>, decode: Decode, first: nat, n: nat,
                                 plans: seq<TW.Plan>, runs: seq<seq<PL.State<FP.Parser>>>, deliver: nat -> Delivery,
                                 t: nat)
    requires t < n && TracksRan(area, disc, decode, first, n, plans, runs, deliver)
    ensures TrackRan(area, disc, decode, first + t, plans[t], runs[t], deliver(first + t))
  {
    assert TrackRanAt(area, disc, decode, first, plans, runs, deliver, t);
  }

  /** The plans of all tracks. */
  predicate Planned(area: TW.Area, first: nat, plans: seq<TW.Plan>) {
    forall t :: 0 <= t < |plans| ==> PlannedAt(area, first, plans, t)
  }

  predicate PlannedAt(area: TW.Area, first: nat, plans: seq<TW.Plan>, t: nat)
    requires t < |plans|
  {
    TW.PlanTrack(area, first + t) == Ok(plans[t])
  }

  lemma {:induction false} RanWasPlanned(area: TW.Area, disc: nat -> seq<byte>, decode: Decode, first: nat, n: nat,
                                         plans: seq<TW.Plan>, runs: seq<seq<PL.State<FP.Parser>>>,
                                         deliver: nat -> Delivery)
    requires TracksRan(area, disc, decode, first, n, plans, runs, deliver)
    ensures Planned(area, first, plans)
  {
    forall t | 0 <= t < |plans| ensures PlannedAt(area, first, plans, t) {
      RanAt(area, disc, decode, first, n, plans, runs, deliver, t);
    }
  }

  predicate HoldFiltered(base: nat, layouts: seq<SE.Layout>, mux: seq<DX.MuxFrame>, plans: seq<TW.Plan>)
    requires DX.LegalFrames(mux)
  {
    forall t :: 0 <= t < |plans| ==> HoldsTrack(base, layouts, mux, plans[t])
  }

  /** The frames with a track's numbers are those that its filter selects. */
  lemma {:induction false} HoldsByFilter(area: TW.Area, base: nat, layouts: seq<SE.Layout>, mux: seq<DX.MuxFrame>,
                                         first: nat, n: nat, plans: seq<TW.Plan>)
    requires DX.LegalFrames(mux) && 1 <= first && n == |plans| && 0 < n && TracksFollow(area, first + n - 1)
    requires Planned(area, first, plans) && HoldTracks(area, base, layouts, mux, first, n, plans)
    ensures HoldFiltered(base, layouts, mux, plans)
  {
    forall t | 0 <= t < n ensures HoldsTrack(base, layouts, mux, plans[t]) {
      assert PlannedAt(area, first, plans, t);
      FilterOfPlan(area, first + n - 1, first + t, plans[t]);
    }
  }

  lemma {:induction false} FilterOfPlan(area: TW.Area, n: nat, number: nat, plan: TW.Plan)
    requires TracksFollow(area, n) && 1 <= number <= n && TW.PlanTrack(area, number) == Ok(plan)
    ensures plan.filter == FP.Window(StartOf(area, number), EndOf(area, number))
  {
    PlannedFilter(area, number, plan);
    FilterIsTrack(area, n, number);
  }

  lemma {:induction false} AllTracksDone(area: TW.Area, base: nat, disc: nat -> seq<byte>, decode: Decode,
                    layouts: seq<SE.Layout>, mux: seq<DX.MuxFrame>, first: nat, n: nat, plans: seq<TW.Plan>,
                    runs: seq<seq<PL.State<FP.Parser>>>, deliver: nat -> Delivery, channels: nat)
    requires area.format.Dst? && channels > 0 && WholeRows(decode, channels)
    requires Carries(layouts, mux) && OnDisc(base, disc, layouts)
    requires TracksRan(area, disc, decode, first, n, plans, runs, deliver)
    requires HoldFiltered(base, layouts, mux, plans)
    ensures TracksDone(area, decode, DX.Wholes(mux), first, n, deliver, channels)
  {
    forall k | first <= k < first + n ensures TrackDone(area, decode, DX.Wholes(mux), k, deliver(k), channels) {
      var t := k - first;
      RanAt(area, disc, decode, first, n, plans, runs, deliver, t);
      TrackIsDone(area, base, disc, decode, layouts, mux, k, plans[t], runs[t], deliver(k), channels);
    }
  }

  /**
   * The disc, end to end. The sectors of a DST area, in any legal layout, carry a list of frames in
   * time order. All tracks, or consecutive ones, of an area whose tracks follow each other below 256
   * minutes, are extracted in nopad mode by any complete and successful runs of their pipelines; each
   * track's sector range holds the frames with the track's numbers. Then every file reads, has its own
   * footer, and all of them together play the block-interleaved, bit-reversed decode of exactly the
   * frames of the area whose numbers lie between the start of the first and the end of the last track,
   * each once and in order: padded to a whole group when the tracks end the area, and cut at the last
   * full group otherwise.
   */
  lemma {:induction false} DiscToFiles(area: TW.Area, base: nat, disc: nat -> seq<byte>, decode: Decode,
                    layouts: seq<SE.Layout>, mux: seq<DX.MuxFrame>, trackNumbers: seq<nat>, first: nat, n: nat,
                    plans: seq<TW.Plan>, runs: seq<seq<PL.State<FP.Parser>>>, deliver: nat -> Delivery, f: DF.Format)
    returns (audio: seq<PL.Audio>)
    requires area.format.Dst? && f.channels > 0 && WholeRows(decode, f.channels)
    requires Carries(layouts, mux) && OnDisc(base, disc, layouts) && InTimeOrder(mux)
    requires 1 <= first && 0 < n && TracksFollow(area, first + n - 1)
    requires AsksFor(trackNumbers, area.trackCount, Numbers(first, n))
    requires TracksRan(area, disc, decode, first, n, plans, runs, deliver)
    requires HoldTracks(area, base, layouts, mux, first, n, plans)
    ensures PL.Oks(audio) == Decodings(decode, Between(mux, StartOf(area, first), EndOf(area, first + n - 1)))
    ensures TracksWritten(f, area.trackCount, trackNumbers, deliver, first, n, BitOrder.Reversed(Flatten(audio)))
  {
    RanWasPlanned(area, disc, decode, first, n, plans, runs, deliver);
    HoldsByFilter(area, base, layouts, mux, first, n, plans);
    AllTracksDone(area, base, disc, decode, layouts, mux, first, n, plans, runs, deliver, f.channels);
    audio := Outputs(deliver, first, n);
    OutputsInRange(area, decode, mux, first, n, deliver, f.channels);
    DoneIsWritten(area, decode, DX.Wholes(mux), trackNumbers, first, n, deliver, f);
  }

  /** The entry of each track in the track list holds the track's frames. */
  predicate ListHolds(area: TW.Area, base: nat, layouts: seq<SE.Layout>, mux: seq<DX.MuxFrame>, first: nat, n: nat)
    requires DX.LegalFrames(mux) && 1 <= first
    requires first + n - 1 <= |area.starts| && first + n - 1 <= |area.durations|
  {
    forall t :: first <= t < first + n ==>
      HoldsFrames(base, layouts, mux, TW.ListedStart(area, t - 1), TW.ListedEnd(area, t - 1),
                  FP.Window(StartOf(area, t), EndOf(area, t)))
  }

  lemma {:induction false} ListHoldsTracks(area: TW.Area, base: nat, layouts: seq<SE.Layout>, mux: seq<DX.MuxFrame>,
                                           first: nat, n: nat, plans: seq<TW.Plan>)
    requires DX.LegalFrames(mux) && 1 <= first && n == |plans| && TW.InTrackList(area, first - 1, n)
    requires Planned(area, first, plans) && ListHolds(area, base, layouts, mux, first, n)
    ensures HoldTracks(area, base, layouts, mux, first, n, plans)
  {
    forall t | 0 <= t < n
      ensures HoldsFrames(base, layouts, mux, plans[t].start, plans[t].end,
                          FP.Window(StartOf(area, first + t), EndOf(area, first + t)))
    {
      assert PlannedAt(area, first, plans, t);
      TW.OneOfList(area, first - 1, n, first + t - 1);
      EntryPlanned(area, first + t, plans[t]);
      assert first <= first + t < first + n;
    }
  }

  /** The same for a disc with a track list, in terms of its entries. */
  lemma {:induction false} ListedDiscToFiles(area: TW.Area, base: nat, disc: nat -> seq<byte>, decode: Decode,
                    layouts: seq<SE.Layout>, mux: seq<DX.MuxFrame>, trackNumbers: seq<nat>, first: nat, n: nat,
                    plans: seq<TW.Plan>, runs: seq<seq<PL.State<FP.Parser>>>, deliver: nat -> Delivery, f: DF.Format)
    returns (audio: seq<PL.Audio>)
    requires area.format.Dst? && f.channels > 0 && WholeRows(decode, f.channels)
    requires Carries(layouts, mux) && OnDisc(base, disc, layouts) && InTimeOrder(mux)
    requires 1 <= first && 0 < n && TracksFollow(area, first + n - 1) && TW.InTrackList(area, first - 1, n)
    requires ListHolds(area, base, layouts, mux, first, n)
    requires AsksFor(trackNumbers, area.trackCount, Numbers(first, n))
    requires TracksRan(area, disc, decode, first, n, plans, runs, deliver)
    ensures PL.Oks(audio) == Decodings(decode, Between(mux, StartOf(area, first), EndOf(area, first + n - 1)))
    ensures TracksWritten(f, area.trackCount, trackNumbers, deliver, first, n, BitOrder.Reversed(Flatten(audio)))
  {
    RanWasPlanned(area, disc, decode, first, n, plans, runs, deliver);
    ListHoldsTracks(area, base, layouts, mux, first, n, plans);
    audio := DiscToFiles(area, base, disc, decode, layouts, mux, trackNumbers, first, n, plans, runs, deliver, f);
  }

  lemma {:induction false} EntryPlanned(area: TW.Area, number: nat, plan: TW.Plan)
    requires 1 <= number && TW.InTrackList(area, number - 1, 1) && TW.PlanTrack(area, number) == Ok(plan)
    ensures plan.start == TW.ListedStart(area, number - 1) && plan.end == TW.ListedEnd(area, number - 1)
  {
    TW.ListedReads(area, number - 1, 0);
  }

  // ---------------------------------------------------------------- such runs exist

  /** If every frame that the filter selects decodes, the track's pipeline can be run to success. */
  lemma {:induction false} TrackCanSucceed(base: nat, disc: nat -> seq<byte>, decode: Decode,
                                           layouts: seq<SE.Layout>, mux: seq<DX.MuxFrame>, plan: TW.Plan)
    returns (run: seq<PL.State<FP.Parser>>)
    requires Carries(layouts, mux) && OnDisc(base, disc, layouts) && HoldsTrack(base, layouts, mux, plan)
    requires var kept := FT.Restrict(DX.Wholes(mux), plan.filter);
             forall i :: 0 <= i < |kept| ==> decode(kept[i].data).Ok?
    ensures Succeeds(plan, AP.Dst, disc, decode, run)
  {
    var c := TrackSetup(plan, AP.Dst, disc, decode);
    TrackFrames(base, disc, decode, layouts, mux, plan);
    TrackParses(base, disc, decode, layouts, mux, plan);
    assert PL.AllDecode(c, PL.AllFrames(c));
    run := PT.ReferenceIsReached(c);
  }

  lemma {:induction false} TrackParses(base: nat, disc: nat -> seq<byte>, decode: Decode,
                                       layouts: seq<SE.Layout>, mux: seq<DX.MuxFrame>, plan: TW.Plan)
    requires Carries(layouts, mux) && OnDisc(base, disc, layouts) && HoldsTrack(base, layouts, mux, plan)
    ensures var c := TrackSetup(plan, AP.Dst, disc, decode); PL.Parses(c, c.Sectors())
  {
    var a, b := TrackRange(base, layouts, mux, plan);
    RangeOnDisc(base, disc, layouts, plan.start, a, b);
    RangeYields(layouts, mux, a, b, plan.filter);
    SectorsParse(plan, disc, decode, DX.Encoded(layouts[a..b]));
  }

  lemma {:induction false} SectorsParse(plan: TW.Plan, disc: nat -> seq<byte>, decode: Decode, sectors: seq<seq<byte>>)
    requires plan.end == plan.start + |sectors| && SectorsOf(disc, plan.start, |sectors|) == sectors
    requires FP.AllOk(FP.ParseAll(FP.NewParser(AP.Dst, Some(plan.filter)), sectors).results)
    ensures var c := TrackSetup(plan, AP.Dst, disc, decode); PL.Parses(c, c.Sectors())
  {
    PlannedSectors(plan, AP.Dst, disc, decode);
    SetupFrames(plan, AP.Dst, disc, decode);
  }

  /** An area with one track of one frame, in its first sector. */
  predicate OneFrameTrack(area: TW.Area) {
    && area.format.Dst? && area.trackCount == 1 && area.trackStart == 0 && area.trackEnd == 1
    && area.startLsns == [] && TracksFollow(area, 1) && StartOf(area, 1) == 0 && EndOf(area, 1) == 1
  }

  lemma {:induction false} SmallTimes(area: TW.Area)
    requires area.starts == [TW.TrackTime(0, 0, 0)] && area.durations == [TW.TrackTime(0, 0, 1)]
    ensures TracksFollow(area, 1) && StartOf(area, 1) == 0 && EndOf(area, 1) == 1
  {
  }

  lemma {:induction false} SmallPlan(area: TW.Area, plan: TW.Plan)
    requires OneFrameTrack(area) && plan == TW.Plan(0, 1, FP.Window(0, 1))
    ensures TW.PlanTrack(area, 1) == Ok(plan)
  {
    FilterIsTrack(area, 1, 1);
  }

  lemma {:induction false} SmallFields() returns (area: TW.Area)
    ensures area.format.Dst? && area.trackCount == 1 && area.trackStart == 0 && area.trackEnd == 1
    ensures area.starts == [TW.TrackTime(0, 0, 0)] && area.durations == [TW.TrackTime(0, 0, 1)] && area.startLsns == []
  {
    area := TW.Area(AP.Dst, 1, 0, 1, [TW.TrackTime(0, 0, 0)], [TW.TrackTime(0, 0, 1)], [], []);
  }

  lemma {:induction false} SmallArea() returns (area: TW.Area)
    ensures OneFrameTrack(area)
  {
    area := SmallFields();
    SmallTimes(area);
  }

  /** And a disc with it: everything that `DiscToFiles` asks of the disc. */
  lemma {:induction false} SmallDisc(plan: TW.Plan)
    returns (disc: nat -> seq<byte>, layouts: seq<SE.Layout>, mux: seq<DX.MuxFrame>)
    requires plan == TW.Plan(0, 1, FP.Window(0, 1))
    ensures Carries(layouts, mux) && OnDisc(0, disc, layouts) && InTimeOrder(mux)
    ensures HoldsTrack(0, layouts, mux, plan)
    ensures |FT.Restrict(DX.Wholes(mux), plan.filter)| == 1
  {
    layouts, mux := OneFrameStream();
    var sector := layouts[0].Encode();
    disc := (n: nat) => sector;
  }

  /** With a decoder that succeeds, all hypotheses of `DiscToFiles` hold together. */
  lemma {:induction false} SmallDiscRuns(decode: Decode)
    returns (area: TW.Area, disc: nat -> seq<byte>, layouts: seq<SE.Layout>, mux: seq<DX.MuxFrame>, plan: TW.Plan,
             run: seq<PL.State<FP.Parser>>, deliver: nat -> Delivery)
    requires forall raw :: decode(raw).Ok?
    ensures area.format.Dst? && TracksFollow(area, 1) && AsksFor([], area.trackCount, Numbers(1, 1))
    ensures Carries(layouts, mux) && OnDisc(0, disc, layouts) && InTimeOrder(mux)
    ensures TracksRan(area, disc, decode, 1, 1, [plan], [run], deliver)
    ensures HoldTracks(area, 0, layouts, mux, 1, 1, [plan])
  {
    area := SmallArea();
    plan := TW.Plan(0, 1, FP.Window(0, 1));
    SmallPlan(area, plan);
    disc, layouts, mux := SmallDisc(plan);
    run := TrackCanSucceed(0, disc, decode, layouts, mux, plan);
    var d := Delivery(Ok(PL.Outcome(run[|run| - 1]).value), []);
    deliver := (n: nat) => d;
    assert TrackRanAt(area, disc, decode, 1, [plan], [run], deliver, 0);
  }
}
