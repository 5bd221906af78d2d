/** From the sectors of an uncompressed area to the bytes of its DSF files. */
module PlainExtraction {
  import opened Bytes
  import opened AreaStream
  import opened DiscExtraction
  import opened Extraction
  import opened TrackChain
  import opened TrackFiles
  import AP = AudioPackets
  import BitOrder
  import DF = DsfFile
  import DX = Demux
  import FP = FrameParser
  import FT = FramingTheorems
  import PD = PlainDsd
  import PL = Pipeline
  import SE = SectorEncoding
  import TW = TrackWindows

  // ---------------------------------------------------------------- the audio of laid-out sectors

  /** The bytes of the audio packets of all sectors, in order. */
  function LaidAudio(layouts: seq<SE.Layout>): seq<byte> {
    if layouts == [] then []
    else LaidAudio(layouts[..|layouts| - 1]) + SE.AudioOf(layouts[|layouts| - 1].slots)
  }

  lemma {:induction false} LaidConcat(a: seq<SE.Layout>, b: seq<SE.Layout>)
    ensures LaidAudio(a + b) == LaidAudio(a) + LaidAudio(b)
    decreases |b|
  {
    if b == [] {
      assert a + b == a;
      assert LaidAudio(a) + [] == LaidAudio(a);
    } else {
      InitConcat(a, b);
      LaidConcat(a, b[..|b| - 1]);
      Assoc(LaidAudio(a), LaidAudio(b[..|b| - 1]), SE.AudioOf(b[|b| - 1].slots));
    }
  }

  lemma {:induction false} PayloadSnoc(packets: seq<AP.Packet>, last: AP.Packet)
    ensures PD.Payload(packets + [last]) == PD.Payload(packets) + last.data
  {
    TakeDrop(packets, [last]);
  }

  /** What the packets of a sector hold, starts, continuations and stray starts alike. */
  lemma {:induction false} PayloadIsAudio(slots: seq<SE.Slot>, entries: seq<SE.Entry>)
    ensures PD.Payload(SE.LaidOut(slots, entries)) == SE.AudioOf(slots)
    decreases |slots|
  {
    if slots != [] {
      var init, last := slots[..|slots| - 1], slots[|slots| - 1];
      PayloadIsAudio(init, entries);
      var before := SE.LaidOut(init, entries);
      if last.IsAudio() {
        PayloadSnoc(before, SE.LaidOut(slots, entries)[|before|]);
      } else {
        assert before + [] == before && SE.AudioOf(init) + [] == SE.AudioOf(init);
      }
    }
  }

  /** The parser finds exactly the audio that was laid out, whatever the headers of the sectors are. */
  lemma {:induction false} EncodedAudio(layouts: seq<SE.Layout>)
    requires LegalLayouts(layouts)
    ensures PD.TotalPayload(DX.Encoded(layouts)) == LaidAudio(layouts)
    decreases |layouts|
  {
    if layouts != [] {
      var init, last := layouts[..|layouts| - 1], layouts[|layouts| - 1];
      EncodedAudio(init);
      SE.SectorRoundTrip(last);
      PayloadIsAudio(last.slots, last.entries);
      PayloadOfLast(DX.Encoded(init), last.Encode());
    }
  }

  lemma {:induction false} PayloadOfLast(init: seq<seq<byte>>, last: seq<byte>)
    ensures PD.TotalPayload(init + [last]) == PD.TotalPayload(init) + PD.Payload(FT.PacketsOf(last))
  {
    TakeDrop(init, [last]);
  }

  // ---------------------------------------------------------------- consecutive tracks

  /** Each track's sector range begins where the one before it ends. */
  predicate Adjacent(plans: seq<TW.Plan>) {
    && (forall t :: 0 <= t < |plans| ==> plans[t].start <= plans[t].end)
    && (forall s, t :: 0 <= s < |plans| && 0 <= t < |plans| && t == s + 1 ==> plans[t].start == plans[s].end)
  }

  lemma {:induction false} AdjacentOrder(plans: seq<TW.Plan>, s: nat, t: nat)
    requires Adjacent(plans) && s <= t < |plans|
    ensures plans[s].start <= plans[t].start && plans[s].end <= plans[t].end
  {
    if s < t {
      AdjacentOrder(plans, s, t - 1);
    }
  }

  /** The tracks' sectors, all together, are those of the layouts. */
  predicate Span(plans: seq<TW.Plan>, base: nat, layouts: seq<SE.Layout>) {
    && plans != [] && Adjacent(plans)
    && plans[0].start == base && plans[|plans| - 1].end == base + |layouts|
  }

  /** The layouts of the sectors of one track. */
  function LayoutsOf(plans: seq<TW.Plan>, base: nat, layouts: seq<SE.Layout>, t: nat): seq<SE.Layout>
    requires Span(plans, base, layouts) && t < |plans|
  {
    AdjacentOrder(plans, 0, t);
    AdjacentOrder(plans, t, |plans| - 1);
    layouts[plans[t].start - base..plans[t].end - base]
  }

  /** Each track has as many bytes for each channel. */
  predicate RowsInTracks(plans: seq<TW.Plan>, base: nat, layouts: seq<SE.Layout>, channels: nat)
    requires Span(plans, base, layouts) && channels > 0
  {
    forall t :: 0 <= t < |plans| ==> |LaidAudio(LayoutsOf(plans, base, layouts, t))| % channels == 0
  }

  lemma {:induction false} SliceIsLegal(layouts: seq<SE.Layout>, a: nat, b: nat)
    requires LegalLayouts(layouts) && a <= b <= |layouts|
    ensures LegalLayouts(layouts[a..b])
  {
  }

  lemma {:induction false} RangeSectors(base: nat, disc: nat -> seq<byte>, layouts: seq<SE.Layout>, start: nat,
                                        end: nat, own: seq<SE.Layout>)
    requires LegalLayouts(layouts) && OnDisc(base, disc, layouts) && base <= start <= end <= base + |layouts|
    requires own == layouts[start - base..end - base] && LegalLayouts(own)
    ensures SectorsOf(disc, start, end - start) == DX.Encoded(own)
  {
    var sectors := SectorsOf(disc, start, end - start);
    forall i | 0 <= i < end - start ensures sectors[i] == DX.Encoded(own)[i] {
      EncodedAt(own, i);
      assert OnDiscAt(base, disc, layouts, start - base + i);
      assert own[i] == layouts[start - base + i];
    }
  }

  lemma {:induction false} RangeAudio(base: nat, disc: nat -> seq<byte>, layouts: seq<SE.Layout>, start: nat, end: nat,
                                      own: seq<SE.Layout>)
    requires LegalLayouts(layouts) && OnDisc(base, disc, layouts) && base <= start <= end <= base + |layouts|
    requires own == layouts[start - base..end - base]
    ensures PD.TotalPayload(SectorsOf(disc, start, end - start)) == LaidAudio(own)
  {
    SliceIsLegal(layouts, start - base, end - base);
    RangeSectors(base, disc, layouts, start, end, own);
    AudioOfRange(disc, start, end - start, own);
  }

  lemma {:induction false} AudioOfRange(disc: nat -> seq<byte>, start: nat, n: nat, own: seq<SE.Layout>)
    requires LegalLayouts(own) && SectorsOf(disc, start, n) == DX.Encoded(own)
    ensures PD.TotalPayload(SectorsOf(disc, start, n)) == LaidAudio(own)
  {
    EncodedAudio(own);
  }

  lemma {:induction false} PlainRun(plan: TW.Plan, format: AP.FrameFormat, disc: nat -> seq<byte>, decode: Decode,
                                    run: seq<PL.State<FP.Parser>>)
    requires !format.Dst? && plan.start <= plan.end && Succeeds(plan, format, disc, decode, run)
    ensures Flatten(PL.Outcome(run[|run| - 1]).value)
         == PD.TotalPayload(SectorsOf(disc, plan.start, plan.end - plan.start))
  {
    PlannedSectors(plan, format, disc, decode);
    PlainTrackDelivers(plan, format, disc, decode, run);
  }

  /** The payload of `n` sectors, whatever they hold. */
  predicate Delivers(disc: nat -> seq<byte>, start: nat, n: nat, d: Delivery) {
    d.delivered.Ok? && Flatten(d.delivered.value) == PD.TotalPayload(SectorsOf(disc, start, n))
  }

  lemma {:induction false} RanPlain(area: TW.Area, disc: nat -> seq<byte>, decode: Decode, number: nat, plan: TW.Plan,
                                    run: seq<PL.State<FP.Parser>>, d: Delivery)
    requires !area.format.Dst? && plan.start <= plan.end && TrackRan(area, disc, decode, number, plan, run, d)
    ensures number <= area.trackCount && Delivers(disc, plan.start, plan.end - plan.start, d)
  {
    PlannedFilter(area, number, plan);
    PlainRun(plan, area.format, disc, decode, run);
  }

  /** What each track delivers, in terms of its plan. */
  predicate PlansDelivered(disc: nat -> seq<byte>, plans: seq<TW.Plan>, first: nat, deliver: nat -> Delivery) {
    forall t :: 0 <= t < |plans| ==> PlanDelivered(disc, plans, first, deliver, t)
  }

  predicate PlanDelivered(disc: nat -> seq<byte>, plans: seq<TW.Plan>, first: nat, deliver: nat -> Delivery, t: nat)
    requires t < |plans|
  {
    var p := plans[t];
    p.start <= p.end && Delivers(disc, p.start, p.end - p.start, deliver(first + t))
  }

  lemma {:induction false} TracksDeliver(area: TW.Area, disc: nat -> seq<byte>, decode: Decode, first: nat, n: nat,
                                         plans: seq<TW.Plan>, runs: seq<seq<PL.State<FP.Parser>>>,
                                         deliver: nat -> Delivery)
    requires !area.format.Dst? && Adjacent(plans) && plans != []
    requires TracksRan(area, disc, decode, first, n, plans, runs, deliver)
    ensures PlansDelivered(disc, plans, first, deliver) && first + n - 1 <= area.trackCount
  {
    forall t | 0 <= t < |plans|
      ensures PlanDelivered(disc, plans, first, deliver, t) && first + t <= area.trackCount
    {
      RanAt(area, disc, decode, first, n, plans, runs, deliver, t);
      RanPlain(area, disc, decode, first + t, plans[t], runs[t], deliver(first + t));
    }
    assert PlanDelivered(disc, plans, first, deliver, n - 1);
  }

  /** What track `t` delivers: the audio of its sectors. */
  predicate PlainDelivery(base: nat, layouts: seq<SE.Layout>, plans: seq<TW.Plan>, first: nat,
                          deliver: nat -> Delivery, t: nat)
    requires Span(plans, base, layouts) && t < |plans|
  {
    var d := deliver(first + t);
    d.delivered.Ok? && Flatten(d.delivered.value) == LaidAudio(LayoutsOf(plans, base, layouts, t))
  }

  predicate PlainDeliveries(base: nat, layouts: seq<SE.Layout>, plans: seq<TW.Plan>, first: nat,
                            deliver: nat -> Delivery)
    requires Span(plans, base, layouts)
  {
    forall t :: 0 <= t < |plans| ==> PlainDelivery(base, layouts, plans, first, deliver, t)
  }

  lemma {:induction false} LayoutsAre(plans: seq<TW.Plan>, base: nat, layouts: seq<SE.Layout>, t: nat)
    requires Span(plans, base, layouts) && t < |plans|
    ensures base <= plans[t].start <= plans[t].end <= base + |layouts|
    ensures LayoutsOf(plans, base, layouts, t) == layouts[plans[t].start - base..plans[t].end - base]
  {
    AdjacentOrder(plans, 0, t);
    AdjacentOrder(plans, t, |plans| - 1);
  }

  lemma {:induction false} TrackAudio(base: nat, disc: nat -> seq<byte>, layouts: seq<SE.Layout>, plans: seq<TW.Plan>,
                                      t: nat)
    requires LegalLayouts(layouts) && OnDisc(base, disc, layouts) && Span(plans, base, layouts) && t < |plans|
    ensures PD.TotalPayload(SectorsOf(disc, plans[t].start, plans[t].end - plans[t].start))
         == LaidAudio(LayoutsOf(plans, base, layouts, t))
  {
    LayoutsAre(plans, base, layouts, t);
    RangeAudio(base, disc, layouts, plans[t].start, plans[t].end, LayoutsOf(plans, base, layouts, t));
  }

  lemma {:induction false} DeliveryIs(base: nat, disc: nat -> seq<byte>, layouts: seq<SE.Layout>, first: nat,
                                      plans: seq<TW.Plan>, deliver: nat -> Delivery, t: nat)
    requires Span(plans, base, layouts) && t < |plans| && PlanDelivered(disc, plans, first, deliver, t)
    requires PD.TotalPayload(SectorsOf(disc, plans[t].start, plans[t].end - plans[t].start))
          == LaidAudio(LayoutsOf(plans, base, layouts, t))
    ensures PlainDelivery(base, layouts, plans, first, deliver, t)
  {
  }

  lemma {:induction false} PlainTracks(base: nat, disc: nat -> seq<byte>, layouts: seq<SE.Layout>, first: nat,
                                       plans: seq<TW.Plan>, deliver: nat -> Delivery)
    requires LegalLayouts(layouts) && OnDisc(base, disc, layouts) && Span(plans, base, layouts)
    requires PlansDelivered(disc, plans, first, deliver)
    ensures PlainDeliveries(base, layouts, plans, first, deliver)
  {
    forall t | 0 <= t < |plans| ensures PlainDelivery(base, layouts, plans, first, deliver, t) {
      assert PlanDelivered(disc, plans, first, deliver, t);
      TrackAudio(base, disc, layouts, plans, t);
      DeliveryIs(base, disc, layouts, first, plans, deliver, t);
    }
  }

  /** The first `n` tracks together deliver the audio of their sectors. */
  lemma {:induction false} PlainAudio(base: nat, layouts: seq<SE.Layout>, plans: seq<TW.Plan>, first: nat, n: nat,
                                      deliver: nat -> Delivery)
    requires Span(plans, base, layouts) && 0 < n <= |plans|
    requires PlainDeliveries(base, layouts, plans, first, deliver)
    ensures base <= plans[n - 1].end <= base + |layouts|
    ensures AudioOfTracks(deliver, first, n) == LaidAudio(layouts[..plans[n - 1].end - base])
  {
    LayoutsAre(plans, base, layouts, n - 1);
    assert PlainDelivery(base, layouts, plans, first, deliver, n - 1);
    if n > 1 {
      PlainAudio(base, layouts, plans, first, n - 1, deliver);
    }
    AudioGrows(deliver, first, n, layouts, plans[n - 1].start - base, plans[n - 1].end - base);
  }

  /** With one more track, whose sectors follow. */
  lemma {:induction false} AudioGrows(deliver: nat -> Delivery, first: nat, n: nat, layouts: seq<SE.Layout>, a: nat,
                                      b: nat)
    requires 0 < n && a <= b <= |layouts| && (n == 1 ==> a == 0)
    requires n > 1 ==> AudioOfTracks(deliver, first, n - 1) == LaidAudio(layouts[..a])
    requires deliver(first + n - 1).delivered.Ok?
    requires Flatten(deliver(first + n - 1).delivered.value) == LaidAudio(layouts[a..b])
    ensures AudioOfTracks(deliver, first, n) == LaidAudio(layouts[..b])
  {
    OneMoreTrack(deliver, first, n);
    LaidUpTo(layouts, a, b);
  }

  lemma {:induction false} LaidUpTo(layouts: seq<SE.Layout>, a: nat, b: nat)
    requires a <= b <= |layouts|
    ensures LaidAudio(layouts[..b]) == LaidAudio(layouts[..a]) + LaidAudio(layouts[a..b])
    ensures LaidAudio(layouts[..0]) == []
  {
    assert layouts[..b] == layouts[..a] + layouts[a..b];
    LaidConcat(layouts[..a], layouts[a..b]);
  }

  lemma {:induction false} OneMoreTrack(deliver: nat -> Delivery, first: nat, n: nat)
    requires 0 < n && deliver(first + n - 1).delivered.Ok?
    ensures AudioOfTracks(deliver, first, 0) == []
    ensures AudioOfTracks(deliver, first, n)
         == AudioOfTracks(deliver, first, n - 1) + Flatten(deliver(first + n - 1).delivered.value)
  {
  }

  lemma {:induction false} PlainRows(base: nat, layouts: seq<SE.Layout>, plans: seq<TW.Plan>, first: nat,
                                     deliver: nat -> Delivery, channels: nat)
    requires Span(plans, base, layouts) && channels > 0 && RowsInTracks(plans, base, layouts, channels)
    requires PlainDeliveries(base, layouts, plans, first, deliver)
    ensures AllDeliverRows(deliver, Numbers(first, |plans|), channels)
  {
    forall i | 0 <= i < |plans| ensures DeliversRows(deliver(Numbers(first, |plans|)[i]), channels) {
      assert PlainDelivery(base, layouts, plans, first, deliver, i);
    }
  }

  /**
   * Uncompressed areas, end to end. The sectors of consecutive tracks with adjacent ranges have any legal
   * layouts, with three-byte frame infos or four-byte ones; each track is a whole number of rows long. The
   * tracks are extracted in nopad mode by any complete and successful runs. Then their files play
   * the audio laid out in the sectors without a gap, whatever the tracks' times and filters are.
   */
  lemma {:induction false} PlainDiscToFiles(area: TW.Area, base: nat, disc: nat -> seq<byte>, decode: Decode,
                    layouts: seq<SE.Layout>, trackNumbers: seq<nat>, first: nat, n: nat, plans: seq<TW.Plan>,
                    runs: seq<seq<PL.State<FP.Parser>>>, deliver: nat -> Delivery, f: DF.Format)
    requires !area.format.Dst? && f.channels > 0 && 1 <= first
    requires LegalLayouts(layouts) && OnDisc(base, disc, layouts) && Span(plans, base, layouts)
    requires RowsInTracks(plans, base, layouts, f.channels)
    requires AsksFor(trackNumbers, area.trackCount, Numbers(first, n))
    requires TracksRan(area, disc, decode, first, n, plans, runs, deliver)
    ensures TracksWritten(f, area.trackCount, trackNumbers, deliver, first, n, BitOrder.Reversed(LaidAudio(layouts)))
  {
    TracksDeliver(area, disc, decode, first, n, plans, runs, deliver);
    PlainTracks(base, disc, layouts, first, plans, deliver);
    PlainRows(base, layouts, plans, first, deliver, f.channels);
    PlainAudio(base, layouts, plans, first, n, deliver);
    assert layouts[..|layouts|] == layouts;
    StreamWritten(f, area.trackCount, trackNumbers, deliver, first, n, BitOrder.Reversed(LaidAudio(layouts)));
  }

  // ---------------------------------------------------------------- where the ranges come from

  /** The estimated ranges of a disc without a track list are adjacent. */
  lemma {:induction false} EstimatesAreAdjacent(area: TW.Area, sectorsPerFrame: nat, first: nat, plans: seq<TW.Plan>)
    requires TW.Fallback(area, sectorsPerFrame) && 1 <= first && first + |plans| - 1 <= area.trackCount
    requires Planned(area, first, plans)
    ensures Adjacent(plans)
  {
    forall t | 0 <= t < |plans|
      ensures plans[t].start <= plans[t].end && (t > 0 ==> plans[t].start == plans[t - 1].end)
    {
      assert PlannedAt(area, first, plans, t);
      TW.RangesTile(area, sectorsPerFrame, first + t - 1);
      if t > 0 {
        assert PlannedAt(area, first, plans, t - 1);
        TW.RangesTile(area, sectorsPerFrame, first + t - 2);
      }
    }
  }

  /** So are the ranges of a track list whose entries follow each other. */
  lemma {:induction false} ListIsAdjacent(area: TW.Area, first: nat, plans: seq<TW.Plan>)
    requires 1 <= first && TW.InTrackList(area, first - 1, |plans|) && TW.ListFollows(area, first - 1, |plans|)
    requires Planned(area, first, plans)
    ensures Adjacent(plans)
    ensures plans != [] ==> plans[0].start == TW.ListedStart(area, first - 1)
                            && plans[|plans| - 1].end == TW.ListedEnd(area, first + |plans| - 2)
  {
    forall t | 0 <= t < |plans|
      ensures plans[t].start == TW.ListedStart(area, first + t - 1)
      ensures plans[t].end == TW.ListedEnd(area, first + t - 1)
    {
      assert PlannedAt(area, first, plans, t);
      TW.OneOfList(area, first - 1, |plans|, first + t - 1);
      EntryPlanned(area, first + t, plans[t]);
    }
    forall s, t | 0 <= s < |plans| && 0 <= t < |plans| && t == s + 1 ensures plans[t].start == plans[s].end {
      assert TW.ListedStart(area, first - 1 + t) == TW.ListedEnd(area, first - 1 + t - 1);
    }
  }

  /** Each entry of the track list has as many bytes for each channel. */
  predicate RowsInEntries(area: TW.Area, base: nat, layouts: seq<SE.Layout>, first: nat, n: nat, channels: nat)
    requires channels > 0 && 1 <= first
  {
    forall k :: first <= k < first + n ==> RowsInEntry(area, base, layouts, k, channels)
  }

  predicate RowsInEntry(area: TW.Area, base: nat, layouts: seq<SE.Layout>, number: nat, channels: nat)
    requires channels > 0 && 1 <= number
  {
    var a, b := TW.ListedStart(area, number - 1) - base, TW.ListedEnd(area, number - 1) - base;
    0 <= a <= b <= |layouts| && |LaidAudio(layouts[a..b])| % channels == 0
  }

  lemma {:induction false} RowsOfList(area: TW.Area, base: nat, layouts: seq<SE.Layout>, first: nat,
                                      plans: seq<TW.Plan>, channels: nat)
    requires 1 <= first && channels > 0 && Span(plans, base, layouts)
    requires TW.InTrackList(area, first - 1, |plans|) && Planned(area, first, plans)
    requires RowsInEntries(area, base, layouts, first, |plans|, channels)
    ensures RowsInTracks(plans, base, layouts, channels)
  {
    forall t | 0 <= t < |plans| ensures |LaidAudio(LayoutsOf(plans, base, layouts, t))| % channels == 0 {
      assert RowsInEntry(area, base, layouts, first + t, channels);
      assert PlannedAt(area, first, plans, t);
      TW.OneOfList(area, first - 1, |plans|, first + t - 1);
      EntryPlanned(area, first + t, plans[t]);
      RowsOfEntry(area, base, layouts, first + t, plans, t, channels);
    }
  }

  lemma {:induction false} RowsOfEntry(area: TW.Area, base: nat, layouts: seq<SE.Layout>, number: nat,
                                       plans: seq<TW.Plan>, t: nat, channels: nat)
    requires 1 <= number && channels > 0 && Span(plans, base, layouts) && t < |plans|
    requires RowsInEntry(area, base, layouts, number, channels)
    requires plans[t].start == TW.ListedStart(area, number - 1) && plans[t].end == TW.ListedEnd(area, number - 1)
    ensures |LaidAudio(LayoutsOf(plans, base, layouts, t))| % channels == 0
  {
    LayoutsAre(plans, base, layouts, t);
  }

  /** With a track list: what is played are the sectors from the first entry to the end of the last one. */
  lemma {:induction false} ListedPlainDiscToFiles(area: TW.Area, disc: nat -> seq<byte>, decode: Decode,
                    layouts: seq<SE.Layout>, trackNumbers: seq<nat>, first: nat, n: nat, plans: seq<TW.Plan>,
                    runs: seq<seq<PL.State<FP.Parser>>>, deliver: nat -> Delivery, f: DF.Format)
    requires !area.format.Dst? && f.channels > 0 && 1 <= first && 0 < n && LegalLayouts(layouts)
    requires TW.InTrackList(area, first - 1, n) && TW.ListFollows(area, first - 1, n)
    requires OnDisc(TW.ListedStart(area, first - 1), disc, layouts)
    requires TW.ListedStart(area, first - 1) + |layouts| == TW.ListedEnd(area, first + n - 2)
    requires TracksRan(area, disc, decode, first, n, plans, runs, deliver)
    requires RowsInEntries(area, TW.ListedStart(area, first - 1), layouts, first, n, f.channels)
    requires AsksFor(trackNumbers, area.trackCount, Numbers(first, n))
    ensures TracksWritten(f, area.trackCount, trackNumbers, deliver, first, n, BitOrder.Reversed(LaidAudio(layouts)))
  {
    RanWasPlanned(area, disc, decode, first, n, plans, runs, deliver);
    ListIsAdjacent(area, first, plans);
    RowsOfList(area, TW.ListedStart(area, first - 1), layouts, first, plans, f.channels);
    PlainDiscToFiles(area, TW.ListedStart(area, first - 1), disc, decode, layouts, trackNumbers, first, n, plans, runs,
                     deliver, f);
  }
}
