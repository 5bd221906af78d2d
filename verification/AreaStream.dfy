/** The sectors of a whole area as one stream of frames, and what a range of its sectors holds. */
module AreaStream {
  import opened Bytes
  import opened AudioPackets
  import opened FrameParser
  import opened FramingTheorems
  import opened SectorEncoding
  import opened Demux

  function PacketCount(frames: seq<MuxFrame>): nat {
    if frames == [] then 0 else |frames[0].chunks| + PacketCount(frames[1..])
  }

  lemma {:induction false} PacketCountSplit(frames: seq<MuxFrame>, k: nat)
    requires k <= |frames|
    ensures PacketCount(frames) == PacketCount(frames[..k]) + PacketCount(frames[k..])
    decreases k
  {
    if k == 0 {
      assert frames[0..] == frames;
    } else {
      PacketCountSplit(frames[1..], k - 1);
      assert frames[..k][1..] == frames[1..][..k - 1] && frames[1..][k - 1..] == frames[k..];
    }
  }

  /** The packets of the first frames: adding frame `j`, and any further ones. */
  lemma {:induction false} PacketsUpTo(frames: seq<MuxFrame>, j: nat, k: nat)
    requires j < k <= |frames|
    ensures PacketCount(frames[..j + 1]) == PacketCount(frames[..j]) + |frames[j].chunks|
    ensures PacketCount(frames[..j + 1]) <= PacketCount(frames[..k])
  {
    PacketCountSplit(frames[..j + 1], j);
    assert frames[..j + 1][..j] == frames[..j] && frames[..j + 1][j..] == [frames[j]];
    assert PacketCount([frames[j]]) == |frames[j].chunks| + PacketCount([frames[j]][1..]);
    PacketCountSplit(frames[..k], j + 1);
    assert frames[..k][..j + 1] == frames[..j + 1];
  }

  lemma {:induction false} MultiplexLength(rest: seq<seq<byte>>, frames: seq<MuxFrame>)
    requires LegalFrames(frames)
    ensures |Multiplex(rest, frames)| == |rest| + PacketCount(frames)
    decreases |frames|, |rest|
  {
    if rest != [] {
      MultiplexLength(rest[1..], frames);
    } else if frames != [] {
      MultiplexLength(frames[0].chunks[1..], frames[1..]);
    }
  }

  lemma {:induction false} CarriedConcat(a: seq<Layout>, b: seq<Layout>)
    ensures Carried(a + b) == Carried(a) + Carried(b)
    decreases |b|
  {
    if b == [] {
      assert a + b == a;
      assert Carried(a) + [] == Carried(a);
    } else {
      var init, last := b[..|b| - 1], b[|b| - 1];
      InitConcat(a, b);
      CarriedConcat(a, init);
      Assoc(Carried(a), Carried(init), last.Packets());
    }
  }

  predicate LegalLayouts(layouts: seq<Layout>) { forall i :: 0 <= i < |layouts| ==> layouts[i].Legal() }

  /** The sectors carry these frames, from the first packet of the first to the last of the last. */
  predicate Carries(layouts: seq<Layout>, mux: seq<MuxFrame>) {
    LegalLayouts(layouts) && LegalFrames(mux) && Carried(layouts) == Multiplex([], mux)
  }

  /** Frame `j` begins and ends in the sectors [a, b). */
  predicate Within(layouts: seq<Layout>, mux: seq<MuxFrame>, j: nat, a: nat, b: nat)
    requires j < |mux| && a <= b <= |layouts|
  {
    && |Carried(layouts[..a])| <= PacketCount(mux[..j])
    && PacketCount(mux[..j + 1]) <= |Carried(layouts[..b])|
  }

  /** Every frame that the window selects begins and ends in the sectors [a, b). */
  predicate HoldsWindow(layouts: seq<Layout>, mux: seq<MuxFrame>, a: nat, b: nat, w: Window)
    requires LegalFrames(mux) && a <= b <= |layouts|
  {
    forall j :: 0 <= j < |mux| && w.Contains(mux[j].Number()) ==> Within(layouts, mux, j, a, b)
  }

  // ---------------------------------------------------------------- frames outside a window

  lemma {:induction false} WholesAt(frames: seq<MuxFrame>, j: nat)
    requires LegalFrames(frames) && j < |frames|
    ensures |Wholes(frames)| == |frames| && Wholes(frames)[j] == frames[j].Whole()
    decreases |frames|
  {
    if j > 0 {
      WholesAt(frames[1..], j - 1);
    } else if |frames| > 1 {
      WholesAt(frames[1..], 0);
    } else {
      assert Wholes(frames) == [frames[0].Whole()] + Wholes([]);
    }
  }

  lemma {:induction false} NoneSelected(frames: seq<MuxFrame>, w: Window)
    requires LegalFrames(frames) && forall j :: 0 <= j < |frames| ==> !w.Contains(frames[j].Number())
    ensures Restrict(Wholes(frames), w) == []
    decreases |frames|
  {
    if frames != [] {
      NoneSelected(frames[1..], w);
      RestrictConcat([frames[0].Whole()], Wholes(frames[1..]), w);
      RestrictOne(frames[0].Whole(), w);
    }
  }

  lemma {:induction false} RestrictOne(frame: Frame, w: Window)
    ensures Restrict([frame], w) == if Passes(Some(w), frame.timecode) then [frame] else []
  {
    assert Restrict([frame], w) == Restrict([], w) + if Passes(Some(w), frame.timecode) then [frame] else [];
  }

  /** Dropping unselected frames at both ends changes nothing. */
  lemma {:induction false} MiddleKept(mux: seq<MuxFrame>, lo: nat, k: nat, w: Window)
    requires LegalFrames(mux) && lo <= k <= |mux|
    requires forall j :: 0 <= j < lo || k <= j < |mux| ==> !w.Contains(mux[j].Number())
    ensures Restrict(Wholes(mux[lo..k]), w) == Restrict(Wholes(mux), w)
  {
    var a, b, c := mux[..lo], mux[lo..k], mux[k..];
    WholesSplit(mux, k);
    WholesSplit(mux[..k], lo);
    assert mux[..k][..lo] == a && mux[..k][lo..] == b;
    NoneSelected(a, w);
    NoneSelected(c, w);
    RestrictMiddle(Wholes(a), Wholes(b), Wholes(c), w);
  }

  lemma {:induction false} RestrictMiddle(a: seq<Frame>, b: seq<Frame>, c: seq<Frame>, w: Window)
    requires Restrict(a, w) == [] && Restrict(c, w) == []
    ensures Restrict((a + b) + c, w) == Restrict(b, w)
  {
    RestrictConcat(a + b, c, w);
    RestrictConcat(a, b, w);
    assert [] + Restrict(b, w) + [] == Restrict(b, w);
  }

  /** The frames with disc frame numbers in [lo, hi). */
  function Between(mux: seq<MuxFrame>, lo: nat, hi: nat): seq<MuxFrame> {
    if mux == [] then []
    else
      var last := mux[|mux| - 1];
      Between(mux[..|mux| - 1], lo, hi) + if lo <= last.Number() < hi then [last] else []
  }

  lemma {:induction false} BetweenIsLegal(mux: seq<MuxFrame>, lo: nat, hi: nat)
    requires LegalFrames(mux)
    ensures LegalFrames(Between(mux, lo, hi))
    decreases |mux|
  {
    if mux != [] {
      BetweenIsLegal(mux[..|mux| - 1], lo, hi);
    }
  }

  lemma {:induction false} WholesSnoc(mux: seq<MuxFrame>, last: MuxFrame)
    requires LegalFrames(mux) && last.Legal()
    ensures LegalFrames(mux + [last]) && Wholes(mux + [last]) == Wholes(mux) + [last.Whole()]
  {
    WholesSplit(mux + [last], |mux|);
    TakeDrop(mux, [last]);
    WholesAt([last], 0);
    assert Wholes([last]) == [last.Whole()];
  }

  lemma {:induction false} BetweenSnoc(mux: seq<MuxFrame>, last: MuxFrame, lo: nat, hi: nat)
    ensures Between(mux + [last], lo, hi)
         == if lo <= last.Number() < hi then Between(mux, lo, hi) + [last] else Between(mux, lo, hi)
  {
    TakeDrop(mux, [last]);
    assert Between(mux, lo, hi) + [] == Between(mux, lo, hi);
  }

  lemma {:induction false} RestrictSnoc(frames: seq<Frame>, last: Frame, w: Window)
    ensures Restrict(frames + [last], w)
         == if Passes(Some(w), last.timecode) then Restrict(frames, w) + [last] else Restrict(frames, w)
  {
    TakeDrop(frames, [last]);
    assert Restrict(frames, w) + [] == Restrict(frames, w);
  }

  /** Filtering by timecode keeps the frames with these numbers. */
  lemma {:induction false} FilterIsBetween(mux: seq<MuxFrame>, lo: nat, hi: nat)
    requires LegalFrames(mux)
    ensures LegalFrames(Between(mux, lo, hi))
    ensures Restrict(Wholes(mux), Window(lo, hi)) == Wholes(Between(mux, lo, hi))
    decreases |mux|
  {
    BetweenIsLegal(mux, lo, hi);
    if mux != [] {
      var init, last := mux[..|mux| - 1], mux[|mux| - 1];
      SplitLast(mux);
      FilterIsBetween(init, lo, hi);
      WholesSnoc(init, last);
      RestrictSnoc(Wholes(init), last.Whole(), Window(lo, hi));
      BetweenSnoc(init, last, lo, hi);
      if lo <= last.Number() < hi {
        WholesSnoc(Between(init, lo, hi), last);
      }
    }
  }

  // ---------------------------------------------------------------- a range of sectors

  /** The sectors before `a` end within, or right behind, frame `k - 1`, of which `stray` is still to come. */
  lemma {:induction false} FrontCut(layouts: seq<Layout>, mux: seq<MuxFrame>, a: nat)
    returns (stray: seq<seq<byte>>, k: nat)
    requires Carries(layouts, mux) && a <= |layouts|
    ensures k <= |mux| && CutInside(stray, [], mux, k)
    ensures Carried(layouts[a..]) == Multiplex(stray, mux[k..])
    ensures |Carried(layouts[..a])| + |stray| == PacketCount(mux[..k])
  {
    assert layouts == layouts[..a] + layouts[a..];
    CarriedConcat(layouts[..a], layouts[a..]);
    stray, k := WindowRoundTrip(None, layouts[..a], Carried(layouts[a..]), [], mux);
    CutPosition(Carried(layouts[..a]), Carried(layouts[a..]), [], mux, stray, k);
  }

  /** Where a cut of the packet stream lies, counted in packets. */
  lemma {:induction false} CutPosition(front: seq<Packet>, back: seq<Packet>, rest: seq<seq<byte>>, mux: seq<MuxFrame>,
                    stray: seq<seq<byte>>, k: nat)
    requires LegalFrames(mux) && k <= |mux|
    requires front + back == Multiplex(rest, mux) && back == Multiplex(stray, mux[k..])
    ensures |front| + |stray| == |rest| + PacketCount(mux[..k])
  {
    MultiplexLength(rest, mux);
    MultiplexLength(stray, mux[k..]);
    PacketCountSplit(mux, k);
    assert |front + back| == |front| + |back|;
  }

  /** The same for the packets of the sectors [a, b), followed by those of the sectors behind them. */
  lemma {:induction false} RangeCut(layouts: seq<Layout>, mux: seq<MuxFrame>, a: nat, b: nat)
    returns (stray: seq<seq<byte>>, k: nat)
    requires Carries(layouts, mux) && a <= b <= |layouts|
    ensures k <= |mux| && CutInside(stray, [], mux, k)
    ensures Carried(layouts[a..b]) + Carried(layouts[b..]) == Multiplex(stray, mux[k..])
    ensures |Carried(layouts[..a])| + |stray| == PacketCount(mux[..k])
  {
    stray, k := FrontCut(layouts, mux, a);
    assert layouts[a..] == layouts[a..b] + layouts[b..];
    CarriedConcat(layouts[a..b], layouts[b..]);
  }

  /** The frames before such a cut begin before sector `a`, so a window that sector range holds misses them. */
  lemma {:induction false} FrontMissed(layouts: seq<Layout>, mux: seq<MuxFrame>, a: nat, b: nat, w: Window,
                                       stray: seq<seq<byte>>,
                    k: nat, j: nat)
    requires LegalFrames(mux) && a <= b <= |layouts| && HoldsWindow(layouts, mux, a, b, w)
    requires k <= |mux| && CutInside(stray, [], mux, k) && j < k
    requires |Carried(layouts[..a])| + |stray| == PacketCount(mux[..k])
    ensures !w.Contains(mux[j].Number())
  {
    PacketsUpTo(mux, k - 1, k);
    if j < k - 1 {
      PacketsUpTo(mux, j, k - 1);
    }
    assert PacketCount(mux[..j]) <= PacketCount(mux[..k - 1]);
    assert !Within(layouts, mux, j, a, b);
  }

  /** The frames from the cut at sector `b` on, the one it cuts included, end behind it. */
  lemma {:induction false} BackMissed(layouts: seq<Layout>, mux: seq<MuxFrame>, a: nat, b: nat, w: Window,
                                      tail: seq<seq<byte>>,
                   k: nat, j: nat)
    requires LegalFrames(mux) && a <= b <= |layouts| && HoldsWindow(layouts, mux, a, b, w)
    requires k <= |mux| && |Carried(layouts[..b])| + |tail| == PacketCount(mux[..k])
    requires (if tail == [] then k else k - 1) <= j < |mux|
    ensures !w.Contains(mux[j].Number())
  {
    PacketsUpTo(mux, j, j + 1);
    if k <= j {
      PacketCountSplit(mux[..j], k);
      assert mux[..j][..k] == mux[..k];
    }
    assert PacketCount(mux[..j + 1]) > |Carried(layouts[..b])|;
    assert !Within(layouts, mux, j, a, b);
  }

  /** No frame in [i, j) is in the window. */
  predicate NoneIn(mux: seq<MuxFrame>, i: nat, j: nat, w: Window)
    requires j <= |mux|
  {
    forall k :: i <= k < j ==> !w.Contains(mux[k].Number())
  }

  lemma {:induction false} AllFrontMissed(layouts: seq<Layout>, mux: seq<MuxFrame>, a: nat, b: nat, w: Window,
                                          stray: seq<seq<byte>>, k0: nat)
    requires LegalFrames(mux) && a <= b <= |layouts| && HoldsWindow(layouts, mux, a, b, w)
    requires k0 <= |mux| && CutInside(stray, [], mux, k0)
    requires |Carried(layouts[..a])| + |stray| == PacketCount(mux[..k0])
    ensures NoneIn(mux, 0, k0, w)
  {
    forall j | 0 <= j < k0 ensures !w.Contains(mux[j].Number()) {
      FrontMissed(layouts, mux, a, b, w, stray, k0, j);
    }
  }

  lemma {:induction false} AllBackMissed(layouts: seq<Layout>, mux: seq<MuxFrame>, a: nat, b: nat, w: Window,
                                         tail: seq<seq<byte>>, k: nat)
    requires LegalFrames(mux) && a <= b <= |layouts| && HoldsWindow(layouts, mux, a, b, w)
    requires k <= |mux| && |Carried(layouts[..b])| + |tail| == PacketCount(mux[..k])
    ensures NoneIn(mux, if tail == [] || k == 0 then k else k - 1, |mux|, w)
  {
    forall j: nat | (if tail == [] || k == 0 then k else k - 1) <= j < |mux| ensures !w.Contains(mux[j].Number()) {
      BackMissed(layouts, mux, a, b, w, tail, k, j);
    }
  }

  /** What a range of sectors yields, cut as above, for a window whose frames it holds. */
  lemma {:induction false} WindowKept(layouts: seq<Layout>, mux: seq<MuxFrame>, a: nat, b: nat, w: Window,
                   stray: seq<seq<byte>>, k0: nat, tail: seq<seq<byte>>, k1: nat)
    requires Carries(layouts, mux) && a <= b <= |layouts| && HoldsWindow(layouts, mux, a, b, w)
    requires k0 <= |mux| && CutInside(stray, [], mux, k0)
    requires |Carried(layouts[..a])| + |stray| == PacketCount(mux[..k0])
    requires k1 <= |mux| - k0 && CutInside(tail, stray, mux[k0..], k1)
    requires Carried(layouts[b..]) == Multiplex(tail, mux[k0..][k1..])
    ensures Restrict(WindowFrames(tail, mux[k0..], k1), w) == Restrict(Wholes(mux), w)
  {
    BackCut(layouts, mux, b, tail, k0, k1);
    AllFrontMissed(layouts, mux, a, b, w, stray, k0);
    AllBackMissed(layouts, mux, a, b, w, tail, k0 + k1);
    FramesKept(mux, w, tail, k0, k1);
  }

  /** With nothing of the window before frame `k0`, and nothing behind the cut. */
  lemma {:induction false} FramesKept(mux: seq<MuxFrame>, w: Window, tail: seq<seq<byte>>, k0: nat, k1: nat)
    requires LegalFrames(mux) && k0 + k1 <= |mux| && NoneIn(mux, 0, k0, w)
    requires NoneIn(mux, if tail == [] || k0 + k1 == 0 then k0 + k1 else k0 + k1 - 1, |mux|, w)
    ensures Restrict(WindowFrames(tail, mux[k0..], k1), w) == Restrict(Wholes(mux), w)
  {
    if tail != [] && k1 == 0 {
      assert mux[k0..][..0] == [];
      assert Restrict(Wholes([]), w) == [];
      NoneSelected(mux, w);
    } else {
      WindowIsMiddle(mux, k0, k1, tail, w);
      MiddleKept(mux, k0, if tail == [] then k0 + k1 else k0 + k1 - 1, w);
    }
  }

  lemma {:induction false} BackCut(layouts: seq<Layout>, mux: seq<MuxFrame>, b: nat, tail: seq<seq<byte>>, k0: nat,
                                   k1: nat)
    requires Carries(layouts, mux) && b <= |layouts| && k0 + k1 <= |mux|
    requires Carried(layouts[b..]) == Multiplex(tail, mux[k0..][k1..])
    ensures |Carried(layouts[..b])| + |tail| == PacketCount(mux[..k0 + k1])
  {
    assert layouts == layouts[..b] + layouts[b..];
    CarriedConcat(layouts[..b], layouts[b..]);
    assert mux[k0..][k1..] == mux[k0 + k1..];
    CutPosition(Carried(layouts[..b]), Carried(layouts[b..]), [], mux, tail, k0 + k1);
  }

  /** The unfinished frame at the end of a range is dropped by a window that does not select it. */
  lemma {:induction false} WindowIsMiddle(mux: seq<MuxFrame>, k0: nat, k1: nat, tail: seq<seq<byte>>, w: Window)
    requires LegalFrames(mux) && k0 + k1 <= |mux|
    requires tail != [] ==> k1 > 0 && !w.Contains(mux[k0 + k1 - 1].Number())
    ensures Restrict(WindowFrames(tail, mux[k0..], k1), w)
         == Restrict(Wholes(mux[k0..if tail == [] then k0 + k1 else k0 + k1 - 1]), w)
  {
    var frames := mux[k0..];
    if tail == [] {
      assert frames[..k1] == mux[k0..k0 + k1];
    } else {
      assert frames[..k1 - 1] == mux[k0..k0 + k1 - 1];
      var whole := Wholes(frames[..k1 - 1]);
      assert frames[k1 - 1] == mux[k0 + k1 - 1];
      var cut := frames[k1 - 1].Whole();
      if |Flatten(tail)| < |cut.data| {
        var part := Frame(cut.timecode, cut.data[..|cut.data| - |Flatten(tail)|]);
        RestrictConcat(whole, [part], w);
        RestrictOne(part, w);
        assert Restrict(whole, w) + [] == Restrict(whole, w);
      }
    }
  }

  /**
   * A range of sectors, wherever its bounds cut the stream, yields with a filter exactly the frames of
   * the stream that the filter selects, if these begin and end in the range.
   */
  lemma {:induction false} RangeYields(layouts: seq<Layout>, mux: seq<MuxFrame>, a: nat, b: nat, w: Window)
    requires Carries(layouts, mux) && a <= b <= |layouts| && HoldsWindow(layouts, mux, a, b, w)
    ensures AllOk(ParseAll(NewParser(Dst, Some(w)), Encoded(layouts[a..b])).results)
    ensures Extracted(NewParser(Dst, Some(w)), Encoded(layouts[a..b])) == Restrict(Wholes(mux), w)
  {
    var stray, k0 := RangeCut(layouts, mux, a, b);
    SliceLegal(layouts, mux, a, b, k0);
    var tail, k1 := WindowExtracted(w, layouts[a..b], Carried(layouts[b..]), stray, mux[k0..]);
    WindowKept(layouts, mux, a, b, w, stray, k0, tail, k1);
  }

  lemma {:induction false} SliceLegal(layouts: seq<Layout>, mux: seq<MuxFrame>, a: nat, b: nat, k: nat)
    requires LegalLayouts(layouts) && LegalFrames(mux) && a <= b <= |layouts| && k <= |mux|
    ensures LegalLayouts(layouts[a..b]) && LegalFrames(mux[k..])
  {
  }

  lemma {:induction false} WindowExtracted(w: Window, own: seq<Layout>, more: seq<Packet>, stray: seq<seq<byte>>,
                                           frames: seq<MuxFrame>)
    returns (tail: seq<seq<byte>>, k: nat)
    requires LegalFrames(frames) && LegalLayouts(own) && Carried(own) + more == Multiplex(stray, frames)
    ensures k <= |frames| && more == Multiplex(tail, frames[k..]) && CutInside(tail, stray, frames, k)
    ensures AllOk(ParseAll(NewParser(Dst, Some(w)), Encoded(own)).results)
    ensures Extracted(NewParser(Dst, Some(w)), Encoded(own)) == Restrict(WindowFrames(tail, frames, k), w)
  {
    tail, k := WindowRoundTrip(Some(w), own, more, stray, frames);
  }

  // ---------------------------------------------------------------- the smallest stream

  lemma {:induction false} OnePacketFrame(layout: Layout, frame: MuxFrame, data: seq<byte>)
    requires frame.Legal() && frame.chunks == [data] && layout.Packets() == [Start(frame.Info(), data)]
    ensures Carried([layout]) == Multiplex([], [frame]) == layout.Packets()
  {
    var layouts := [layout];
    assert layouts[..0] == [];
    assert Carried(layouts) == Carried([]) + layout.Packets();
    assert frame.chunks[1..] == [] && [frame][1..] == [];
    assert Multiplex([], []) == [];
  }

  lemma {:induction false} OneFrameWithin(layouts: seq<Layout>, mux: seq<MuxFrame>)
    requires |layouts| == 1 && |mux| == 1 && |mux[0].chunks| == 1 && |Carried(layouts)| == 1
    ensures Within(layouts, mux, 0, 0, 1)
  {
    assert mux[..0] == [] && mux[..1] == mux && layouts[..0] == [] && layouts[..1] == layouts;
    assert mux[1..] == [] && PacketCount(mux) == 1 + PacketCount(mux[1..]);
  }

  lemma {:induction false} OneFrameSelected(frame: MuxFrame, w: Window)
    requires frame.Legal() && w.Contains(frame.Number())
    ensures Wholes([frame]) == [frame.Whole()] && Restrict(Wholes([frame]), w) == [frame.Whole()]
  {
    WholesAt([frame], 0);
    assert Wholes([frame]) == [frame.Whole()];
    RestrictOne(frame.Whole(), w);
  }

  /** One sector with one frame of one packet, at the very start. */
  lemma {:induction false} OneFrameStream() returns (layouts: seq<Layout>, mux: seq<MuxFrame>)
    ensures |layouts| == 1 && Carries(layouts, mux)
    ensures |mux| == 1
    ensures HoldsWindow(layouts, mux, 0, 1, Window(0, 1))
    ensures |Restrict(Wholes(mux), Window(0, 1))| == 1
  {
    var frame := MuxFrame(0, 0, 0, [[7]]);
    assert Flatten(frame.chunks) == [7] + Flatten(frame.chunks[1..]);
    var entry := Some(Entry(frame.Info(), 0, 0));
    AloneRoundTrip(true, entry, [7]);
    OnePacketFrame(Alone(true, entry, [7]), frame, [7]);
    layouts, mux := [Alone(true, entry, [7])], [frame];
    OneFrameSelected(frame, Window(0, 1));
    OneFrameWithin(layouts, mux);
  }
}
