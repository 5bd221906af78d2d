/** Which sectors a track reads and which frames it keeps. */
module TrackWindows {
  import opened Bytes
  import opened AudioPackets
  import opened AudioSectorParserClass
  import opened FrameParser
  import opened FramingTheorems

  const WRAP: nat := 0x1_0000_0000

  datatype TrackTime = TrackTime(minutes: byte, seconds: byte, frames: byte) {
    function FrameCount(): nat {
      minutes * FRAMES_PER_MINUTE + seconds * FRAMES_PER_SECOND + frames
    }
  }

  /** The parts of an area TOC that extraction uses; the lists may be shorter than the track count. */
  datatype Area = Area(
    format: FrameFormat,
    trackCount: byte,
    trackStart: nat,
    trackEnd: nat,
    starts: seq<TrackTime>,
    durations: seq<TrackTime>,
    startLsns: seq<nat>,
    lengthLsns: seq<nat>)

  datatype PlanError = InvalidTrack | NoStartTime | NoDuration | UnknownFormat | NoNextStartTime

  /** The sectors [start, end) and the filter of one track. */
  datatype Plan = Plan(start: nat, end: nat, filter: Window)

  /** What is counted is the disc frame that the time names. */
  lemma {:induction false} CountIsNumber(t: TrackTime)
    ensures t.FrameCount() == FrameNumber(t.minutes, t.seconds, t.frames)
  {
  }

  // ---------------------------------------------------------------- timecodes through bytes

  /** The three-byte timecode a frame count is turned into, minutes truncated to a byte. */
  function ToTimecode(frameCount: nat): TrackTime {
    TrackTime(frameCount / FRAMES_PER_MINUTE % 256, frameCount / FRAMES_PER_SECOND % 60, frameCount % FRAMES_PER_SECOND)
  }

  /** The frame info that has this time. */
  function InfoAt(time: TrackTime, sectorCount: uint5): AudioFrameInfo {
    AudioFrameInfo(time.minutes, time.seconds, time.frames, sectorCount)
  }

  /** The frame count the parser makes of it again. */
  function Truncated(frameCount: nat): nat { InfoAt(ToTimecode(frameCount), 0).ToFrameCount() }

  lemma {:induction false} TruncatedIsMod(frameCount: nat)
    ensures Truncated(frameCount) == frameCount % 1152000
  {
    var m, r := frameCount / 4500, frameCount % 4500;
    assert frameCount == 4500 * m + r;
    assert frameCount / 75 == 60 * m + r / 75;
    assert frameCount / 75 % 60 == r / 75;
    assert frameCount % 75 == r % 75;
    assert m == 256 * (m / 256) + m % 256;
    assert frameCount == 1152000 * (m / 256) + (4500 * (m % 256) + r);
  }

  /** The round trip through bytes is exact precisely for timecodes below 256 minutes. */
  lemma {:induction false} TruncatedIsExact(frameCount: nat)
    ensures Truncated(frameCount) == frameCount <==> frameCount < 1152000
  {
    TruncatedIsMod(frameCount);
  }

  /** Below 256 minutes it is the time's usual notation, whose minutes, seconds and frames name the disc frame. */
  lemma {:induction false} UsualNotation(frameCount: nat)
    ensures var t := ToTimecode(frameCount);
            && t.seconds < 60 && t.frames < 75
            && FrameNumber(t.minutes, t.seconds, t.frames) == frameCount % 1152000
  {
    TruncatedIsMod(frameCount);
  }

  /** A frame whose info holds the time of disc frame `n` gets the timecode `n`. */
  lemma {:induction false} FrameGetsItsNumber(p: Parser, n: nat, sectorCount: uint5, data: seq<byte>)
    requires p.format.Dst? && n < 1152000
    ensures Step(p, Start(InfoAt(ToTimecode(n), sectorCount), data)).parser.framing.timecode == Some(n)
  {
    TruncatedIsExact(n);
  }

  function FilterOf(startCount: nat, durationCount: nat): Window {
    Window(Truncated(startCount), Truncated(startCount + durationCount))
  }

  /**
   * Which frames of its own a track keeps, wherever it lies: all of them if it ends below 256 minutes,
   * those below the wrapped end if it starts there, and none if it starts later.
   */
  lemma {:induction false} FilterPastTheEnd(startCount: nat, durationCount: nat, timecode: nat)
    requires startCount <= timecode < startCount + durationCount
    ensures FilterOf(startCount, durationCount).Contains(timecode) <==>
              || startCount + durationCount < 1152000
              || (startCount < 1152000 && timecode < (startCount + durationCount) % 1152000)
  {
    TruncatedIsMod(startCount);
    TruncatedIsMod(startCount + durationCount);
    Remainder(startCount);
    Remainder(startCount + durationCount);
  }

  /** The filter of a track, handed to the parser as two times of three bytes each. */
  method SetTrackFilter(parser: AudioSectorParser, startCount: nat, durationCount: nat)
    modifies parser`timecodeFilter
    ensures parser.timecodeFilter == Some(FilterOf(startCount, durationCount))
    ensures parser.timecodeFilter == Some(Window(startCount % 1152000, (startCount + durationCount) % 1152000))
  {
    var start, end := ToTimecode(startCount), ToTimecode(startCount + durationCount);
    FilterByNumbers(startCount, durationCount);
    parser.SetTimecodeFilter(start.minutes, start.seconds, start.frames, end.minutes, end.seconds, end.frames);
  }

  lemma {:induction false} FilterByNumbers(startCount: nat, durationCount: nat)
    ensures var start, end := ToTimecode(startCount), ToTimecode(startCount + durationCount);
            FilterOf(startCount, durationCount)
            == Window(FrameNumber(start.minutes, start.seconds, start.frames),
                      FrameNumber(end.minutes, end.seconds, end.frames))
            == Window(startCount % 1152000, (startCount + durationCount) % 1152000)
  {
    TruncatedIsNumber(startCount);
    TruncatedIsNumber(startCount + durationCount);
  }

  lemma {:induction false} TruncatedIsNumber(n: nat)
    ensures var t := ToTimecode(n);
            Truncated(n) == FrameNumber(t.minutes, t.seconds, t.frames) == n % 1152000
  {
    TruncatedIsMod(n);
  }

  lemma {:induction false} Remainder(n: nat)
    ensures n % 1152000 < 1152000 && n % 1152000 <= n
    ensures n % 1152000 == n <==> n < 1152000
    ensures n >= 1152000 ==> n % 1152000 <= n - 1152000
  {
    assert n == 1152000 * (n / 1152000) + n % 1152000;
  }

  /** So a track keeps all its frames exactly if it is empty or ends below 256 minutes. */
  lemma {:induction false} KeepsAllFrames(startCount: nat, durationCount: nat)
    ensures (forall t :: startCount <= t < startCount + durationCount ==>
               FilterOf(startCount, durationCount).Contains(t))
            <==> durationCount == 0 || startCount + durationCount < 1152000
  {
    var end := startCount + durationCount;
    forall t | startCount <= t < end
      ensures FilterOf(startCount, durationCount).Contains(t) <==>
                end < 1152000 || (startCount < 1152000 && t < end % 1152000)
    {
      FilterPastTheEnd(startCount, durationCount, t);
    }
    Remainder(end);
    if durationCount > 0 && end >= 1152000 {
      assert !FilterOf(startCount, durationCount).Contains(end - 1);
    }
  }

  // ---------------------------------------------------------------- sector ranges

  /** A sector computed from a start time, as 32-bit arithmetic leaves it. */
  function SectorOf(area: Area, frameCount: nat, sectorsPerFrame: nat): nat {
    (area.trackStart + frameCount * sectorsPerFrame / 3) % WRAP
  }

  predicate HasExplicitRange(area: Area, idx: nat) {
    && idx < |area.startLsns| && idx < |area.lengthLsns|
    && area.startLsns[idx] != 0 && area.lengthLsns[idx] != 0
  }

  function SectorRange(area: Area, idx: nat, sectorsPerFrame: nat): Result<(nat, nat), PlanError>
    requires idx < |area.starts|
  {
    if HasExplicitRange(area, idx) then
      Ok((area.startLsns[idx], (area.startLsns[idx] + area.lengthLsns[idx]) % WRAP))
    else
      var start := if idx == 0 then area.trackStart else SectorOf(area, area.starts[idx].FrameCount(), sectorsPerFrame);
      if idx + 1 < area.trackCount then
        if idx + 1 >= |area.starts| then Err(NoNextStartTime)
        else Ok((start, SectorOf(area, area.starts[idx + 1].FrameCount(), sectorsPerFrame)))
      else
        Ok((start, area.trackEnd))
  }

  /** The checks of `extract_track`, in their order, and what it computes before it starts reading. */
  function PlanTrack(area: Area, trackNumber: nat): Result<Plan, PlanError> {
    if trackNumber < 1 || trackNumber > area.trackCount then Err(InvalidTrack)
    else
      var idx := trackNumber - 1;
      if idx >= |area.starts| then Err(NoStartTime)
      else if idx >= |area.durations| then Err(NoDuration)
      else
        match area.format.SectorsPerFrame()
        case None => Err(UnknownFormat)
        case Some(sectorsPerFrame) =>
          var range := SectorRange(area, idx, sectorsPerFrame);
          if range.Err? then Err(range.error)
          else
            Ok(Plan(range.value.0, range.value.1,
                    FilterOf(area.starts[idx].FrameCount(), area.durations[idx].FrameCount())))
  }

  /** There are tracks that lose every frame: the last frame before 256 minutes is one. */
  lemma {:induction false} LateTrackExists() returns (area: Area)
    ensures PlanTrack(area, 1).Ok?
    ensures var start := area.starts[0].FrameCount();
            && area.durations[0].FrameCount() == 1 && start + 1 == 1152000
            && !PlanTrack(area, 1).value.filter.Contains(start)
  {
    area := Area(Dst, 1, 0, 14, [TrackTime(255, 59, 74)], [TrackTime(0, 0, 1)], [], []);
    FilterPastTheEnd(1151999, 1, 1151999);
    Remainder(1152000);
  }

  /** The first sector of a track without 32-bit wrap-around. */
  function ExactStart(area: Area, idx: nat, sectorsPerFrame: nat): nat
    requires idx < |area.starts|
  {
    if idx == 0 then area.trackStart else area.trackStart + area.starts[idx].FrameCount() * sectorsPerFrame / 3
  }

  /** The formats that have a number of sectors per frame: 16 for three frames in 16 sectors, and 14 otherwise. */
  predicate KnownFormat(format: FrameFormat) { !format.Reserved? && !format.Unknown? }

  /** An entry of a list of sector numbers; a missing one counts as zero. */
  function EntryOf(list: seq<nat>, idx: nat): nat { if idx < |list| then list[idx] else 0 }

  lemma {:induction false} SectorsOfFormat(format: FrameFormat)
    ensures format.SectorsPerFrame() ==
              if !KnownFormat(format) then None else if format.Dsd3In16? then Some(16) else Some(14)
  {
  }

  /** The track list has an entry for the track: a first sector and a number of sectors. */
  predicate Listed(area: Area, idx: nat) { EntryOf(area.startLsns, idx) > 0 && EntryOf(area.lengthLsns, idx) > 0 }

  /** A disc without a track list: times are there, in order, and the last track starts inside the area. */
  predicate Fallback(area: Area, sectorsPerFrame: nat) {
    && area.format.SectorsPerFrame() == Some(sectorsPerFrame)
    && 1 <= area.trackCount <= |area.starts| && area.trackCount <= |area.durations|
    && (forall i :: 0 <= i < area.trackCount ==> !Listed(area, i))
    && (forall i, j :: 0 <= i <= j < area.trackCount ==> area.starts[i].FrameCount() <= area.starts[j].FrameCount())
    && ExactStart(area, area.trackCount - 1, sectorsPerFrame) <= area.trackEnd < 0x1_0000_0000
  }

  lemma {:induction false} ScaleMonotonic(a: nat, b: nat, sectorsPerFrame: nat)
    requires a <= b
    ensures a * sectorsPerFrame / 3 <= b * sectorsPerFrame / 3
  {
    assert b * sectorsPerFrame == a * sectorsPerFrame + (b - a) * sectorsPerFrame;
    assert (b - a) * sectorsPerFrame >= 0;
  }

  lemma {:induction false} StartsInOrder(area: Area, sectorsPerFrame: nat, i: nat, j: nat)
    requires Fallback(area, sectorsPerFrame) && i <= j < area.trackCount
    ensures area.trackStart <= ExactStart(area, i, sectorsPerFrame) <= ExactStart(area, j, sectorsPerFrame)
  {
    ScaleMonotonic(area.starts[i].FrameCount(), area.starts[j].FrameCount(), sectorsPerFrame);
  }

  lemma {:induction false} SectorIsExact(area: Area, sectorsPerFrame: nat, idx: nat)
    requires Fallback(area, sectorsPerFrame) && idx < area.trackCount
    ensures idx > 0 ==>
              SectorOf(area, area.starts[idx].FrameCount(), sectorsPerFrame) == ExactStart(area, idx, sectorsPerFrame)
  {
    StartsInOrder(area, sectorsPerFrame, idx, area.trackCount - 1);
  }

  /** Where the estimated range of a track ends. */
  function ExactEnd(area: Area, idx: nat, sectorsPerFrame: nat): nat
    requires idx < |area.starts| && idx < area.trackCount <= |area.starts|
  {
    if idx + 1 == area.trackCount then area.trackEnd else ExactStart(area, idx + 1, sectorsPerFrame)
  }

  lemma {:induction false} EndsInOrder(area: Area, sectorsPerFrame: nat, idx: nat)
    requires Fallback(area, sectorsPerFrame) && idx < area.trackCount
    ensures ExactStart(area, idx, sectorsPerFrame) <= ExactEnd(area, idx, sectorsPerFrame) <= area.trackEnd
  {
    var last := area.trackCount - 1;
    StartsInOrder(area, sectorsPerFrame, idx, last);
    if idx < last {
      StartsInOrder(area, sectorsPerFrame, idx, idx + 1);
      StartsInOrder(area, sectorsPerFrame, idx + 1, last);
    }
  }

  lemma {:induction false} EstimatedPlan(area: Area, sectorsPerFrame: nat, idx: nat)
    requires Fallback(area, sectorsPerFrame) && idx < area.trackCount
    ensures PlanTrack(area, idx + 1).Ok?
    ensures PlanTrack(area, idx + 1).value.start == ExactStart(area, idx, sectorsPerFrame)
    ensures PlanTrack(area, idx + 1).value.end == ExactEnd(area, idx, sectorsPerFrame)
  {
    SectorIsExact(area, sectorsPerFrame, idx);
    if idx + 1 < area.trackCount {
      SectorIsExact(area, sectorsPerFrame, idx + 1);
    }
    assert !Listed(area, idx);
  }

  /**
   * The estimated ranges tile the area: each one ends where the next begins, the first begins
   * and the last ends with the area, none is reversed, and no 32-bit sum wraps around.
   */
  lemma {:induction false} RangesTile(area: Area, sectorsPerFrame: nat, idx: nat)
    requires Fallback(area, sectorsPerFrame) && idx < area.trackCount
    ensures PlanTrack(area, idx + 1).Ok?
    ensures var plan := PlanTrack(area, idx + 1).value;
            && plan.start <= plan.end <= area.trackEnd
            && plan.start == ExactStart(area, idx, sectorsPerFrame)
            && (idx == 0 ==> plan.start == area.trackStart)
            && (idx + 1 < area.trackCount ==> plan.end == ExactStart(area, idx + 1, sectorsPerFrame))
            && (idx + 1 == area.trackCount ==> plan.end == area.trackEnd)
  {
    EstimatedPlan(area, sectorsPerFrame, idx);
    EndsInOrder(area, sectorsPerFrame, idx);
  }

  predicate Reads(area: Area, idx: nat, lsn: nat) {
    var plan := PlanTrack(area, idx + 1);
    plan.Ok? && plan.value.start <= lsn < plan.value.end
  }

  lemma {:induction false} EstimatedReads(area: Area, sectorsPerFrame: nat, idx: nat, lsn: nat)
    requires Fallback(area, sectorsPerFrame) && idx < area.trackCount
    ensures Reads(area, idx, lsn) <==>
              ExactStart(area, idx, sectorsPerFrame) <= lsn < ExactEnd(area, idx, sectorsPerFrame)
  {
    EstimatedPlan(area, sectorsPerFrame, idx);
  }

  /** So every sector of the area is read by exactly one track. */
  lemma {:induction false} EverySectorHasATrack(area: Area, sectorsPerFrame: nat, lsn: nat, n: nat) returns (idx: nat)
    requires Fallback(area, sectorsPerFrame) && 1 <= n <= area.trackCount
    requires area.trackStart <= lsn
    requires lsn < if n == area.trackCount then area.trackEnd else ExactStart(area, n, sectorsPerFrame)
    ensures idx < n && Reads(area, idx, lsn)
    ensures forall j: nat :: j < n && Reads(area, j, lsn) ==> j == idx
  {
    EstimatedReads(area, sectorsPerFrame, n - 1, lsn);
    if ExactStart(area, n - 1, sectorsPerFrame) <= lsn {
      idx := n - 1;
      forall j: nat | j < n - 1 ensures !Reads(area, j, lsn) {
        EstimatedReads(area, sectorsPerFrame, j, lsn);
        StartsInOrder(area, sectorsPerFrame, j + 1, n - 1);
      }
    } else {
      idx := EverySectorHasATrack(area, sectorsPerFrame, lsn, n - 1);
    }
  }

  /** When a track can be planned at all, and the first thing that is wrong otherwise. */
  lemma {:induction false} PlanOutcome(area: Area, n: nat)
    ensures PlanTrack(area, n).Ok? <==>
              && 1 <= n <= area.trackCount && n <= |area.starts| && n <= |area.durations|
              && KnownFormat(area.format)
              && (Listed(area, n - 1) || n == area.trackCount || n < |area.starts|)
    ensures PlanTrack(area, n).Err? ==>
              PlanTrack(area, n).error ==
                if n == 0 || n > area.trackCount then InvalidTrack
                else if n > |area.starts| then NoStartTime
                else if n > |area.durations| then NoDuration
                else if !KnownFormat(area.format) then UnknownFormat
                else NoNextStartTime
  {
  }

  /** Tracks from `first` on with entries in the track list; no entry reaches past the last sector number. */
  predicate InTrackList(area: Area, first: nat, n: nat) {
    && first + n <= area.trackCount && first + n <= |area.starts| && first + n <= |area.durations|
    && KnownFormat(area.format)
    && forall i :: first <= i < first + n ==> Listed(area, i) && ListedEnd(area, i) < 0x1_0000_0000
  }

  function ListedStart(area: Area, idx: nat): nat { EntryOf(area.startLsns, idx) }

  function ListedEnd(area: Area, idx: nat): nat { EntryOf(area.startLsns, idx) + EntryOf(area.lengthLsns, idx) }

  /** A listed track reads exactly the sectors of its entry. */
  lemma {:induction false} ListedReads(area: Area, idx: nat, lsn: nat)
    requires InTrackList(area, idx, 1)
    ensures var plan := PlanTrack(area, idx + 1);
            plan.Ok? && plan.value.start == ListedStart(area, idx) && plan.value.end == ListedEnd(area, idx)
    ensures Reads(area, idx, lsn) <==> ListedStart(area, idx) <= lsn < ListedEnd(area, idx)
  {
    assert Listed(area, idx) && ListedEnd(area, idx) < 0x1_0000_0000;
  }

  /** An entry that reaches past the last 32-bit sector number wraps around, and its track reads nothing. */
  lemma {:induction false} WrappedEntryReadsNothing(area: Area, idx: nat, lsn: nat)
    requires Listed(area, idx) && area.startLsns[idx] < 0x1_0000_0000 && area.lengthLsns[idx] < 0x1_0000_0000
    requires ListedEnd(area, idx) >= 0x1_0000_0000
    ensures !Reads(area, idx, lsn)
  {
  }

  /** Each entry follows the one before it. */
  predicate ListFollows(area: Area, first: nat, n: nat) {
    forall i :: first < i < first + n ==> ListedStart(area, i) == ListedEnd(area, i - 1)
  }

  lemma {:induction false} ListInOrder(area: Area, first: nat, n: nat, i: nat, j: nat)
    requires InTrackList(area, first, n) && ListFollows(area, first, n) && first <= i <= j < first + n
    ensures ListedStart(area, i) <= ListedStart(area, j) && ListedEnd(area, i) <= ListedEnd(area, j)
    ensures i < j ==> ListedEnd(area, i) <= ListedStart(area, j)
  {
    if i < j {
      ListInOrder(area, first, n, i, j - 1);
      assert Listed(area, j);
    }
  }

  lemma {:induction false} OneOfList(area: Area, first: nat, n: nat, i: nat)
    requires InTrackList(area, first, n) && first <= i < first + n
    ensures InTrackList(area, i, 1)
  {
  }

  /** Every sector between the first entry's first and the last entry's last is read by exactly one track. */
  lemma {:induction false} ListedSectorHasATrack(area: Area, first: nat, n: nat, lsn: nat) returns (idx: nat)
    requires 0 < n && InTrackList(area, first, n) && ListFollows(area, first, n)
    requires ListedStart(area, first) <= lsn < ListedEnd(area, first + n - 1)
    ensures first <= idx < first + n && Reads(area, idx, lsn)
    ensures forall j: nat :: first <= j < first + n && Reads(area, j, lsn) ==> j == idx
  {
    idx := FindListed(area, first, n, lsn, n);
    OneOfList(area, first, n, idx);
    ListedReads(area, idx, lsn);
    forall j: nat | first <= j < first + n && Reads(area, j, lsn) ensures j == idx {
      OneOfList(area, first, n, j);
      ListedReads(area, j, lsn);
      if j < idx {
        ListInOrder(area, first, n, j, idx);
      } else if idx < j {
        ListInOrder(area, first, n, idx, j);
      }
    }
  }

  lemma {:induction false} FindListed(area: Area, first: nat, n: nat, lsn: nat, k: nat) returns (idx: nat)
    requires 0 < k <= n && InTrackList(area, first, n) && ListFollows(area, first, n)
    requires ListedStart(area, first) <= lsn < ListedEnd(area, first + k - 1)
    ensures first <= idx < first + n && ListedStart(area, idx) <= lsn < ListedEnd(area, idx)
  {
    if ListedStart(area, first + k - 1) <= lsn {
      idx := first + k - 1;
    } else {
      idx := FindListed(area, first, n, lsn, k - 1);
    }
  }

  // ---------------------------------------------------------------- filters

  /** Each track starts where the one before it ends, and the disc stays below 256 minutes. */
  predicate Contiguous(area: Area, n: nat) {
    && n <= |area.starts| && n <= |area.durations|
    && (forall i :: 0 < i < n ==>
          area.starts[i].FrameCount() == area.starts[i - 1].FrameCount() + area.durations[i - 1].FrameCount())
    && (n > 0 ==> area.starts[n - 1].FrameCount() + area.durations[n - 1].FrameCount() < 1152000)
  }

  function TrackFilter(area: Area, idx: nat): Window
    requires idx < |area.starts| && idx < |area.durations|
  {
    FilterOf(area.starts[idx].FrameCount(), area.durations[idx].FrameCount())
  }

  lemma {:induction false} FiltersAbut(area: Area, n: nat, i: nat)
    requires Contiguous(area, n) && i < n
    ensures TrackFilter(area, i) == Window(area.starts[i].FrameCount(),
                                           area.starts[i].FrameCount() + area.durations[i].FrameCount())
    ensures area.starts[0].FrameCount() <= area.starts[i].FrameCount()
    ensures i + 1 < n ==> TrackFilter(area, i).end == TrackFilter(area, i + 1).start
    decreases n - i
  {
    StartsGrow(area, n, 0, i);
    StartsGrow(area, n, i, n - 1);
    TruncatedIsExact(area.starts[i].FrameCount());
    TruncatedIsExact(area.starts[i].FrameCount() + area.durations[i].FrameCount());
    if i + 1 < n {
      FiltersAbut(area, n, i + 1);
    }
  }

  lemma {:induction false} StartsGrow(area: Area, n: nat, i: nat, j: nat)
    requires Contiguous(area, n) && i <= j < n
    ensures area.starts[i].FrameCount() <= area.starts[j].FrameCount()
    ensures i < j ==> area.starts[i].FrameCount() + area.durations[i].FrameCount() <= area.starts[j].FrameCount()
  {
    if i < j {
      StartsGrow(area, n, i, j - 1);
    }
  }

  /** Every timecode of the disc belongs to exactly one track. */
  lemma {:induction false} ExactlyOneTrack(area: Area, n: nat, timecode: nat) returns (idx: nat)
    requires n > 0 && Contiguous(area, n)
    requires area.starts[0].FrameCount() <= timecode
    requires timecode < area.starts[n - 1].FrameCount() + area.durations[n - 1].FrameCount()
    ensures idx < n && TrackFilter(area, idx).Contains(timecode)
    ensures forall j: nat :: j < n && TrackFilter(area, j).Contains(timecode) ==> j == idx
  {
    idx := FindTrack(area, n, timecode, n);
    forall j: nat | j < n && TrackFilter(area, j).Contains(timecode) ensures j == idx {
      FiltersAbut(area, n, j);
      FiltersAbut(area, n, idx);
      if j < idx {
        StartsGrow(area, n, j, idx);
      } else if idx < j {
        StartsGrow(area, n, idx, j);
      }
    }
  }

  lemma {:induction false} FindTrack(area: Area, n: nat, timecode: nat, k: nat) returns (idx: nat)
    requires Contiguous(area, n) && 0 < k <= n
    requires area.starts[0].FrameCount() <= timecode
    requires timecode < area.starts[k - 1].FrameCount() + area.durations[k - 1].FrameCount()
    ensures idx < k && TrackFilter(area, idx).Contains(timecode)
  {
    FiltersAbut(area, n, k - 1);
    if area.starts[k - 1].FrameCount() <= timecode {
      idx := k - 1;
    } else {
      idx := FindTrack(area, n, timecode, k - 1);
    }
  }

  /** Frames with known timecodes that never go back. */
  predicate InOrder(frames: seq<Frame>) {
    && (forall i :: 0 <= i < |frames| ==> frames[i].timecode.Some?)
    && (forall i, j :: 0 <= i <= j < |frames| ==> frames[i].timecode.value <= frames[j].timecode.value)
  }

  lemma {:induction false} RestrictEmpty(frames: seq<Frame>, w: Window, bound: nat)
    requires InOrder(frames) && bound <= w.start
    requires frames != [] ==> frames[|frames| - 1].timecode.value < bound
    ensures Restrict(frames, w) == []
    decreases |frames|
  {
    if frames != [] {
      RestrictEmpty(frames[..|frames| - 1], w, bound);
    }
  }

  lemma {:induction false} NothingMore<T>(s: seq<T>)
    ensures s + [] == s
  {
  }

  /** Adjacent windows cut an ordered stream into adjacent pieces. */
  lemma {:induction false} RestrictSplit(frames: seq<Frame>, a: nat, b: nat, c: nat)
    requires InOrder(frames) && a <= b <= c
    ensures Restrict(frames, Window(a, b)) + Restrict(frames, Window(b, c)) == Restrict(frames, Window(a, c))
    decreases |frames|
  {
    if frames != [] {
      var init, last := frames[..|frames| - 1], frames[|frames| - 1];
      RestrictSplit(init, a, b, c);
      if last.timecode.value < b {
        RestrictEmpty(init, Window(b, c), last.timecode.value + 1);
        RestrictEmpty(frames, Window(b, c), last.timecode.value + 1);
        NothingMore(Restrict(init, Window(a, b)));
        NothingMore(Restrict(frames, Window(a, b)));
      } else {
        Assoc(Restrict(init, Window(a, b)), Restrict(init, Window(b, c)),
              if last.timecode.value < c then [last] else []);
        NothingMore(Restrict(init, Window(a, b)));
      }
    }
  }

  /** The frames the tracks [first, until) emit, one track after the other. */
  function TracksOf(area: Area, frames: seq<Frame>, first: nat, until: nat): seq<Frame>
    requires first <= until <= |area.starts| && until <= |area.durations|
  {
    if first == until then []
    else TracksOf(area, frames, first, until - 1) + Restrict(frames, TrackFilter(area, until - 1))
  }

  /** The tracks of a disc together emit every frame of their common range once, in stream order. */
  lemma {:induction false} TracksPartitionFrames(area: Area, n: nat, frames: seq<Frame>, first: nat, until: nat)
    requires Contiguous(area, n) && first < until <= n && InOrder(frames)
    ensures TracksOf(area, frames, first, until)
         == Restrict(frames, Window(area.starts[first].FrameCount(),
                                    area.starts[until - 1].FrameCount() + area.durations[until - 1].FrameCount()))
    decreases until
  {
    var a, b := area.starts[first].FrameCount(), area.starts[until - 1].FrameCount();
    var c := b + area.durations[until - 1].FrameCount();
    FiltersAbut(area, n, until - 1);
    TracksUnfold(area, frames, first, until, Window(b, c));
    if first == until - 1 {
      TracksOfNone(area, frames, first, Restrict(frames, Window(b, c)));
    } else {
      TracksPartitionFrames(area, n, frames, first, until - 1);
      StartsGrow(area, n, first, until - 1);
      assert b == area.starts[until - 2].FrameCount() + area.durations[until - 2].FrameCount();
      RestrictSplit(frames, a, b, c);
    }
  }

  lemma {:induction false} TracksUnfold(area: Area, frames: seq<Frame>, first: nat, until: nat, last: Window)
    requires first < until <= |area.starts| && until <= |area.durations| && last == TrackFilter(area, until - 1)
    ensures TracksOf(area, frames, first, until) == TracksOf(area, frames, first, until - 1) + Restrict(frames, last)
  {
  }

  lemma {:induction false} TracksOfNone(area: Area, frames: seq<Frame>, first: nat, more: seq<Frame>)
    requires first <= |area.starts| && first <= |area.durations|
    ensures TracksOf(area, frames, first, first) + more == more
  {
  }
}
