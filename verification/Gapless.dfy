/** Gapless extraction: the files of consecutive tracks hold one uninterrupted stream. */
module Gapless {
  import opened Bytes
  import opened BitOrder
  import opened BlockInterleave
  import opened DsfFile
  import opened DsfWriterClass
  import opened DsfTheorems
  import opened TrackChain

  /** Everything the tracks' pipelines delivered, end to end. */
  function Delivered(jobs: seq<Job>): seq<byte> {
    if jobs == [] then []
    else (if jobs[0].delivered.Ok? then Flatten(jobs[0].delivered.value) else []) + Delivered(jobs[1..])
  }

  lemma {:induction false} DeliveredConcat(a: seq<Job>, b: seq<Job>)
    ensures Delivered(a + b) == Delivered(a) + Delivered(b)
    decreases |a|
  {
    if a == [] {
      assert a + b == b;
    } else {
      assert (a + b)[1..] == a[1..] + b;
      DeliveredConcat(a[1..], b);
    }
  }

  lemma {:induction false} DeliveredSnoc(jobs: seq<Job>, last: Job)
    ensures Delivered(jobs + [last])
         == Delivered(jobs) + if last.delivered.Ok? then Flatten(last.delivered.value) else []
  {
    DeliveredConcat(jobs, [last]);
    var out := if last.delivered.Ok? then Flatten(last.delivered.value) else [];
    assert Delivered([last]) == out + Delivered([]);
    assert out + [] == out;
  }

  function AllAudio(files: seq<TrackFile>, channels: nat): seq<byte>
    requires channels > 0
  {
    if files == [] then [] else files[0].AudioBytes(channels) + AllAudio(files[1..], channels)
  }

  /**
   * The extraction succeeds with `n` files whose audio, one after the other, is the
   * block-interleaved stream: zero-padded to whole groups if it is complete, and cut at the last
   * full group otherwise.
   */
  predicate HoldStream(e: Extraction, n: nat, stream: seq<byte>, channels: nat, complete: bool)
    requires channels > 0
  {
    && e.error == None && |e.files| == n
    && AllAudio(e.files, channels) == Audio(if complete then Padded(stream, channels) else stream, channels)
  }

  /** Tracks next to each other, all delivered, each a whole number of rows, none beyond the area. */
  predicate Run(jobs: seq<Job>, channels: nat, last: nat)
    requires channels > 0
  {
    forall i :: 0 <= i < |jobs| ==>
      && jobs[i].index == jobs[0].index + i
      && jobs[i].index <= last
      && jobs[i].delivered.Ok?
      && |Flatten(jobs[i].delivered.value)| % channels == 0
  }

  /** The state between two tracks of a run: the carry holds what is left over of `stream`. */
  predicate Holds(pending: Pending, index: nat, stream: seq<byte>, channels: nat)
    requires channels > 0
  {
    && |stream| % channels == 0
    && CarryIn(pending, index) == FinalCarry(stream, channels, true)
  }

  lemma {:induction false} RowsAddUp(a: nat, b: nat, channels: nat)
    requires channels > 0 && a % channels == 0 && b % channels == 0
    ensures (a + b) % channels == 0
  {
    DivMod(a, channels);
    DivMod(b, channels);
    assert (a / channels) * channels + (b / channels) * channels == (a / channels + b / channels) * channels;
    ModOfRow(a / channels + b / channels, channels, 0);
  }

  /** A track that starts from the carry continues the stream where the last file stopped. */
  lemma {:induction false} ContinueStream(stream: seq<byte>, more: seq<byte>, channels: nat, nopad: bool)
    requires channels > 0
    ensures Audio(stream, channels) + FinalAudio(Rest(stream, channels) + more, channels, nopad)
         == FinalAudio(stream + more, channels, nopad)
    ensures Rest(Rest(stream, channels) + more, channels) == Rest(stream + more, channels)
  {
    var a, b := Rest(stream, channels) + more, stream + more;
    AudioConcat(stream, more, channels);
    var rest := Rest(b, channels);
    if nopad || rest == [] {
      assert FinalAudio(a, channels, nopad) == Audio(a, channels);
    } else {
      var zeros := Zeros(4096 * channels - |rest|);
      assert FinalAudio(a, channels, nopad) == Audio(a + zeros, channels);
      assert FinalAudio(b, channels, nopad) == Audio(b + zeros, channels);
      AudioConcat(stream, more + zeros, channels);
      Assoc(stream, more, zeros);
      Assoc(Rest(stream, channels), more, zeros);
    }
  }

  /** Within a run the carry is usable, and is exactly what the previous file left out. */
  lemma {:induction false} CarriedIsRest(pending: Pending, index: nat, stream: seq<byte>, channels: nat)
    requires channels > 0 && Holds(pending, index, stream, channels)
    ensures var carry := CarryIn(pending, index);
            && (carry.Some? ==> Usable(carry.value, channels))
            && CarriedBytes(carry, channels) == Rest(stream, channels)
  {
    if CarryIn(pending, index).Some? {
      CarryTailsEqual(stream, channels);
      CarryRestores(stream, channels);
    }
  }

  lemma {:induction false} RunStep(pending: Pending, job: Job, stream: seq<byte>, channels: nat, nopad: bool)
    returns (file: TrackFile)
    requires channels > 0 && Holds(pending, job.index, stream, channels)
    requires job.delivered.Ok? && |Flatten(job.delivered.value)| % channels == 0
    ensures ExtractOne(channels, nopad, CarryIn(pending, job.index), job) == Ok(file)
    ensures var longer := stream + Reversed(Flatten(job.delivered.value));
            && Audio(stream, channels) + file.AudioBytes(channels) == FinalAudio(longer, channels, nopad)
            && (nopad ==> Holds(NextPending(channels, job.index, file), job.index + 1, longer, channels))
  {
    var more := Reversed(Flatten(job.delivered.value));
    CarriedIsRest(pending, job.index, stream, channels);
    ContinueStream(stream, more, channels, nopad);
    RowsAddUp(|stream|, |more|, channels);
    file := ExtractOne(channels, nopad, CarryIn(pending, job.index), job).value;
  }

  lemma {:induction false} RunFrom(channels: nat, last: nat, jobs: seq<Job>, pending: Pending, stream: seq<byte>)
    requires channels > 0 && jobs != [] && Run(jobs, channels, last)
    requires Holds(pending, jobs[0].index, stream, channels)
    ensures var e := Extract(channels, last, true, jobs, pending);
            && e.error == None && |e.files| == |jobs|
            && Audio(stream, channels) + AllAudio(e.files, channels)
               == FinalAudio(stream + Reversed(Delivered(jobs)), channels, jobs[|jobs| - 1].index < last)
    decreases |jobs|
  {
    var job := jobs[0];
    var nopad := job.index < last;
    var file := RunStep(pending, job, stream, channels, nopad);
    var more := Flatten(job.delivered.value);
    var longer := stream + Reversed(more);
    var next := NextPending(channels, job.index, file);
    var later := Extract(channels, last, true, jobs[1..], next);
    assert Extract(channels, last, true, jobs, pending).files == [file] + later.files;
    if |jobs| == 1 {
      assert AllAudio([file], channels) == file.AudioBytes(channels) + AllAudio([], channels);
      assert Delivered(jobs) == more + Delivered([]);
      assert file.AudioBytes(channels) + [] == file.AudioBytes(channels);
      assert more + [] == more;
    } else {
      assert jobs[1].index == job.index + 1;
      RunFrom(channels, last, jobs[1..], next, longer);
      assert ([file] + later.files)[1..] == later.files;
      Assoc(Audio(stream, channels), file.AudioBytes(channels), AllAudio(later.files, channels));
      ReversedConcat(more, Delivered(jobs[1..]));
      Assoc(stream, Reversed(more), Reversed(Delivered(jobs[1..])));
    }
  }

  /**
   * The files of a run of consecutive tracks hold, one after the other, the block-interleaved
   * concatenation of all decoded audio: zero-padded when the run ends with the area's last
   * track, and cut at the last full group otherwise.
   */
  lemma {:induction false} RunIsGapless(channels: nat, last: nat, jobs: seq<Job>, pending: Pending)
    requires channels > 0 && jobs != [] && Run(jobs, channels, last)
    requires CarryIn(pending, jobs[0].index) == None
    ensures HoldStream(Extract(channels, last, true, jobs, pending), |jobs|, Reversed(Delivered(jobs)),
                       channels, jobs[|jobs| - 1].index == last)
  {
    RunFrom(channels, last, jobs, pending, []);
    assert [] + Reversed(Delivered(jobs)) == Reversed(Delivered(jobs));
    assert Audio([], channels) == [] && Rest([], channels) == [];
    var e := Extract(channels, last, true, jobs, pending);
    assert [] + AllAudio(e.files, channels) == AllAudio(e.files, channels);
    assert jobs[|jobs| - 1].index <= last;
  }

  /** What such a cut leaves out: fewer than 4096 bytes at the end of each channel. */
  lemma {:induction false} MissingTail(stream: seq<byte>, channels: nat, ch: nat)
    requires channels > 0 && ch < channels && |stream| % channels == 0
    ensures Deinterleave(Audio(stream, channels), channels) + Rest(stream, channels) == stream
    ensures |Column(Rest(stream, channels), channels, ch)| < 4096
  {
    DeinterleaveAudio(stream, channels);
    if Rest(stream, channels) == [] {
      assert Column([], channels, ch) == [];
    } else {
      CarryTailsEqual(stream, channels);
      var tails := FinalCarry(stream, channels, true).value.channelTails;
      assert |tails[ch]| == |tails[0]| && tails[ch] == Column(Rest(stream, channels), channels, ch);
    }
  }

  /** The pending carry after a list of tracks. */
  function PendingAfter(channels: nat, last: nat, nopad: bool, jobs: seq<Job>, pending: Pending): Pending
    requires channels > 0
    decreases |jobs|
  {
    if jobs == [] then pending
    else
      var one := ExtractOne(channels, nopad && jobs[0].index < last, CarryIn(pending, jobs[0].index), jobs[0]);
      if one.Err? then None
      else PendingAfter(channels, last, nopad, jobs[1..], NextPending(channels, jobs[0].index, one.value))
  }

  /** Extraction goes on after a list of tracks from nothing but the pending carry. */
  lemma {:induction false} ExtractConcat(channels: nat, last: nat, nopad: bool, a: seq<Job>, b: seq<Job>,
                                         pending: Pending)
    requires channels > 0
    ensures var first := Extract(channels, last, nopad, a, pending);
            var second := Extract(channels, last, nopad, b, PendingAfter(channels, last, nopad, a, pending));
            Extract(channels, last, nopad, a + b, pending)
            == if first.error.Some? then first else Extraction(first.files + second.files, second.error)
    decreases |a|
  {
    if a == [] {
      assert a + b == b;
      var rest := Extract(channels, last, nopad, b, pending);
      assert [] + rest.files == rest.files;
    } else {
      assert (a + b)[1..] == a[1..] + b;
      var one := ExtractOne(channels, nopad && a[0].index < last, CarryIn(pending, a[0].index), a[0]);
      if one.Ok? {
        var next := NextPending(channels, a[0].index, one.value);
        ExtractConcat(channels, last, nopad, a[1..], b, next);
        var second := Extract(channels, last, nopad, b, PendingAfter(channels, last, nopad, a[1..], next));
        Assoc([one.value], Extract(channels, last, nopad, a[1..], next).files, second.files);
      }
    }
  }

  /** A pending carry always belongs to the last track extracted. */
  lemma {:induction false} PendingIsLatest(channels: nat, last: nat, nopad: bool, jobs: seq<Job>, pending: Pending)
    requires channels > 0 && jobs != []
    ensures var p := PendingAfter(channels, last, nopad, jobs, pending);
            p.Some? ==> p.value.0 == jobs[|jobs| - 1].index
    decreases |jobs|
  {
    var one := ExtractOne(channels, nopad && jobs[0].index < last, CarryIn(pending, jobs[0].index), jobs[0]);
    if one.Ok? && |jobs| > 1 {
      PendingIsLatest(channels, last, nopad, jobs[1..], NextPending(channels, jobs[0].index, one.value));
    }
  }

  /**
   * A carry never crosses a gap: after a gap in the selection, a run of consecutive tracks is
   * gapless in itself and contains nothing of the tracks before the gap.
   */
  lemma {:induction false} GapDropsCarry(channels: nat, last: nat, before: seq<Job>, jobs: seq<Job>)
    requires channels > 0 && jobs != [] && Run(jobs, channels, last)
    requires before != [] ==> before[|before| - 1].index + 1 != jobs[0].index
    requires Extract(channels, last, true, before, None).error == None
    ensures var first := Extract(channels, last, true, before, None);
            var all := Extract(channels, last, true, before + jobs, None);
            var stream := Reversed(Delivered(jobs));
            && all.error == None && first.files <= all.files && |all.files| == |first.files| + |jobs|
            && AllAudio(all.files[|first.files|..], channels)
               == Audio(if jobs[|jobs| - 1].index == last then Padded(stream, channels) else stream, channels)
  {
    var pending := PendingAfter(channels, last, true, before, None);
    if before != [] {
      PendingIsLatest(channels, last, true, before, None);
    }
    ExtractConcat(channels, last, true, before, jobs, None);
    RunIsGapless(channels, last, jobs, pending);
    TakeDrop(Extract(channels, last, true, before, None).files, Extract(channels, last, true, jobs, pending).files);
  }

  // ---------------------------------------------------------------- the bytes of the files

  /** The audio a player finds in the files, one after the other; None if one of them is unreadable. */
  function PlayAll(files: seq<seq<byte>>): Option<seq<byte>> {
    if files == [] then Some([])
    else
      var first, later := ReadDsf(files[0]), PlayAll(files[1..]);
      if first == None || later == None then None else Some(first.value.audio + later.value)
  }

  /** What the fields of a DSF file can express. */
  predicate Expressible(f: Format, files: seq<seq<byte>>) {
    && 0 < f.channels < 0x1_0000_0000 && f.sampleRate < 0x1_0000_0000
    && forall i :: 0 <= i < |files| ==> 8 * |files[i]| < 0x1_0000_0000_0000_0000
  }

  /** The writer got at least what was decoded for the track, and the track's own footer. */
  predicate Sound(file: TrackFile, footer: seq<byte>) { file.decoded <= |file.stream| && file.footer == footer }

  lemma {:induction false} ExtractIsSound(channels: nat, last: nat, nopad: bool, jobs: seq<Job>, pending: Pending)
    requires channels > 0
    ensures var e := Extract(channels, last, nopad, jobs, pending);
            && |e.files| <= |jobs|
            && forall i :: 0 <= i < |e.files| ==> Sound(e.files[i], jobs[i].footer)
    decreases |jobs|
  {
    if jobs != [] {
      var one := ExtractOne(channels, nopad && jobs[0].index < last, CarryIn(pending, jobs[0].index), jobs[0]);
      if one.Ok? {
        ExtractIsSound(channels, last, nopad, jobs[1..], NextPending(channels, jobs[0].index, one.value));
      }
    }
  }

  /** A reader finds the file's length, a header for the format, and the footer. */
  predicate ReadsAs(f: Format, file: seq<byte>, footer: seq<byte>) {
    var r := ReadDsf(file);
    && r.Some? && r.value.fileSize == |file| && r.value.metadata == footer
    && Describes(r.value.fmt, f.channels, f.sampleRate, r.value.fmt.sampleCount)
  }

  /** Each file reads, with its own footer. */
  predicate EachReadsAs(f: Format, files: seq<seq<byte>>, footers: seq<seq<byte>>) {
    |files| == |footers| && forall i :: 0 <= i < |files| ==> ReadsAs(f, files[i], footers[i])
  }

  function FootersOf(jobs: seq<Job>): (footers: seq<seq<byte>>)
    ensures |footers| == |jobs| && forall i :: 0 <= i < |jobs| ==> footers[i] == jobs[i].footer
  {
    seq(|jobs|, i requires 0 <= i < |jobs| => jobs[i].footer)
  }

  lemma {:induction false} FileReads(f: Format, file: TrackFile, footer: seq<byte>)
    requires f.channels > 0 && Expressible(f, [file.Contents(f)]) && Sound(file, footer)
    ensures ReadsAs(f, file.Contents(f), footer)
    ensures ReadDsf(file.Contents(f)).value.audio == file.AudioBytes(f.channels)
  {
    assert 8 * |[file.Contents(f)][0]| < 0x1_0000_0000_0000_0000;
    FinishedFileReads(f, file.stream, file.decoded, file.nopad, file.footer);
  }

  lemma {:induction false} FilesPlay(f: Format, files: seq<TrackFile>, footers: seq<seq<byte>>)
    requires f.channels > 0 && |footers| == |files| && Expressible(f, FileBytes(f, files))
    requires forall i :: 0 <= i < |files| ==> Sound(files[i], footers[i])
    ensures PlayAll(FileBytes(f, files)) == Some(AllAudio(files, f.channels))
    decreases |files|
  {
    if files != [] {
      assert FileBytes(f, files)[0] == files[0].Contents(f);
      FileReads(f, files[0], footers[0]);
      assert FileBytes(f, files)[1..] == FileBytes(f, files[1..]);
      FilesPlay(f, files[1..], footers[1..]);
    }
  }

  /** Every file reads, with its own footer, and together they play the stream. */
  predicate FilesPlayStream(f: Format, files: seq<seq<byte>>, jobs: seq<Job>, stream: seq<byte>, complete: bool)
    requires f.channels > 0
  {
    && |files| == |jobs|
    && PlayAll(files) == Some(Audio(if complete then Padded(stream, f.channels) else stream, f.channels))
    && EachReadsAs(f, files, FootersOf(jobs))
  }

  /** The files that are written for a list of tracks in nopad mode. */
  function NopadFiles(f: Format, last: nat, jobs: seq<Job>): seq<seq<byte>>
    requires f.channels > 0
  {
    FileBytes(f, Extract(f.channels, last, true, jobs, None).files)
  }

  /** The extraction succeeds, and its files, as a player reads them, hold the stream. */
  predicate Written(f: Format, last: nat, jobs: seq<Job>, stream: seq<byte>, complete: bool)
    requires f.channels > 0
  {
    && Extract(f.channels, last, true, jobs, None).error == None
    && (Expressible(f, NopadFiles(f, last, jobs)) ==>
          FilesPlayStream(f, NopadFiles(f, last, jobs), jobs, stream, complete))
  }

  lemma {:induction false} FilesRead(f: Format, tracks: seq<TrackFile>, jobs: seq<Job>, stream: seq<byte>,
                                     complete: bool)
    requires f.channels > 0 && |tracks| == |jobs| && Expressible(f, FileBytes(f, tracks))
    requires forall i :: 0 <= i < |tracks| ==> Sound(tracks[i], jobs[i].footer)
    requires AllAudio(tracks, f.channels)
          == Audio(if complete then Padded(stream, f.channels) else stream, f.channels)
    ensures FilesPlayStream(f, FileBytes(f, tracks), jobs, stream, complete)
  {
    var files := FileBytes(f, tracks);
    FilesPlay(f, tracks, FootersOf(jobs));
    forall i | 0 <= i < |jobs| ensures ReadsAs(f, files[i], jobs[i].footer) {
      FileReads(f, tracks[i], jobs[i].footer);
    }
  }

  /**
   * The same for the bytes of the files: a player that follows the chunk sizes of each file of a run
   * finds the track's footer, and file after file the one stream.
   */
  lemma {:induction false} RunIsWritten(f: Format, last: nat, jobs: seq<Job>, stream: seq<byte>, complete: bool)
    requires f.channels > 0 && jobs != [] && Run(jobs, f.channels, last)
    requires stream == Reversed(Delivered(jobs)) && (complete <==> jobs[|jobs| - 1].index == last)
    ensures Written(f, last, jobs, stream, complete)
  {
    RunIsGapless(f.channels, last, jobs, None);
    ExtractIsSound(f.channels, last, true, jobs, None);
    if Expressible(f, NopadFiles(f, last, jobs)) {
      FilesRead(f, Extract(f.channels, last, true, jobs, None).files, jobs, stream, complete);
    }
  }

  // ---------------------------------------------------------------- carries that do not fit, and uncounted samples

  /** One byte for two channels: the tails differ, and the next track refuses the carry. */
  lemma {:induction false} UnevenCarryExists() returns (jobs: seq<Job>)
    ensures |jobs| == 2 && jobs[0].index == 0 && jobs[1].index == 1
    ensures jobs[0].delivered.Ok? && |Flatten(jobs[0].delivered.value)| % 2 == 1 && jobs[1].delivered.Ok?
    ensures Extract(2, 1, true, jobs, None).error == Some(CarryMismatch)
  {
    var data: seq<byte> := [0];
    jobs := [Job(0, Ok([data]), []), Job(1, Ok([data]), [])];
    FlattenOne(data);
    var one := ExtractOne(2, true, None, jobs[0]);
    var stream := one.value.stream;
    assert stream == [] + Reversed(data);
    assert Rest(stream, 2) == stream;
    CarryTailsEqual(stream, 2);
    ExtractGoesOn(2, 1, true, jobs, jobs[1..], None, one.value);
    var pending := NextPending(2, 0, one.value);
    assert ExtractOne(2, false, CarryIn(pending, 1), jobs[1]) == Err(CarryMismatch);
    ExtractStops(2, 1, true, jobs[1..], pending, CarryMismatch);
  }

  lemma {:induction false} FlattenOne(data: seq<byte>)
    ensures Flatten([data]) == data
  {
    assert Flatten([data]) == data + Flatten([][..]);
  }

  /** Two tracks of one byte per channel: the second file holds two, and counts one. */
  lemma {:induction false} UncountedSamplesExist() returns (jobs: seq<Job>)
    ensures |jobs| == 2 && Run(jobs, 2, 1)
    ensures var e := Extract(2, 1, true, jobs, None);
            && e.error == None && |e.files| == 2
            && var file := e.files[1];
               && |file.stream| / 2 * 8 == 16
               && FinalFields(file.stream, file.decoded, 2, file.nopad, file.footer).sampleCount != 16
  {
    var data: seq<byte> := [0, 0];
    jobs := [Job(0, Ok([data]), []), Job(1, Ok([data]), [])];
    FlattenOne(data);
    var one := ExtractOne(2, true, None, jobs[0]).value;
    assert one.stream == [] + Reversed(data);
    assert Rest(one.stream, 2) == one.stream;
    CarryTailsEqual(one.stream, 2);
    CarryRestores(one.stream, 2);
    ExtractGoesOn(2, 1, true, jobs, jobs[1..], None, one);
    var pending := NextPending(2, 0, one);
    var two := ExtractOne(2, false, CarryIn(pending, 1), jobs[1]).value;
    ExtractGoesOn(2, 1, true, jobs[1..], jobs[2..], pending, two);
    assert two.stream == one.stream + Reversed(data);
    SampleCountExact(two.stream, 2, 2, 1, false, []);
  }
}
