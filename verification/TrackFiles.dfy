/** The files of a selection, in terms of track numbers and of what each track delivers. */
module TrackFiles {
  import opened Bytes
  import opened BitOrder
  import opened BlockInterleave
  import opened DsfFile
  import opened DsfWriterClass
  import opened TrackChain
  import opened Gapless

  /** The tracks `first`, `first + 1`, and so on. */
  function Numbers(first: nat, n: nat): (numbers: seq<nat>)
    ensures |numbers| == n && forall i :: 0 <= i < n ==> numbers[i] == first + i
  {
    seq(n, i => first + i)
  }

  function OwnAudio(d: Delivery): seq<byte> { if d.delivered.Ok? then Flatten(d.delivered.value) else [] }

  /** The audio of `n` tracks from number `first` on, end to end. */
  function AudioOfTracks(deliver: nat -> Delivery, first: nat, n: nat): seq<byte> {
    if n == 0 then [] else AudioOfTracks(deliver, first, n - 1) + OwnAudio(deliver(first + n - 1))
  }

  /** The track is delivered, with as many bytes for each channel. */
  predicate DeliversRows(d: Delivery, channels: nat)
    requires channels > 0
  {
    d.delivered.Ok? && |Flatten(d.delivered.value)| % channels == 0
  }

  predicate AllDeliverRows(deliver: nat -> Delivery, numbers: seq<nat>, channels: nat)
    requires channels > 0
  {
    forall i :: 0 <= i < |numbers| ==> DeliversRows(deliver(numbers[i]), channels)
  }

  function FootersFrom(deliver: nat -> Delivery, first: nat, n: nat): (footers: seq<seq<byte>>)
    ensures |footers| == n && forall i :: 0 <= i < n ==> footers[i] == deliver(first + i).footer
  {
    seq(n, i requires 0 <= i < n => deliver(first + i).footer)
  }

  /** The files, in order, play one stream, and have the footers of the tracks from number `first` on. */
  predicate PlayStream(f: Format, files: seq<seq<byte>>, deliver: nat -> Delivery, first: nat, n: nat,
                       stream: seq<byte>, complete: bool)
    requires f.channels > 0
  {
    && |files| == n
    && PlayAll(files) == Some(Audio(if complete then Padded(stream, f.channels) else stream, f.channels))
    && EachReadsAs(f, files, FootersFrom(deliver, first, n))
  }

  /** The stream is the audio of these tracks. */
  predicate PlayTracks(f: Format, files: seq<seq<byte>>, deliver: nat -> Delivery, first: nat, n: nat, complete: bool)
    requires f.channels > 0
  {
    PlayStream(f, files, deliver, first, n, Reversed(AudioOfTracks(deliver, first, n)), complete)
  }

  // ---------------------------------------------------------------- what is extracted for track numbers

  lemma {:induction false} JobsConcat(a: seq<nat>, b: seq<nat>, deliver: nat -> Delivery)
    ensures JobsFor(a + b, deliver) == JobsFor(a, deliver) + JobsFor(b, deliver)
  {
  }

  lemma {:induction false} DeliveredIsAudio(deliver: nat -> Delivery, first: nat, n: nat)
    ensures Delivered(JobsFor(Numbers(first, n), deliver)) == AudioOfTracks(deliver, first, n)
    decreases n
  {
    if n > 0 {
      DeliveredIsAudio(deliver, first, n - 1);
      var init := JobsFor(Numbers(first, n - 1), deliver);
      assert JobsFor(Numbers(first, n), deliver) == init + [JobFor(first + n - 1, deliver)];
      DeliveredSnoc(init, JobFor(first + n - 1, deliver));
    }
  }

  lemma {:induction false} NumbersRun(deliver: nat -> Delivery, first: nat, n: nat, trackCount: nat, channels: nat)
    requires channels > 0 && 1 <= first && 0 < n && first + n - 1 <= trackCount
    requires AllDeliverRows(deliver, Numbers(first, n), channels)
    ensures var jobs := JobsFor(Numbers(first, n), deliver);
            Run(jobs, channels, trackCount - 1) && jobs[0].index == first - 1 && jobs[n - 1].index == first + n - 2
  {
    var jobs := JobsFor(Numbers(first, n), deliver);
    forall i | 0 <= i < n
      ensures jobs[i].index == first - 1 + i && jobs[i].delivered.Ok?
      ensures |Flatten(jobs[i].delivered.value)| % channels == 0
    {
      assert DeliversRows(deliver(Numbers(first, n)[i]), channels);
    }
  }

  // ---------------------------------------------------------------- any selection

  /** The pending carry is what is left over of a stream of whole rows. */
  predicate LeftOver(pending: Pending, stream: seq<byte>, channels: nat)
    requires channels > 0
  {
    |stream| % channels == 0 && (pending.Some? ==> FinalCarry(stream, channels, true) == Some(pending.value.1))
  }

  lemma {:induction false} NextLeftOver(pending: Pending, job: Job, stream: seq<byte>, channels: nat, nopad: bool)
    returns (file: TrackFile, longer: seq<byte>)
    requires channels > 0 && LeftOver(pending, stream, channels)
    requires job.delivered.Ok? && |Flatten(job.delivered.value)| % channels == 0
    ensures ExtractOne(channels, nopad, CarryIn(pending, job.index), job) == Ok(file)
    ensures LeftOver(NextPending(channels, job.index, file), longer, channels)
  {
    var before := if CarryIn(pending, job.index) == None then [] else stream;
    ModOfRow(0, channels, 0);
    assert Rest([], channels) == [];
    file := RunStep(pending, job, before, channels, nopad);
    longer := if nopad then before + Reversed(Flatten(job.delivered.value)) else [];
    if nopad {
      assert Holds(NextPending(channels, job.index, file), job.index + 1, longer, channels);
    }
  }

  /** If every track delivers whole rows, no carry is ever refused. */
  lemma {:induction false} RowsSucceed(channels: nat, last: nat, nopad: bool, jobs: seq<Job>, pending: Pending,
                                       stream: seq<byte>)
    requires channels > 0 && LeftOver(pending, stream, channels)
    requires forall i :: 0 <= i < |jobs| ==>
               jobs[i].delivered.Ok? && |Flatten(jobs[i].delivered.value)| % channels == 0
    ensures var e := Extract(channels, last, nopad, jobs, pending);
            e.error == None && |e.files| == |jobs|
    decreases |jobs|
  {
    if jobs != [] {
      var file, longer := NextLeftOver(pending, jobs[0], stream, channels, nopad && jobs[0].index < last);
      RowsSucceed(channels, last, nopad, jobs[1..], NextPending(channels, jobs[0].index, file), longer);
    }
  }

  lemma {:induction false} SelectionSucceeds(channels: nat, last: nat, nopad: bool, numbers: seq<nat>,
                                             deliver: nat -> Delivery)
    requires channels > 0 && AllDeliverRows(deliver, numbers, channels)
    ensures var e := Extract(channels, last, nopad, JobsFor(numbers, deliver), None);
            e.error == None && |e.files| == |numbers|
  {
    var jobs := JobsFor(numbers, deliver);
    forall i | 0 <= i < |jobs| ensures jobs[i].delivered.Ok? && |Flatten(jobs[i].delivered.value)| % channels == 0 {
      assert DeliversRows(deliver(numbers[i]), channels);
    }
    ModOfRow(0, channels, 0);
    RowsSucceed(channels, last, nopad, jobs, None, []);
  }

  lemma {:induction false} NothingFits(before: seq<nat>, first: nat, deliver: nat -> Delivery, channels: nat,
                                       last: nat)
    requires channels > 0 && 1 <= first && forall i :: 0 <= i < |before| ==> 1 <= before[i]
    requires before != [] ==> before[|before| - 1] + 1 != first
    ensures CarryIn(PendingAfter(channels, last, true, JobsFor(before, deliver), None), first - 1) == None
  {
    if before != [] {
      PendingIsLatest(channels, last, true, JobsFor(before, deliver), None);
    }
  }

  /** The extraction of a list with a run in it: the files of the run come out in the middle. */
  lemma {:induction false} MiddleFiles(channels: nat, last: nat, a: seq<Job>, b: seq<Job>, c: seq<Job>)
    returns (run: Extraction, later: seq<TrackFile>)
    requires channels > 0 && Extract(channels, last, true, a, None).error == None
    requires Extract(channels, last, true, b, PendingAfter(channels, last, true, a, None)).error == None
    ensures run == Extract(channels, last, true, b, PendingAfter(channels, last, true, a, None))
    ensures Extract(channels, last, true, a + (b + c), None).files
         == Extract(channels, last, true, a, None).files + (run.files + later)
  {
    var pending := PendingAfter(channels, last, true, a, None);
    run := Extract(channels, last, true, b, pending);
    later := Extract(channels, last, true, c, PendingAfter(channels, last, true, b, pending)).files;
    ExtractConcat(channels, last, true, a, b + c, None);
    ExtractConcat(channels, last, true, b, c, pending);
  }

  lemma {:induction false} FileBytesOf(f: Format, a: seq<TrackFile>, b: seq<TrackFile>, c: seq<TrackFile>)
    requires f.channels > 0
    ensures FileBytes(f, a + (b + c))[|a|..|a| + |b|] == FileBytes(f, b)
  {
  }

  lemma {:induction false} PartExpressible(f: Format, files: seq<seq<byte>>, i: nat, n: nat)
    requires Expressible(f, files) && i + n <= |files|
    ensures Expressible(f, files[i..i + n])
  {
  }

  /** Tracks next to each other, wherever they stand in the list, with no track before `first` right before them. */
  lemma {:induction false} RunFiles(f: Format, trackCount: nat, before: seq<nat>, first: nat, n: nat, after: seq<nat>,
                                    deliver: nat -> Delivery)
    returns (tracks: seq<TrackFile>, earlier: seq<TrackFile>, later: seq<TrackFile>)
    requires f.channels > 0 && 1 <= first && 0 < n && first + n - 1 <= trackCount
    requires forall i :: 0 <= i < |before| ==> 1 <= before[i]
    requires before != [] ==> before[|before| - 1] + 1 != first
    requires AllDeliverRows(deliver, before, f.channels) && AllDeliverRows(deliver, Numbers(first, n), f.channels)
    ensures |earlier| == |before| && |tracks| == n
    ensures var jobs := JobsFor(before + (Numbers(first, n) + after), deliver);
            Extract(f.channels, trackCount - 1, true, jobs, None).files == earlier + (tracks + later)
    ensures Expressible(f, FileBytes(f, tracks)) ==>
              PlayTracks(f, FileBytes(f, tracks), deliver, first, n, first + n - 1 == trackCount)
  {
    var channels, last := f.channels, trackCount - 1;
    var a, b, c := JobsFor(before, deliver), JobsFor(Numbers(first, n), deliver), JobsFor(after, deliver);
    var pending := PendingAfter(channels, last, true, a, None);
    JobsConcat(Numbers(first, n), after, deliver);
    JobsConcat(before, Numbers(first, n) + after, deliver);
    SelectionSucceeds(channels, last, true, before, deliver);
    NothingFits(before, first, deliver, channels, last);
    NumbersRun(deliver, first, n, trackCount, channels);
    RunIsGapless(channels, last, b, pending);
    var run, rest := MiddleFiles(channels, last, a, b, c);
    earlier, tracks, later := Extract(channels, last, true, a, None).files, run.files, rest;
    DeliveredIsAudio(deliver, first, n);
    RunPlays(f, last, b, pending, run, Reversed(AudioOfTracks(deliver, first, n)), first + n - 1 == trackCount);
    if Expressible(f, FileBytes(f, tracks)) {
      StreamIsTracks(f, FileBytes(f, tracks), deliver, first, n, first + n - 1 == trackCount);
    }
  }

  lemma {:induction false} RunPlays(f: Format, last: nat, jobs: seq<Job>, pending: Pending, e: Extraction,
                                    stream: seq<byte>, complete: bool)
    requires f.channels > 0 && e == Extract(f.channels, last, true, jobs, pending)
    requires HoldStream(e, |jobs|, stream, f.channels, complete)
    ensures Expressible(f, FileBytes(f, e.files)) ==> FilesPlayStream(f, FileBytes(f, e.files), jobs, stream, complete)
  {
    ExtractIsSound(f.channels, last, true, jobs, pending);
    if Expressible(f, FileBytes(f, e.files)) {
      FilesRead(f, e.files, jobs, stream, complete);
    }
  }

  lemma {:induction false} StreamIsTracks(f: Format, files: seq<seq<byte>>, deliver: nat -> Delivery, first: nat,
                                          n: nat, complete: bool)
    requires f.channels > 0
    requires FilesPlayStream(f, files, JobsFor(Numbers(first, n), deliver),
                             Reversed(AudioOfTracks(deliver, first, n)), complete)
    ensures PlayTracks(f, files, deliver, first, n, complete)
  {
    assert FootersOf(JobsFor(Numbers(first, n), deliver)) == FootersFrom(deliver, first, n);
  }

  /** What is asked for: everything, or a list of track numbers. */
  predicate AsksFor(trackNumbers: seq<nat>, trackCount: nat, tracks: seq<nat>) {
    if trackNumbers == [] then tracks == Numbers(1, trackCount) else tracks == trackNumbers
  }

  lemma {:induction false} ChainOf(channels: nat, trackCount: nat, nopad: bool, trackNumbers: seq<nat>,
                                   tracks: seq<nat>, deliver: nat -> Delivery)
    requires channels > 0 && AsksFor(trackNumbers, trackCount, tracks)
    ensures Chain(channels, trackCount, nopad, trackNumbers, deliver)
         == Extract(channels, if trackCount > 0 then trackCount - 1 else 0, nopad, JobsFor(tracks, deliver), None)
  {
    assert TracksToExtract(trackNumbers, trackCount) == tracks;
  }

  /** So do `n` of the files, from position `at` on. */
  predicate PartPlays(f: Format, files: seq<seq<byte>>, at: nat, deliver: nat -> Delivery, first: nat, n: nat,
                      complete: bool)
    requires f.channels > 0
  {
    && at + n <= |files|
    && (Expressible(f, files) ==> PlayTracks(f, files[at..at + n], deliver, first, n, complete))
  }

  /** `tracks` lie behind `earlier` in the list; what their files do they do as a part of all files. */
  lemma {:induction false} MiddlePlays(f: Format, earlier: seq<TrackFile>, tracks: seq<TrackFile>,
                                       later: seq<TrackFile>, deliver: nat -> Delivery, first: nat, complete: bool)
    requires f.channels > 0
    requires Expressible(f, FileBytes(f, tracks)) ==>
               PlayTracks(f, FileBytes(f, tracks), deliver, first, |tracks|, complete)
    ensures PartPlays(f, FileBytes(f, earlier + (tracks + later)), |earlier|, deliver, first, |tracks|, complete)
  {
    var files := FileBytes(f, earlier + (tracks + later));
    FileBytesOf(f, earlier, tracks, later);
    if Expressible(f, files) {
      PartExpressible(f, files, |earlier|, |tracks|);
    }
  }

  /**
   * Nopad mode, any selection: wherever the tracks `first` to `first + n - 1` stand in it, with no track
   * right before them, their files play their audio as one uninterrupted stream with nothing of the
   * tracks before, padded exactly if they end the area; each file has its own track's footer.
   */
  lemma {:induction false} RunInSelectionPlays(f: Format, trackCount: nat, trackNumbers: seq<nat>, before: seq<nat>,
                                               first: nat, n: nat, after: seq<nat>, deliver: nat -> Delivery)
    requires f.channels > 0 && 1 <= first && 0 < n && first + n - 1 <= trackCount
    requires AsksFor(trackNumbers, trackCount, before + (Numbers(first, n) + after))
    requires forall i :: 0 <= i < |before| ==> 1 <= before[i]
    requires before != [] ==> before[|before| - 1] + 1 != first
    requires AllDeliverRows(deliver, before, f.channels) && AllDeliverRows(deliver, Numbers(first, n), f.channels)
    ensures PartPlays(f, FileBytes(f, Chain(f.channels, trackCount, true, trackNumbers, deliver).files), |before|,
                      deliver, first, n, first + n - 1 == trackCount)
  {
    ChainOf(f.channels, trackCount, true, trackNumbers, before + (Numbers(first, n) + after), deliver);
    var tracks, earlier, later := RunFiles(f, trackCount, before, first, n, after, deliver);
    MiddlePlays(f, earlier, tracks, later, deliver, first, first + n - 1 == trackCount);
  }

  lemma {:induction false} NoOthers<T>(s: seq<T>)
    ensures [] + (s + []) == s
  {
  }

  lemma {:induction false} ChainSucceeds(channels: nat, trackCount: nat, nopad: bool, trackNumbers: seq<nat>,
                                         tracks: seq<nat>, deliver: nat -> Delivery)
    requires channels > 0 && AsksFor(trackNumbers, trackCount, tracks) && AllDeliverRows(deliver, tracks, channels)
    ensures var e := Chain(channels, trackCount, nopad, trackNumbers, deliver);
            e.error == None && |e.files| == |tracks|
  {
    ChainOf(channels, trackCount, nopad, trackNumbers, tracks, deliver);
    SelectionSucceeds(channels, if trackCount > 0 then trackCount - 1 else 0, nopad, tracks, deliver);
  }

  /** All tracks, or consecutive ones: the extraction succeeds, and its files play them as one stream. */
  lemma {:induction false} ConsecutiveTracksPlay(f: Format, trackCount: nat, trackNumbers: seq<nat>, first: nat,
                                                 n: nat, deliver: nat -> Delivery)
    requires f.channels > 0 && 1 <= first && 0 < n && first + n - 1 <= trackCount
    requires AsksFor(trackNumbers, trackCount, Numbers(first, n))
    requires AllDeliverRows(deliver, Numbers(first, n), f.channels)
    ensures var e := Chain(f.channels, trackCount, true, trackNumbers, deliver);
            && e.error == None
            && (Expressible(f, FileBytes(f, e.files)) ==>
                  PlayTracks(f, FileBytes(f, e.files), deliver, first, n, first + n - 1 == trackCount))
  {
    NoOthers(Numbers(first, n));
    RunInSelectionPlays(f, trackCount, trackNumbers, [], first, n, [], deliver);
    ChainSucceeds(f.channels, trackCount, true, trackNumbers, Numbers(first, n), deliver);
    WholePlays(f, FileBytes(f, Chain(f.channels, trackCount, true, trackNumbers, deliver).files), deliver, first,
               first + n - 1 == trackCount);
  }

  lemma {:induction false} WholePlays(f: Format, files: seq<seq<byte>>, deliver: nat -> Delivery, first: nat,
                                      complete: bool)
    requires f.channels > 0 && PartPlays(f, files, 0, deliver, first, |files|, complete)
    ensures Expressible(f, files) ==> PlayTracks(f, files, deliver, first, |files|, complete)
  {
    assert files[0..|files|] == files;
  }

  /** The tracks `first` to `first + n - 1` are extracted in nopad mode, and their files play the stream. */
  predicate TracksWritten(f: Format, trackCount: nat, trackNumbers: seq<nat>, deliver: nat -> Delivery, first: nat,
                          n: nat, stream: seq<byte>)
    requires f.channels > 0
  {
    var e := Chain(f.channels, trackCount, true, trackNumbers, deliver);
    && e.error == None
    && (Expressible(f, FileBytes(f, e.files)) ==>
          PlayStream(f, FileBytes(f, e.files), deliver, first, n, stream, first + n - 1 == trackCount))
  }

  lemma {:induction false} StreamWritten(f: Format, trackCount: nat, trackNumbers: seq<nat>, deliver: nat -> Delivery,
                                         first: nat, n: nat, stream: seq<byte>)
    requires f.channels > 0 && 1 <= first && 0 < n && first + n - 1 <= trackCount
    requires AsksFor(trackNumbers, trackCount, Numbers(first, n))
    requires AllDeliverRows(deliver, Numbers(first, n), f.channels)
    requires stream == Reversed(AudioOfTracks(deliver, first, n))
    ensures TracksWritten(f, trackCount, trackNumbers, deliver, first, n, stream)
  {
    ConsecutiveTracksPlay(f, trackCount, trackNumbers, first, n, deliver);
  }

  // ---------------------------------------------------------------- without nopad

  /** The file of one track: it plays the track, padded, and has its footer. */
  predicate PlaysAlone(f: Format, file: seq<byte>, d: Delivery)
    requires f.channels > 0
  {
    && d.delivered.Ok?
    && (Expressible(f, [file]) ==>
          && ReadsAs(f, file, d.footer)
          && ReadDsf(file).value.audio
             == Audio(Padded(Reversed(Flatten(d.delivered.value)), f.channels), f.channels))
  }

  lemma {:induction false} OnePaddedTrack(f: Format, job: Job)
    returns (file: TrackFile)
    requires f.channels > 0 && job.delivered.Ok?
    ensures ExtractOne(f.channels, false, None, job) == Ok(file)
    ensures NextPending(f.channels, job.index, file) == None
    ensures PlaysAlone(f, file.Contents(f), Delivery(job.delivered, job.footer))
  {
    file := ExtractOne(f.channels, false, None, job).value;
    assert [] + Reversed(Flatten(job.delivered.value)) == Reversed(Flatten(job.delivered.value));
    if Expressible(f, [file.Contents(f)]) {
      FileReads(f, file, job.footer);
    }
  }

  /** The tracks up to the first failure. */
  predicate PaddedFiles(f: Format, e: Extraction, jobs: seq<Job>)
    requires f.channels > 0
  {
    && |e.files| <= |jobs|
    && (forall i :: 0 <= i < |e.files| ==>
          PlaysAlone(f, e.files[i].Contents(f), Delivery(jobs[i].delivered, jobs[i].footer)))
    && if e.error == None then |e.files| == |jobs|
       else |e.files| < |jobs| && jobs[|e.files|].delivered == Err(e.error.value)
  }

  lemma {:induction false} PaddedExtraction(f: Format, last: nat, jobs: seq<Job>)
    requires f.channels > 0
    ensures PaddedFiles(f, Extract(f.channels, last, false, jobs, None), jobs)
    decreases |jobs|
  {
    if jobs != [] && jobs[0].delivered.Ok? {
      var file := OnePaddedTrack(f, jobs[0]);
      ExtractGoesOn(f.channels, last, false, jobs, jobs[1..], None, file);
      PaddedExtraction(f, last, jobs[1..]);
      MorePadded(f, Extract(f.channels, last, false, jobs[1..], None), jobs, file);
    }
  }

  lemma {:induction false} MorePadded(f: Format, rest: Extraction, jobs: seq<Job>, file: TrackFile)
    requires f.channels > 0 && jobs != [] && PaddedFiles(f, rest, jobs[1..])
    requires PlaysAlone(f, file.Contents(f), Delivery(jobs[0].delivered, jobs[0].footer))
    ensures PaddedFiles(f, Extraction([file] + rest.files, rest.error), jobs)
  {
    var all := [file] + rest.files;
    forall i | 0 <= i < |all|
      ensures PlaysAlone(f, all[i].Contents(f), Delivery(jobs[i].delivered, jobs[i].footer))
    {
      if i > 0 {
        assert all[i] == rest.files[i - 1] && jobs[1..][i - 1] == jobs[i];
      }
    }
  }

  /** Without nopad, any selection: each file plays its own track alone, padded, up to the first track that fails. */
  lemma {:induction false} PaddedTracksPlay(f: Format, trackCount: nat, trackNumbers: seq<nat>, tracks: seq<nat>,
                                            deliver: nat -> Delivery)
    requires f.channels > 0 && AsksFor(trackNumbers, trackCount, tracks)
    ensures var e := Chain(f.channels, trackCount, false, trackNumbers, deliver);
            var files := FileBytes(f, e.files);
            && |files| <= |tracks|
            && (forall i :: 0 <= i < |files| ==> PlaysAlone(f, files[i], deliver(tracks[i])))
            && if e.error == None then |files| == |tracks|
               else |files| < |tracks| && deliver(tracks[|files|]).delivered == Err(e.error.value)
  {
    ChainOf(f.channels, trackCount, false, trackNumbers, tracks, deliver);
    var jobs := JobsFor(tracks, deliver);
    PaddedExtraction(f, if trackCount > 0 then trackCount - 1 else 0, jobs);
    var e := Chain(f.channels, trackCount, false, trackNumbers, deliver);
    forall i | 0 <= i < |e.files| ensures PlaysAlone(f, FileBytes(f, e.files)[i], deliver(tracks[i])) {
      assert deliver(tracks[i]) == Delivery(jobs[i].delivered, jobs[i].footer);
    }
  }
}
