/** Extracting a list of tracks: the carry that one track's file hands to the next. */
module TrackChain {
  import opened Bytes
  import opened BitOrder
  import opened BlockInterleave
  import opened DsfFile
  import opened DsfWriterClass
  import opened DsfTheorems

  datatype ExtractError = PipelineFailed | CarryMismatch

  /** One selected track: its index in the area, what the pipeline delivered, and its ID3 footer. */
  datatype Job = Job(index: nat, delivered: Result<seq<seq<byte>>, ExtractError>, footer: seq<byte>)

  /** A finished file, by the stream it was made from. */
  datatype TrackFile = TrackFile(stream: seq<byte>, decoded: nat, nopad: bool, footer: seq<byte>) {
    function Contents(f: Format): seq<byte>
      requires f.channels > 0
    {
      FinalFile(f, stream, decoded, nopad, footer)
    }

    function AudioBytes(channels: nat): seq<byte>
      requires channels > 0
    {
      FinalAudio(stream, channels, nopad)
    }
  }

  /** What `pre_load_carry` asserts, in debug builds, about the carry it is given. */
  predicate Usable(carry: NopadCarry, channels: nat)
    requires channels > 0
  {
    && |carry.channelTails| == channels
    && Equal(carry.channelTails, |carry.channelTails[0]|)
    && |carry.channelTails[0]| < 4096
  }

  type Pending = Option<(nat, NopadCarry)>

  function CarryIn(pending: Pending, index: nat): Option<NopadCarry> {
    if pending.Some? && pending.value.0 + 1 == index then Some(pending.value.1) else None
  }

  function CarriedBytes(carry: Option<NopadCarry>, channels: nat): seq<byte>
    requires channels > 0 && (carry.Some? ==> Usable(carry.value, channels))
  {
    if carry == None then [] else Weave(carry.value.channelTails, |carry.value.channelTails[0]|)
  }

  /** One track; fails when the pipeline did, or when the carry does not fit. */
  function ExtractOne(channels: nat, nopad: bool, carry: Option<NopadCarry>, job: Job): Result<TrackFile, ExtractError>
    requires channels > 0
  {
    if carry.Some? && !Usable(carry.value, channels) then Err(CarryMismatch)
    else if job.delivered.Err? then Err(job.delivered.error)
    else
      var decoded := Flatten(job.delivered.value);
      Ok(TrackFile(CarriedBytes(carry, channels) + Reversed(decoded), |decoded|, nopad, job.footer))
  }

  function NextPending(channels: nat, index: nat, file: TrackFile): Pending
    requires channels > 0
  {
    var carry := FinalCarry(file.stream, channels, file.nopad);
    if carry == None then None else Some((index, carry.value))
  }

  datatype Extraction = Extraction(files: seq<TrackFile>, error: Option<ExtractError>)

  /** All tracks in order, up to the first failure. `last` is the index of the area's last track. */
  function Extract(channels: nat, last: nat, nopad: bool, jobs: seq<Job>, pending: Pending): Extraction
    requires channels > 0
    decreases |jobs|
  {
    if jobs == [] then Extraction([], None)
    else
      var job := jobs[0];
      var one := ExtractOne(channels, nopad && job.index < last, CarryIn(pending, job.index), job);
      match one
      case Err(e) => Extraction([], Some(e))
      case Ok(file) =>
        var rest := Extract(channels, last, nopad, jobs[1..], NextPending(channels, job.index, file));
        Extraction([file] + rest.files, rest.error)
  }

  function FileBytes(f: Format, files: seq<TrackFile>): (r: seq<seq<byte>>)
    requires f.channels > 0
    ensures |r| == |files| && forall i :: 0 <= i < |files| ==> r[i] == files[i].Contents(f)
  {
    seq(|files|, i requires 0 <= i < |files| => files[i].Contents(f))
  }

  lemma {:induction false} ExtractGoesOn(channels: nat, last: nat, nopad: bool, jobs: seq<Job>, later: seq<Job>,
                                         pending: Pending,
                      file: TrackFile)
    requires channels > 0 && jobs != [] && later == jobs[1..]
    requires ExtractOne(channels, nopad && jobs[0].index < last, CarryIn(pending, jobs[0].index), jobs[0]) == Ok(file)
    ensures var rest := Extract(channels, last, nopad, later, NextPending(channels, jobs[0].index, file));
            Extract(channels, last, nopad, jobs, pending) == Extraction([file] + rest.files, rest.error)
  {
  }

  lemma {:induction false} ExtractStops(channels: nat, last: nat, nopad: bool, jobs: seq<Job>, pending: Pending,
                                        e: ExtractError)
    requires channels > 0 && jobs != []
    requires ExtractOne(channels, nopad && jobs[0].index < last, CarryIn(pending, jobs[0].index), jobs[0]) == Err(e)
    ensures Extract(channels, last, nopad, jobs, pending) == Extraction([], Some(e))
  {
  }

  // ---------------------------------------------------------------- the code

  lemma {:induction false} FramesSnoc(carried: seq<byte>, frames: seq<seq<byte>>, i: nat)
    requires i < |frames|
    ensures carried + Reversed(Flatten(frames[..i])) + Reversed(frames[i])
         == carried + Reversed(Flatten(frames[..i + 1]))
    ensures |Flatten(frames[..i + 1])| == |Flatten(frames[..i])| + |frames[i]|
  {
    assert frames[..i + 1] == frames[..i] + [frames[i]];
    FlattenSnoc(frames[..i], frames[i]);
    ReversedConcat(Flatten(frames[..i]), frames[i]);
    Assoc(carried, Reversed(Flatten(frames[..i])), Reversed(frames[i]));
  }

  /** The writer thread's loop. */
  method WriteFrames(writer: DsfWriter, frames: seq<seq<byte>>, ghost carried: seq<byte>)
    requires writer.Valid() && writer.stream == carried && writer.decodedBytesTotal == 0
    modifies writer
    ensures writer.Valid() && writer.nopad == old(writer.nopad) && writer.id3Footer == old(writer.id3Footer)
    ensures writer.stream == carried + Reversed(Flatten(frames)) && writer.decodedBytesTotal == |Flatten(frames)|
  {
    assert Flatten<byte>([]) == [] && Reversed([]) == [] && carried + [] == carried;
    for i := 0 to |frames|
      invariant writer.Valid() && writer.nopad == old(writer.nopad) && writer.id3Footer == old(writer.id3Footer)
      invariant writer.stream == carried + Reversed(Flatten(frames[..i]))
      invariant writer.decodedBytesTotal == |Flatten(frames[..i])|
    {
      writer.WriteSamples(frames[i]);
      FramesSnoc(carried, frames, i);
    }
    assert frames[..|frames|] == frames;
  }

  /** Writes one track's frames through a fresh writer and finishes its file. */
  method WriteTrack(f: Format, estimatedSamples: nat, nopad: bool, carryIn: Option<NopadCarry>,
                    frames: seq<seq<byte>>, footer: seq<byte>)
    returns (file: seq<byte>, carryOut: Option<NopadCarry>)
    requires f.channels > 0 && (carryIn.Some? ==> Usable(carryIn.value, f.channels))
    ensures var stream := CarriedBytes(carryIn, f.channels) + Reversed(Flatten(frames));
            && file == FinalFile(f, stream, |Flatten(frames)|, nopad, footer)
            && carryOut == FinalCarry(stream, f.channels, nopad)
  {
    var writer := new DsfWriter(f, estimatedSamples);
    if nopad {
      writer.SetNopad(true);
    }
    if carryIn.Some? {
      writer.PreLoadCarry(carryIn.value);
    }
    writer.SetId3Footer(footer);
    ghost var carried := CarriedBytes(carryIn, f.channels);
    WriteFrames(writer, frames, carried);
    carryOut := writer.Finalize();
    file := writer.file;
  }

  /** One track, from what its pipeline delivers to its file and the carry for the next. */
  method ExtractTrack(f: Format, estimatedSamples: nat, nopad: bool, carryIn: Option<NopadCarry>, job: Job)
    returns (r: Result<(seq<byte>, Option<NopadCarry>), ExtractError>)
    requires f.channels > 0
    ensures match ExtractOne(f.channels, nopad, carryIn, job)
            case Err(e) => r == Err(e)
            case Ok(track) => r == Ok((track.Contents(f), FinalCarry(track.stream, f.channels, track.nopad)))
    // the writer is given the carry before the pipeline starts
    ensures carryIn.Some? && !Usable(carryIn.value, f.channels) ==> r == Err(CarryMismatch)
  {
    if carryIn.Some? && !Usable(carryIn.value, f.channels) {
      return Err(CarryMismatch);
    }
    if job.delivered.Err? {
      return Err(job.delivered.error);
    }
    var file, carryOut := WriteTrack(f, estimatedSamples, nopad, carryIn, job.delivered.value, job.footer);
    return Ok((file, carryOut));
  }

  lemma {:induction false} FileBytesSnoc(f: Format, files: seq<TrackFile>, last: TrackFile)
    requires f.channels > 0
    ensures FileBytes(f, files + [last]) == FileBytes(f, files) + [last.Contents(f)]
  {
  }

  /** What the pipeline of a track, by its number, delivers, and the track's ID3 footer. */
  datatype Delivery = Delivery(delivered: Result<seq<seq<byte>>, ExtractError>, footer: seq<byte>)

  /** An empty selection stands for all tracks of the area. */
  function TracksToExtract(trackNumbers: seq<nat>, trackCount: nat): (tracks: seq<nat>)
    ensures trackNumbers == [] ==> |tracks| == trackCount && forall i :: 0 <= i < trackCount ==> tracks[i] == i + 1
    ensures trackNumbers != [] ==> tracks == trackNumbers
  {
    if trackNumbers == [] then seq(trackCount, i => i + 1) else trackNumbers
  }

  /** Number minus one, as a 64-bit index. */
  function TrackIndex(track: nat): nat { if track > 0 then track - 1 else 0xFFFF_FFFF_FFFF_FFFF }

  function JobFor(track: nat, deliver: nat -> Delivery): Job {
    Job(TrackIndex(track), deliver(track).delivered, deliver(track).footer)
  }

  function JobsFor(tracks: seq<nat>, deliver: nat -> Delivery): (jobs: seq<Job>)
    ensures |jobs| == |tracks| && forall i :: 0 <= i < |tracks| ==> jobs[i] == JobFor(tracks[i], deliver)
  {
    seq(|tracks|, i requires 0 <= i < |tracks| => JobFor(tracks[i], deliver))
  }

  /** The extraction of the selected tracks, from what each delivers. */
  function Chain(channels: nat, trackCount: nat, nopad: bool, trackNumbers: seq<nat>,
                 deliver: nat -> Delivery): Extraction
    requires channels > 0
  {
    Extract(channels, if trackCount > 0 then trackCount - 1 else 0, nopad,
            JobsFor(TracksToExtract(trackNumbers, trackCount), deliver), None)
  }

  /** Extracts the selected tracks in order; `estimate` only fills a field that is patched later. */
  method ExtractTracks(f: Format, trackCount: nat, nopad: bool, trackNumbers: seq<nat>, deliver: nat -> Delivery,
                       estimate: nat -> nat)
    returns (files: seq<seq<byte>>, error: Option<ExtractError>)
    requires f.channels > 0
    ensures var spec := Chain(f.channels, trackCount, nopad, trackNumbers, deliver);
            files == FileBytes(f, spec.files) && error == spec.error
  {
    var tracks := TracksToExtract(trackNumbers, trackCount);
    var pendingCarry: Pending := None;
    var lastTrackIdx := if trackCount > 0 then trackCount - 1 else 0;
    ghost var jobs := JobsFor(tracks, deliver);
    ghost var spec := Chain(f.channels, trackCount, nopad, trackNumbers, deliver);
    ghost var done: seq<TrackFile> := [];
    files := [];
    for i := 0 to |tracks|
      invariant files == FileBytes(f, done)
      invariant var rest := Extract(f.channels, lastTrackIdx, nopad, jobs[i..], pendingCarry);
                spec.files == done + rest.files && spec.error == rest.error
    {
      var job := JobFor(tracks[i], deliver);
      var applyNopad := nopad && job.index < lastTrackIdx;
      var carryIn := CarryIn(pendingCarry, job.index);
      assert jobs[i..][0] == job && jobs[i..][1..] == jobs[i + 1..];
      ghost var one := ExtractOne(f.channels, applyNopad, carryIn, job);
      var r := ExtractTrack(f, estimate(tracks[i]), applyNopad, carryIn, job);
      if r.Err? {
        ExtractStops(f.channels, lastTrackIdx, nopad, jobs[i..], pendingCarry, r.error);
        return files, Some(r.error);
      }
      var (file, carryOut) := r.value;
      ExtractGoesOn(f.channels, lastTrackIdx, nopad, jobs[i..], jobs[i + 1..], pendingCarry, one.value);
      FileBytesSnoc(f, done, one.value);
      files := files + [file];
      pendingCarry := if carryOut.Some? then Some((job.index, carryOut.value)) else None;
      Assoc(done, [one.value], Extract(f.channels, lastTrackIdx, nopad, jobs[i + 1..], pendingCarry).files);
      done := done + [one.value];
    }
    error := None;
  }
}
