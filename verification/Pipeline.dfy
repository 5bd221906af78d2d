/**
 * The three-stage extraction pipeline as a transition system. A producer parses sectors into raw
 * frames, a decoder batches and decodes them, a writer hands the decoded frames to the DSF
 * writer; two bounded channels connect them. A stage that ends, for whatever reason, drops its
 * channel ends, and that is all the others ever learn of it.
 */
module Pipeline {
  import opened Bytes

  const CHANNEL_CAPACITY: nat := 16384
  const DECODED_QUEUE_DEPTH: nat := 4
  const BATCH_SIZE: nat := 256
  const BATCH_SECTORS: nat := 256

  type Raw = seq<byte>
  type Audio = seq<byte>

  datatype StageError = StageError

  /** A parser step: the next parser state and, unless the sector is bad, the frames it completes. */
  datatype Parsed<P> = Parsed(parser: P, frames: Result<seq<Raw>, StageError>)

  /**
   * What is fixed for a track: the sector range, the contents of the disc, the parser, and the
   * frame decoder. The decoder is any function of the raw frame.
   */
  datatype Setup<!P> = Setup(
    start: nat,
    end: nat,
    disc: nat -> seq<byte>,
    initial: P,
    parse: (P, seq<byte>) -> Parsed<P>,
    flush: P -> Option<Raw>,
    decode: Raw -> Result<Audio, StageError>)
  {
    /** The number of sectors to read. */
    function Sectors(): nat { if start < end then end - start else 0 }
  }

  // ---------------------------------------------------------------- the sequential meaning

  /** The parser after the first `n` sectors. */
  function ParserAt<P>(c: Setup<P>, n: nat): P {
    if n == 0 then c.initial else c.parse(ParserAt(c, n - 1), c.disc(c.start + n - 1)).parser
  }

  /** What the parser makes of sector number `n`. */
  function SectorFrames<P>(c: Setup<P>, n: nat): Result<seq<Raw>, StageError> {
    c.parse(ParserAt(c, n), c.disc(c.start + n)).frames
  }

  /** The frames of the first `n` sectors; a bad sector has none. */
  function FramesAt<P>(c: Setup<P>, n: nat): seq<Raw> {
    if n == 0 then []
    else
      var last := SectorFrames(c, n - 1);
      FramesAt(c, n - 1) + if last.Ok? then last.value else []
  }

  predicate Parses<P>(c: Setup<P>, n: nat) {
    forall i :: 0 <= i < n ==> SectorFrames(c, i).Ok?
  }

  function Flushed<P>(c: Setup<P>, n: nat): seq<Raw> {
    var last := c.flush(ParserAt(c, n));
    if last.Some? then [last.value] else []
  }

  /** Every frame of the track, the one `flush` yields included. */
  function AllFrames<P>(c: Setup<P>): seq<Raw> {
    FramesAt(c, c.Sectors()) + Flushed(c, c.Sectors())
  }

  function Decoded<P>(c: Setup<P>, frames: seq<Raw>): (r: seq<Result<Audio, StageError>>)
    ensures |r| == |frames|
  {
    seq(|frames|, i requires 0 <= i < |frames| => c.decode(frames[i]))
  }

  function Oks(audio: seq<Audio>): (r: seq<Result<Audio, StageError>>)
    ensures |r| == |audio|
  {
    seq(|audio|, i requires 0 <= i < |audio| => Ok(audio[i]))
  }

  // ---------------------------------------------------------------- states

  datatype ProducerPhase =
    | Reading
    | Parsing(left: nat)
    | Sending(frame: Raw, more: seq<Raw>, left: nat)
    | Flushing
    | SendingLast(frame: Raw)
    | ProducerDone(ok: bool)

  /**
   * `left` counts the sectors of the chunk that come after the current one, `more` the frames of
   * the sector. `broke` is set when a send fails because the receiver is gone; `sent` is history.
   */
  datatype Producer<P> = Producer(phase: ProducerPhase, parsed: nat, parser: P, broke: bool, sent: seq<Raw>)

  datatype DecoderPhase =
    | Starting
    | Receiving
    | Processing(last: bool)
    | Forwarding(decoded: seq<Audio>, last: bool)
    | DecoderDone(ok: bool)

  /** `sizes` is the history of forwarded batches. */
  datatype Decoder = Decoder(phase: DecoderPhase, batch: seq<Raw>, sizes: seq<nat>)

  datatype WriterPhase =
    | Waiting
    | Writing(frames: seq<Audio>)
    | WriterDone(ok: bool)

  datatype Writer = Writer(phase: WriterPhase, written: seq<Audio>)

  /** `faults` records that a read, a write or the creation of the thread pool has failed. */
  datatype State<P> = State(
    producer: Producer<P>,
    rawQueue: seq<Raw>,
    decoder: Decoder,
    decodedQueue: seq<seq<Audio>>,
    writer: Writer,
    faults: bool)

  function Initial<P>(c: Setup<P>): State<P> {
    State(Producer(Reading, 0, c.initial, false, []), [], Decoder(Starting, [], []), [], Writer(Waiting, []), false)
  }

  // ---------------------------------------------------------------- steps

  /** Where the producer goes on after a frame, with `more` of this sector and `left` sectors to do. */
  function GoOn(more: seq<Raw>, left: nat): ProducerPhase {
    if more != [] then Sending(more[0], more[1..], left)
    else if left > 0 then Parsing(left - 1)
    else Reading
  }

  /** One step of the producer, or None if it is blocked or has ended. `fault`: the read fails. */
  function ProducerNext<P>(c: Setup<P>, s: State<P>, fault: bool): Option<State<P>> {
    var p := s.producer;
    match p.phase
    case Reading =>
      if p.parsed >= c.Sectors() then
        Some(s.(producer := p.(phase := Flushing)))
      else if fault then
        Some(s.(producer := p.(phase := ProducerDone(false)), faults := true))
      else
        var unread := c.Sectors() - p.parsed;
        var want := if unread < BATCH_SECTORS then unread else BATCH_SECTORS;
        Some(s.(producer := p.(phase := Parsing(want - 1))))
    case Parsing(left) =>
      var r := c.parse(p.parser, c.disc(c.start + p.parsed));
      if r.frames.Err? then
        Some(s.(producer := p.(phase := ProducerDone(false))))
      else
        Some(s.(producer := p.(phase := GoOn(r.frames.value, left), parsed := p.parsed + 1, parser := r.parser)))
    case Sending(frame, more, left) =>
      if s.decoder.phase.DecoderDone? then
        Some(s.(producer := p.(phase := Flushing, broke := true)))
      else if |s.rawQueue| < CHANNEL_CAPACITY then
        Some(s.(producer := p.(phase := GoOn(more, left), sent := p.sent + [frame]), rawQueue := s.rawQueue + [frame]))
      else
        None
    case Flushing =>
      var last := c.flush(p.parser);
      Some(s.(producer := p.(phase := if last.Some? then SendingLast(last.value) else ProducerDone(true))))
    case SendingLast(frame) =>
      if s.decoder.phase.DecoderDone? then
        Some(s.(producer := p.(phase := ProducerDone(true), broke := true)))
      else if |s.rawQueue| < CHANNEL_CAPACITY then
        Some(s.(producer := p.(phase := ProducerDone(true), sent := p.sent + [frame]),
                rawQueue := s.rawQueue + [frame]))
      else
        None
    case ProducerDone(_) => None
  }

  predicate AllDecode<P>(c: Setup<P>, frames: seq<Raw>) {
    forall i :: 0 <= i < |frames| ==> c.decode(frames[i]).Ok?
  }

  function Values<P>(c: Setup<P>, frames: seq<Raw>): (r: seq<Audio>)
    requires AllDecode(c, frames)
    ensures |r| == |frames|
  {
    seq(|frames|, i requires 0 <= i < |frames| => c.decode(frames[i]).value)
  }

  /** The decoder gives up: its batch is lost, and both its channel ends are dropped. */
  function DecoderFails<P>(s: State<P>): State<P> {
    s.(decoder := s.decoder.(phase := DecoderDone(false), batch := []))
  }

  /** One step of the decoder. `fault`: the thread pool cannot be built. */
  function DecoderNext<P>(c: Setup<P>, s: State<P>, fault: bool): Option<State<P>> {
    var d := s.decoder;
    match d.phase
    case Starting =>
      if fault then Some(DecoderFails(s).(faults := true))
      else Some(s.(decoder := d.(phase := Receiving)))
    case Receiving =>
      if s.rawQueue != [] then
        var batch := d.batch + [s.rawQueue[0]];
        var phase := if |batch| >= BATCH_SIZE then Processing(false) else Receiving;
        Some(s.(decoder := d.(phase := phase, batch := batch), rawQueue := s.rawQueue[1..]))
      else if s.producer.phase.ProducerDone? then
        Some(s.(decoder := d.(phase := Processing(true))))
      else
        None
    case Processing(last) =>
      if d.batch == [] then
        Some(s.(decoder := d.(phase := if last then DecoderDone(true) else Receiving)))
      else if AllDecode(c, d.batch) then
        Some(s.(decoder := d.(phase := Forwarding(Values(c, d.batch), last), batch := [])))
      else
        Some(DecoderFails(s))
    case Forwarding(decoded, last) =>
      if s.writer.phase.WriterDone? then
        Some(DecoderFails(s))
      else if |s.decodedQueue| < DECODED_QUEUE_DEPTH then
        Some(s.(decoder := d.(phase := if last then DecoderDone(true) else Receiving, sizes := d.sizes + [|decoded|]),
                decodedQueue := s.decodedQueue + [decoded]))
      else
        None
    case DecoderDone(_) => None
  }

  /** One step of the writer. `fault`: the write fails, and what is still queued is lost. */
  function WriterNext<P>(c: Setup<P>, s: State<P>, fault: bool): Option<State<P>> {
    var w := s.writer;
    match w.phase
    case Waiting =>
      if s.decodedQueue != [] then
        Some(s.(writer := w.(phase := Writing(s.decodedQueue[0])), decodedQueue := s.decodedQueue[1..]))
      else if s.decoder.phase.DecoderDone? then
        Some(s.(writer := w.(phase := WriterDone(true))))
      else
        None
    case Writing(frames) =>
      if frames == [] then
        Some(s.(writer := w.(phase := Waiting)))
      else if fault then
        Some(s.(writer := w.(phase := WriterDone(false)), decodedQueue := [], faults := true))
      else
        Some(s.(writer := Writer(if |frames| == 1 then Waiting else Writing(frames[1..]), w.written + [frames[0]])))
    case WriterDone(_) => None
  }

  datatype Stage = ProducerStage | DecoderStage | WriterStage

  function NextOf<P>(c: Setup<P>, s: State<P>, stage: Stage, fault: bool): Option<State<P>> {
    match stage
    case ProducerStage => ProducerNext(c, s, fault)
    case DecoderStage => DecoderNext(c, s, fault)
    case WriterStage => WriterNext(c, s, fault)
  }

  /** Any stage that is not blocked may be the next to run. */
  ghost predicate Next<P>(c: Setup<P>, s: State<P>, t: State<P>) {
    exists stage, fault :: NextOf(c, s, stage, fault) == Some(t)
  }

  predicate Terminal<P>(s: State<P>) {
    s.producer.phase.ProducerDone? && s.decoder.phase.DecoderDone? && s.writer.phase.WriterDone?
  }

  /** After joining the stages: `finalize` is reached with these frames written, or not at all. */
  function Outcome<P>(s: State<P>): Result<seq<Audio>, StageError>
    requires Terminal(s)
  {
    if s.decoder.phase.ok && s.producer.phase.ok && s.writer.phase.ok then Ok(s.writer.written) else Err(StageError)
  }
}
