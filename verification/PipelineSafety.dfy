/** What every reachable state of the pipeline keeps, under any scheduling and any failures. */
module PipelineSafety {
  import opened Bytes
  import opened Pipeline

  // ---------------------------------------------------------------- the producer

  lemma {:induction false} FramesGrow<P>(c: Setup<P>, n: nat, m: nat)
    requires n <= m
    ensures FramesAt(c, n) <= FramesAt(c, m)
    decreases m
  {
    if n < m {
      FramesGrow(c, n, m - 1);
    }
  }

  ghost predicate ProducerInv<P>(c: Setup<P>, p: Producer<P>) {
    var total := c.Sectors();
    && p.parsed <= total
    && p.parser == ParserAt(c, p.parsed)
    && Parses(c, p.parsed)
    && p.sent <= AllFrames(c)
    && match p.phase
       case Reading => !p.broke && p.sent == FramesAt(c, p.parsed)
       case Parsing(left) => !p.broke && p.parsed + left < total && p.sent == FramesAt(c, p.parsed)
       case Sending(frame, more, left) =>
         !p.broke && p.parsed + left <= total && p.sent + ([frame] + more) == FramesAt(c, p.parsed)
       case Flushing => p.broke || (p.parsed == total && p.sent == FramesAt(c, total))
       case SendingLast(frame) => p.broke || (p.parsed == total && p.sent + [frame] == AllFrames(c))
       case ProducerDone(ok) =>
         if ok then p.broke || (p.parsed == total && p.sent == AllFrames(c))
         else !p.broke && p.parsed < total
  }

  lemma {:induction false} GoOnInv<P>(c: Setup<P>, p: Producer<P>, more: seq<Raw>, left: nat)
    requires p.parsed <= c.Sectors() && p.parser == ParserAt(c, p.parsed) && Parses(c, p.parsed) && !p.broke
    requires p.parsed + left <= c.Sectors() && p.sent + more == FramesAt(c, p.parsed)
    ensures ProducerInv(c, p.(phase := GoOn(more, left)))
  {
    FramesGrow(c, p.parsed, c.Sectors());
    if more == [] {
      assert p.sent + [] == p.sent;
    } else {
      assert [more[0]] + more[1..] == more;
    }
    PrefixTrans(p.sent, more, FramesAt(c, p.parsed), AllFrames(c));
  }

  lemma {:induction false} PrefixTrans(a: seq<Raw>, b: seq<Raw>, ab: seq<Raw>, all: seq<Raw>)
    requires a + b == ab && ab <= all
    ensures a <= all
  {
    TakeDrop(a, b);
  }

  lemma {:induction false} ParsedMore<P>(c: Setup<P>, p: Producer<P>, frames: seq<Raw>)
    requires ProducerInv(c, p) && p.phase.Parsing? && SectorFrames(c, p.parsed) == Ok(frames)
    ensures FramesAt(c, p.parsed + 1) == p.sent + frames
    ensures Parses(c, p.parsed + 1)
    ensures c.parse(p.parser, c.disc(c.start + p.parsed)).parser == ParserAt(c, p.parsed + 1)
  {
  }

  lemma {:induction false} ParsingKeeps<P>(c: Setup<P>, p: Producer<P>, left: nat)
    requires ProducerInv(c, p) && p.phase == Parsing(left)
    ensures var r := c.parse(p.parser, c.disc(c.start + p.parsed));
            if r.frames.Err? then ProducerInv(c, p.(phase := ProducerDone(false)))
            else ProducerInv(c, p.(phase := GoOn(r.frames.value, left), parsed := p.parsed + 1, parser := r.parser))
  {
    var r := c.parse(p.parser, c.disc(c.start + p.parsed));
    if r.frames.Ok? {
      ParsedMore(c, p, r.frames.value);
      GoOnInv(c, p.(parsed := p.parsed + 1, parser := r.parser), r.frames.value, left);
    }
  }

  lemma {:induction false} SendingKeeps<P>(c: Setup<P>, s: State<P>, frame: Raw, more: seq<Raw>, left: nat)
    requires ProducerInv(c, s.producer) && s.producer.phase == Sending(frame, more, left)
    requires ProducerNext(c, s, false).Some?
    ensures ProducerInv(c, ProducerNext(c, s, false).value.producer)
  {
    var p := s.producer;
    if !s.decoder.phase.DecoderDone? {
      Assoc(p.sent, [frame], more);
      GoOnInv(c, p.(sent := p.sent + [frame]), more, left);
    }
  }

  lemma {:induction false} ParsingStepKeeps<P>(c: Setup<P>, s: State<P>, fault: bool)
    requires ProducerInv(c, s.producer) && s.producer.phase.Parsing?
    ensures ProducerNext(c, s, fault).Some? && ProducerInv(c, ProducerNext(c, s, fault).value.producer)
  {
    ParsingKeeps(c, s.producer, s.producer.phase.left);
  }

  lemma {:induction false} ReadingKeeps<P>(c: Setup<P>, s: State<P>, fault: bool)
    requires ProducerInv(c, s.producer) && s.producer.phase.Reading?
    ensures ProducerNext(c, s, fault).Some? && ProducerInv(c, ProducerNext(c, s, fault).value.producer)
  {
  }

  lemma {:induction false} EndingKeeps<P>(c: Setup<P>, s: State<P>, fault: bool)
    requires ProducerInv(c, s.producer) && (s.producer.phase.Flushing? || s.producer.phase.SendingLast?)
    requires s.producer.broke ==> s.decoder.phase.DecoderDone?
    requires ProducerNext(c, s, fault).Some?
    ensures ProducerInv(c, ProducerNext(c, s, fault).value.producer)
  {
    assert FramesAt(c, c.Sectors()) + [] == FramesAt(c, c.Sectors());
  }

  lemma {:induction false} ProducerKeeps<P>(c: Setup<P>, s: State<P>, fault: bool)
    requires ProducerInv(c, s.producer) && (s.producer.broke ==> s.decoder.phase.DecoderDone?)
    requires ProducerNext(c, s, fault).Some?
    ensures ProducerInv(c, ProducerNext(c, s, fault).value.producer)
  {
    match s.producer.phase
    case Reading => ReadingKeeps(c, s, fault);
    case Parsing(left) => ParsingStepKeeps(c, s, fault);
    case Sending(frame, more, left) => SendingKeeps(c, s, frame, more, left);
    case _ => EndingKeeps(c, s, fault);
  }

  // ---------------------------------------------------------------- frames in flight

  function Ahead(w: Writer): seq<Audio> { if w.phase.Writing? then w.phase.frames else [] }

  function Forwarded(d: Decoder): seq<Audio> { if d.phase.Forwarding? then d.phase.decoded else [] }

  /** Decoded frames, the oldest first: written, with the writer, queued, and with the decoder. */
  function Downstream<P>(s: State<P>): seq<Audio> {
    s.writer.written + (Ahead(s.writer) + (Flatten(s.decodedQueue) + Forwarded(s.decoder)))
  }

  /** Raw frames that have been sent, the oldest first. */
  function Upstream<P>(s: State<P>): seq<Raw> { s.decoder.batch + s.rawQueue }

  /** Nothing sent is lost, repeated, reordered or wrongly decoded. */
  ghost predicate Conserved<P>(c: Setup<P>, s: State<P>) {
    Oks(Downstream(s)) + Decoded(c, Upstream(s)) == Decoded(c, s.producer.sent)
  }

  /** What reaches or will reach the output file, in this order. */
  function Output<P>(s: State<P>): seq<Audio> {
    s.writer.written + (Ahead(s.writer) + Flatten(s.decodedQueue))
  }

  ghost predicate FlowInv<P>(c: Setup<P>, s: State<P>) {
    && (s.decoder.phase != DecoderDone(false) && s.writer.phase != WriterDone(false) ==> Conserved(c, s))
    && Oks(Output(s)) <= Decoded(c, s.producer.sent)
  }

  /** The decoder has seen the end of the raw channel. */
  predicate Draining(d: Decoder) {
    d.phase == Processing(true) || (d.phase.Forwarding? && d.phase.last) || d.phase == DecoderDone(true)
  }

  /** What the end of one stage says about the others. */
  ghost predicate EndInv<P>(s: State<P>) {
    && (Draining(s.decoder) ==> s.producer.phase.ProducerDone? && s.rawQueue == [])
    && (s.decoder.phase.Forwarding? || s.decoder.phase.DecoderDone? ==> s.decoder.batch == [])
    && (s.writer.phase == WriterDone(true) ==> s.decoder.phase.DecoderDone? && s.decodedQueue == [])
    && (s.writer.phase == WriterDone(false) ==> s.decodedQueue == [])
    && (s.producer.broke ==> s.decoder.phase == DecoderDone(false))
  }

  lemma {:induction false} ProducerEnd<P>(c: Setup<P>, s: State<P>, fault: bool)
    requires EndInv(s) && ProducerNext(c, s, fault).Some?
    ensures EndInv(ProducerNext(c, s, fault).value)
  {
  }

  lemma {:induction false} DecoderEnd<P>(c: Setup<P>, s: State<P>, fault: bool)
    requires EndInv(s) && DecoderNext(c, s, fault).Some?
    ensures EndInv(DecoderNext(c, s, fault).value)
  {
  }

  lemma {:induction false} WriterEnd<P>(c: Setup<P>, s: State<P>, fault: bool)
    requires EndInv(s) && WriterNext(c, s, fault).Some?
    ensures EndInv(WriterNext(c, s, fault).value)
  {
  }

  lemma {:induction false} OksConcat(a: seq<Audio>, b: seq<Audio>)
    ensures Oks(a + b) == Oks(a) + Oks(b)
  {
  }

  lemma {:induction false} DecodedConcat<P>(c: Setup<P>, a: seq<Raw>, b: seq<Raw>)
    ensures Decoded(c, a + b) == Decoded(c, a) + Decoded(c, b)
  {
  }

  /** A frame enters the raw queue. */
  lemma {:induction false} SendFlow<P>(c: Setup<P>, s: State<P>, t: State<P>, frame: Raw)
    requires FlowInv(c, s) && !s.decoder.phase.DecoderDone?
    requires t == s.(producer := t.producer, rawQueue := s.rawQueue + [frame])
    requires t.producer.sent == s.producer.sent + [frame] && t.producer.broke == s.producer.broke
    ensures FlowInv(c, t)
  {
    Assoc(s.decoder.batch, s.rawQueue, [frame]);
    DecodedConcat(c, Upstream(s), [frame]);
    DecodedConcat(c, s.producer.sent, [frame]);
    Assoc(Oks(Downstream(s)), Decoded(c, Upstream(s)), Decoded(c, [frame]));
  }

  /** No frame moves. */
  lemma {:induction false} IdleFlow<P>(c: Setup<P>, s: State<P>, t: State<P>)
    requires FlowInv(c, s)
    requires t == s.(producer := t.producer, faults := t.faults) && t.producer.sent == s.producer.sent
    ensures FlowInv(c, t)
  {
    assert Downstream(t) == Downstream(s) && Upstream(t) == Upstream(s) && Output(t) == Output(s);
  }

  lemma {:induction false} ProducerFlow<P>(c: Setup<P>, s: State<P>, fault: bool)
    requires FlowInv(c, s) && ProducerNext(c, s, fault).Some?
    ensures FlowInv(c, ProducerNext(c, s, fault).value)
  {
    var t := ProducerNext(c, s, fault).value;
    if t.producer.sent == s.producer.sent {
      IdleFlow(c, s, t);
    } else {
      SendFlow(c, s, t, s.producer.phase.frame);
    }
  }

  lemma {:induction false} OksOfValues<P>(c: Setup<P>, batch: seq<Raw>)
    requires AllDecode(c, batch)
    ensures Oks(Values(c, batch)) == Decoded(c, batch)
  {
    forall i | 0 <= i < |batch| ensures Oks(Values(c, batch))[i] == Decoded(c, batch)[i] {
      assert c.decode(batch[i]).Ok?;
    }
  }

  lemma {:induction false} DecodeFlow<P>(c: Setup<P>, s: State<P>, t: State<P>)
    requires Conserved(c, s) && s.decoder.phase.Processing? && AllDecode(c, s.decoder.batch)
    requires t == s.(decoder := s.decoder.(phase := Forwarding(Values(c, s.decoder.batch), s.decoder.phase.last),
                                           batch := []))
    ensures Conserved(c, t)
  {
    var front := s.writer.written + (Ahead(s.writer) + Flatten(s.decodedQueue));
    var values := Values(c, s.decoder.batch);
    DownstreamParts(s);
    DownstreamParts(t);
    assert front + [] == front;
    OksConcat(front, values);
    OksOfValues(c, s.decoder.batch);
    DecodedConcat(c, s.decoder.batch, s.rawQueue);
    Assoc(Oks(front), Decoded(c, s.decoder.batch), Decoded(c, s.rawQueue));
    assert [] + s.rawQueue == s.rawQueue;
  }

  lemma {:induction false} DownstreamParts<P>(s: State<P>)
    ensures Downstream(s) == Output(s) + Forwarded(s.decoder)
  {
    Assoc(Ahead(s.writer), Flatten(s.decodedQueue), Forwarded(s.decoder));
    Assoc(s.writer.written, Ahead(s.writer) + Flatten(s.decodedQueue), Forwarded(s.decoder));
  }

  lemma {:induction false} ReceiveFlow<P>(c: Setup<P>, s: State<P>, t: State<P>)
    requires Conserved(c, s) && s.decoder.phase.Receiving? && s.rawQueue != []
    requires t.producer == s.producer && t.writer == s.writer && t.decodedQueue == s.decodedQueue
    requires !t.decoder.phase.Forwarding?
    requires t.decoder.batch == s.decoder.batch + [s.rawQueue[0]] && t.rawQueue == s.rawQueue[1..]
    ensures Conserved(c, t)
  {
    assert [s.rawQueue[0]] + s.rawQueue[1..] == s.rawQueue;
    Assoc(s.decoder.batch, [s.rawQueue[0]], s.rawQueue[1..]);
  }

  lemma {:induction false} ForwardFlow<P>(c: Setup<P>, s: State<P>, t: State<P>)
    requires FlowInv(c, s) && s.decoder.phase.Forwarding? && !s.writer.phase.WriterDone?
    requires t.producer == s.producer && t.writer == s.writer && t.rawQueue == s.rawQueue
    requires !t.decoder.phase.Forwarding? && t.decoder.batch == s.decoder.batch
    requires t.decodedQueue == s.decodedQueue + [s.decoder.phase.decoded]
    ensures Conserved(c, t) && Oks(Output(t)) <= Decoded(c, t.producer.sent)
  {
    FlattenSnoc(s.decodedQueue, s.decoder.phase.decoded);
    assert Flatten(t.decodedQueue) + [] == Flatten(t.decodedQueue);
    assert Output(t) == Downstream(t) == Downstream(s);
    TakeDrop(Oks(Downstream(s)), Decoded(c, Upstream(s)));
  }

  lemma {:induction false} DecoderFlow<P>(c: Setup<P>, s: State<P>, fault: bool)
    requires FlowInv(c, s) && DecoderNext(c, s, fault).Some?
    ensures FlowInv(c, DecoderNext(c, s, fault).value)
  {
    var t := DecoderNext(c, s, fault).value;
    match s.decoder.phase
    case Receiving =>
      if s.rawQueue != [] && s.writer.phase != WriterDone(false) {
        ReceiveFlow(c, s, t);
      }
    case Processing(last) =>
      if s.decoder.batch != [] && AllDecode(c, s.decoder.batch) && s.writer.phase != WriterDone(false) {
        DecodeFlow(c, s, t);
      }
    case Forwarding(decoded, last) =>
      if !s.writer.phase.WriterDone? && |s.decodedQueue| < DECODED_QUEUE_DEPTH {
        ForwardFlow(c, s, t);
      }
    case _ =>
  }

  lemma {:induction false} WriterFlow<P>(c: Setup<P>, s: State<P>, fault: bool)
    requires FlowInv(c, s) && WriterNext(c, s, fault).Some?
    ensures FlowInv(c, WriterNext(c, s, fault).value)
  {
    var t := WriterNext(c, s, fault).value;
    match s.writer.phase
    case Waiting =>
      if s.decodedQueue != [] {
        assert [] + Flatten(s.decodedQueue) == Flatten(s.decodedQueue);
        assert Output(t) == Output(s);
        SameOutput(c, s, t);
      }
    case Writing(frames) =>
      if frames == [] {
        SameOutput(c, s, t);
      } else if fault {
        assert Oks(s.writer.written) <= Oks(Output(s));
        assert s.writer.written + ([] + []) == s.writer.written;
      } else {
        assert [frames[0]] + frames[1..] == frames;
        Assoc([frames[0]], frames[1..], Flatten(s.decodedQueue));
        Assoc(s.writer.written, [frames[0]], Ahead(t.writer) + Flatten(s.decodedQueue));
        assert Output(t) == Output(s);
        SameOutput(c, s, t);
      }
    case _ =>
  }

  lemma {:induction false} SameOutput<P>(c: Setup<P>, s: State<P>, t: State<P>)
    requires Output(t) == Output(s)
    requires t.producer == s.producer && t.rawQueue == s.rawQueue && t.decoder == s.decoder
    ensures Conserved(c, t) <==> Conserved(c, s)
  {
    DownstreamParts(s);
    DownstreamParts(t);
  }

  // ---------------------------------------------------------------- why a stage fails

  ghost predicate CauseInv<P>(c: Setup<P>, s: State<P>) {
    && (s.producer.phase == ProducerDone(false) ==> s.faults || !Parses(c, c.Sectors()))
    && (s.decoder.phase == DecoderDone(false) ==>
          s.faults || s.writer.phase == WriterDone(false) || !AllDecode(c, AllFrames(c)))
    && (s.writer.phase == WriterDone(false) ==> s.faults)
  }

  lemma {:induction false} BadFrameWasSent<P>(c: Setup<P>, s: State<P>)
    requires ProducerInv(c, s.producer) && Conserved(c, s) && !AllDecode(c, s.decoder.batch)
    ensures !AllDecode(c, AllFrames(c))
  {
    var i :| 0 <= i < |s.decoder.batch| && c.decode(s.decoder.batch[i]).Err?;
    var k := |Downstream(s)| + i;
    assert Upstream(s)[i] == s.decoder.batch[i];
    assert Decoded(c, s.producer.sent)[k] == Decoded(c, Upstream(s))[i];
    assert AllFrames(c)[k] == s.producer.sent[k];
  }

  lemma {:induction false} ProducerCause<P>(c: Setup<P>, s: State<P>, fault: bool)
    requires CauseInv(c, s) && ProducerInv(c, s.producer) && ProducerNext(c, s, fault).Some?
    ensures CauseInv(c, ProducerNext(c, s, fault).value)
  {
    var p := s.producer;
    if p.phase.Parsing? && c.parse(p.parser, c.disc(c.start + p.parsed)).frames.Err? {
      assert SectorFrames(c, p.parsed).Err?;
    }
  }

  lemma {:induction false} DecoderCause<P>(c: Setup<P>, s: State<P>, fault: bool)
    requires CauseInv(c, s) && ProducerInv(c, s.producer) && FlowInv(c, s) && EndInv(s)
    requires DecoderNext(c, s, fault).Some?
    ensures CauseInv(c, DecoderNext(c, s, fault).value)
  {
    if s.decoder.phase.Processing? && !AllDecode(c, s.decoder.batch) && s.writer.phase != WriterDone(false) {
      BadFrameWasSent(c, s);
    }
  }

  lemma {:induction false} WriterCause<P>(c: Setup<P>, s: State<P>, fault: bool)
    requires CauseInv(c, s) && WriterNext(c, s, fault).Some?
    ensures CauseInv(c, WriterNext(c, s, fault).value)
  {
  }

  // ---------------------------------------------------------------- bounds

  predicate FullBatches(sizes: seq<nat>, last: bool) {
    forall i :: 0 <= i < |sizes| ==>
      1 <= sizes[i] <= 256 && (!last || i < |sizes| - 1 ==> sizes[i] == 256)
  }

  /** Reads of at most 256 sectors, channel capacities, and batches of exactly 256 frames, except possibly the last. */
  ghost predicate BoundInv<P>(s: State<P>) {
    && (s.producer.phase.Parsing? || s.producer.phase.Sending? ==> s.producer.phase.left < 256)
    && |s.rawQueue| <= 16384
    && |s.decodedQueue| <= 4
    && (forall i :: 0 <= i < |s.decodedQueue| ==> 1 <= |s.decodedQueue[i]| <= 256)
    && FullBatches(s.decoder.sizes, s.decoder.phase.DecoderDone?)
    && match s.decoder.phase
       case Starting => s.decoder.batch == []
       case Receiving => |s.decoder.batch| < 256
       case Processing(last) => if last then |s.decoder.batch| < 256 else |s.decoder.batch| == 256
       case Forwarding(decoded, last) =>
         s.decoder.batch == [] && if last then 1 <= |decoded| < 256 else |decoded| == 256
       case DecoderDone(_) => s.decoder.batch == []
  }

  /** When a stage waits: for room in a full queue, or for something in an empty one whose other end is alive. */
  lemma {:induction false} WaitsOnlyFor<P>(c: Setup<P>, s: State<P>, fault: bool)
    ensures ProducerNext(c, s, fault) == None <==>
              || s.producer.phase.ProducerDone?
              || ((s.producer.phase.Sending? || s.producer.phase.SendingLast?)
                  && |s.rawQueue| >= 16384 && !s.decoder.phase.DecoderDone?)
    ensures DecoderNext(c, s, fault) == None <==>
              || s.decoder.phase.DecoderDone?
              || (s.decoder.phase.Receiving? && s.rawQueue == [] && !s.producer.phase.ProducerDone?)
              || (s.decoder.phase.Forwarding? && |s.decodedQueue| >= 4 && !s.writer.phase.WriterDone?)
    ensures WriterNext(c, s, fault) == None <==>
              || s.writer.phase.WriterDone?
              || (s.writer.phase.Waiting? && s.decodedQueue == [] && !s.decoder.phase.DecoderDone?)
  {
  }

  /** A read that does not fail takes 256 sectors, or all that are left. */
  lemma {:induction false} ReadsInFull<P>(c: Setup<P>, s: State<P>)
    requires s.producer.phase.Reading? && s.producer.parsed < c.Sectors()
    ensures var unread := c.Sectors() - s.producer.parsed;
            ProducerNext(c, s, false) ==
              Some(s.(producer := s.producer.(phase := Parsing(if unread < 256 then unread - 1 else 255))))
  {
  }

  lemma {:induction false} ProducerBounds<P>(c: Setup<P>, s: State<P>, fault: bool)
    requires BoundInv(s) && ProducerNext(c, s, fault).Some?
    ensures BoundInv(ProducerNext(c, s, fault).value)
  {
  }

  lemma {:induction false} DecoderBounds<P>(c: Setup<P>, s: State<P>, fault: bool)
    requires BoundInv(s) && DecoderNext(c, s, fault).Some?
    ensures BoundInv(DecoderNext(c, s, fault).value)
  {
  }

  lemma {:induction false} WriterBounds<P>(c: Setup<P>, s: State<P>, fault: bool)
    requires BoundInv(s) && WriterNext(c, s, fault).Some?
    ensures BoundInv(WriterNext(c, s, fault).value)
  {
  }

  // ---------------------------------------------------------------- the invariant

  ghost predicate Inv<P>(c: Setup<P>, s: State<P>) {
    ProducerInv(c, s.producer) && FlowInv(c, s) && EndInv(s) && CauseInv(c, s) && BoundInv(s)
  }

  lemma {:induction false} InitialInv<P>(c: Setup<P>)
    ensures Inv(c, Initial(c))
  {
  }

  lemma {:induction false} ProducerInvKept<P>(c: Setup<P>, s: State<P>, fault: bool)
    requires Inv(c, s) && ProducerNext(c, s, fault).Some?
    ensures Inv(c, ProducerNext(c, s, fault).value)
  {
    ProducerKeeps(c, s, fault);
    ProducerFlow(c, s, fault);
    ProducerEnd(c, s, fault);
    ProducerCause(c, s, fault);
    ProducerBounds(c, s, fault);
  }

  lemma {:induction false} DecoderInvKept<P>(c: Setup<P>, s: State<P>, fault: bool)
    requires Inv(c, s) && DecoderNext(c, s, fault).Some?
    ensures Inv(c, DecoderNext(c, s, fault).value)
  {
    DecoderFlow(c, s, fault);
    DecoderEnd(c, s, fault);
    DecoderCause(c, s, fault);
    DecoderBounds(c, s, fault);
    assert DecoderNext(c, s, fault).value.producer == s.producer;
  }

  lemma {:induction false} WriterInvKept<P>(c: Setup<P>, s: State<P>, fault: bool)
    requires Inv(c, s) && WriterNext(c, s, fault).Some?
    ensures Inv(c, WriterNext(c, s, fault).value)
  {
    WriterFlow(c, s, fault);
    WriterEnd(c, s, fault);
    WriterCause(c, s, fault);
    WriterBounds(c, s, fault);
    assert WriterNext(c, s, fault).value.producer == s.producer;
  }

  /** Every step of every stage, failing or not, keeps the invariant. */
  lemma {:induction false} InvKept<P>(c: Setup<P>, s: State<P>, t: State<P>)
    requires Inv(c, s) && Next(c, s, t)
    ensures Inv(c, t)
  {
    var stage, fault :| NextOf(c, s, stage, fault) == Some(t);
    match stage
    case ProducerStage => ProducerInvKept(c, s, fault);
    case DecoderStage => DecoderInvKept(c, s, fault);
    case WriterStage => WriterInvKept(c, s, fault);
  }
}
