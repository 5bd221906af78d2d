/** Whole runs of the pipeline: it never gets stuck, always ends, and means what its sequential form means. */
module PipelineTheorems {
  import opened Bytes
  import opened Pipeline
  import opened PipelineSafety

  // ---------------------------------------------------------------- no deadlock

  /** No stage can run, whatever fails or does not. */
  ghost predicate Stuck<P>(c: Setup<P>, s: State<P>) {
    forall stage, fault :: NextOf(c, s, stage, fault) == None
  }

  /** Whoever waits for a channel waits for a stage that can run. */
  lemma {:induction false} SomeStageRuns<P>(c: Setup<P>, s: State<P>) returns (stage: Stage)
    requires BoundInv(s) && !Terminal(s)
    ensures NextOf(c, s, stage, false).Some?
  {
    if !s.decoder.phase.DecoderDone? {
      if DecoderNext(c, s, false).Some? {
        stage := DecoderStage;
      } else if s.decoder.phase.Receiving? {
        stage := ProducerStage;
      } else {
        stage := WriterStage;
      }
    } else if !s.producer.phase.ProducerDone? {
      stage := ProducerStage;
    } else {
      stage := WriterStage;
    }
  }

  /** In every reachable state some stage can take a step, unless all stages have ended. */
  lemma {:induction false} NoDeadlock<P>(c: Setup<P>, s: State<P>)
    requires BoundInv(s)
    ensures Stuck(c, s) <==> Terminal(s)
  {
    if !Terminal(s) {
      var stage := SomeStageRuns(c, s);
    }
  }

  // ---------------------------------------------------------------- termination

  /** The frames the producer may still send from sector number `n` on, `flush` included. */
  function Future<P>(c: Setup<P>, n: nat, parser: P): nat
    decreases c.Sectors() - n
  {
    if n >= c.Sectors() then 1
    else
      var r := c.parse(parser, c.disc(c.start + n));
      if r.frames.Err? then 1 else |r.frames.value| + Future(c, n + 1, r.parser)
  }

  /** Six for every unsent frame, and the producer's own progress. */
  function ProducerMeasure<P>(c: Setup<P>, p: Producer<P>): nat {
    6 * Unsent(c, p) + ProducerRank(c, p)
  }

  function DecoderMeasure(d: Decoder): nat { 4 * |d.batch| + 3 * |Forwarded(d)| + DecoderRank(d) }

  function WriterMeasure(w: Writer): nat { |Ahead(w)| + WriterRank(w) }

  function Unsent<P>(c: Setup<P>, p: Producer<P>): nat {
    match p.phase
    case Reading => Future(c, p.parsed, p.parser)
    case Parsing(_) => Future(c, p.parsed, p.parser)
    case Sending(_, more, _) => 1 + |more| + Future(c, p.parsed, p.parser)
    case Flushing => 1
    case SendingLast(_) => 1
    case ProducerDone(_) => 0
  }

  function SectorsLeft<P>(c: Setup<P>, p: Producer<P>): nat {
    if p.parsed < c.Sectors() then c.Sectors() - p.parsed else 0
  }

  function ProducerRank<P>(c: Setup<P>, p: Producer<P>): nat {
    match p.phase
    case Reading => 3 * SectorsLeft(c, p) + 4
    case Parsing(_) => 3 * SectorsLeft(c, p) + 3
    case Sending(_, _, _) => 3 * SectorsLeft(c, p) + 5
    case Flushing => 2
    case SendingLast(_) => 1
    case ProducerDone(_) => 0
  }

  function DecoderRank(d: Decoder): nat {
    match d.phase
    case Starting => 3
    case Receiving => 2
    case Processing(last) => if last then 1 else 2
    case Forwarding(_, last) => if last then 1 else 2
    case DecoderDone(_) => 0
  }

  function WriterRank(w: Writer): nat {
    match w.phase
    case Waiting => 1
    case Writing(frames) => if frames == [] then 2 else 1
    case WriterDone(_) => 0
  }

  /** A frame weighs less the further it has got; every step moves something on. */
  function Measure<P>(c: Setup<P>, s: State<P>): nat {
    ProducerMeasure(c, s.producer) + 5 * |s.rawQueue| + DecoderMeasure(s.decoder)
    + 2 * |Flatten(s.decodedQueue)| + WriterMeasure(s.writer)
  }

  lemma {:induction false} GoOnMeasure<P>(c: Setup<P>, p: Producer<P>, more: seq<Raw>, left: nat)
    ensures ProducerMeasure(c, p.(phase := GoOn(more, left)))
         <= 6 * (|more| + Future(c, p.parsed, p.parser)) + 3 * SectorsLeft(c, p) + 4 + if more == [] then 0 else 1
  {
  }

  lemma {:induction false} ParsingDescends<P>(c: Setup<P>, p: Producer<P>, left: nat)
    requires p.phase == Parsing(left) && p.parsed < c.Sectors()
    ensures var r := c.parse(p.parser, c.disc(c.start + p.parsed));
            r.frames.Ok? ==>
              ProducerMeasure(c, p.(phase := GoOn(r.frames.value, left), parsed := p.parsed + 1, parser := r.parser))
              < ProducerMeasure(c, p)
  {
    var r := c.parse(p.parser, c.disc(c.start + p.parsed));
    if r.frames.Ok? {
      GoOnMeasure(c, p.(parsed := p.parsed + 1, parser := r.parser), r.frames.value, left);
    }
  }

  lemma {:induction false} SendingDescends<P>(c: Setup<P>, p: Producer<P>, frame: Raw, more: seq<Raw>, left: nat)
    requires p.phase == Sending(frame, more, left)
    ensures ProducerMeasure(c, p.(phase := GoOn(more, left), sent := p.sent + [frame])) + 5 < ProducerMeasure(c, p)
  {
    GoOnMeasure(c, p.(sent := p.sent + [frame]), more, left);
  }

  lemma {:induction false} BrokenDescends<P>(c: Setup<P>, p: Producer<P>, frame: Raw, more: seq<Raw>, left: nat)
    requires p.phase == Sending(frame, more, left)
    ensures ProducerMeasure(c, p.(phase := Flushing, broke := true)) < ProducerMeasure(c, p)
  {
  }

  lemma {:induction false} ReadingDescends<P>(c: Setup<P>, p: Producer<P>, left: nat)
    requires p.phase.Reading?
    ensures p.parsed >= c.Sectors() ==> ProducerMeasure(c, p.(phase := Flushing)) < ProducerMeasure(c, p)
    ensures ProducerMeasure(c, p.(phase := ProducerDone(false))) < ProducerMeasure(c, p)
    ensures ProducerMeasure(c, p.(phase := Parsing(left))) < ProducerMeasure(c, p)
  {
  }

  lemma {:induction false} FlushingDescends<P>(c: Setup<P>, p: Producer<P>, phase: ProducerPhase)
    requires p.phase.Flushing? && (phase.SendingLast? || phase.ProducerDone?)
    ensures ProducerMeasure(c, p.(phase := phase)) < ProducerMeasure(c, p)
  {
  }

  lemma {:induction false} ProducerTouches<P>(c: Setup<P>, s: State<P>, fault: bool)
    requires ProducerNext(c, s, fault).Some?
    ensures var t := ProducerNext(c, s, fault).value;
            t.decoder == s.decoder && t.decodedQueue == s.decodedQueue && t.writer == s.writer
  {
  }

  /** The producer's part of the measure: its own, and what it has put into the queue. */
  function Energy<P>(c: Setup<P>, s: State<P>): nat { ProducerMeasure(c, s.producer) + 5 * |s.rawQueue| }

  lemma {:induction false} ParsingEnergy<P>(c: Setup<P>, s: State<P>, fault: bool)
    requires s.producer.phase.Parsing? && s.producer.parsed < c.Sectors() && ProducerNext(c, s, fault).Some?
    ensures Energy(c, ProducerNext(c, s, fault).value) < Energy(c, s)
  {
    ParsingDescends(c, s.producer, s.producer.phase.left);
  }

  lemma {:induction false} SendingEnergy<P>(c: Setup<P>, s: State<P>, fault: bool)
    requires s.producer.phase.Sending? && ProducerNext(c, s, fault).Some?
    ensures Energy(c, ProducerNext(c, s, fault).value) < Energy(c, s)
  {
    var Sending(frame, more, left) := s.producer.phase;
    SendingDescends(c, s.producer, frame, more, left);
    BrokenDescends(c, s.producer, frame, more, left);
  }

  lemma {:induction false} ReadingEnergy<P>(c: Setup<P>, s: State<P>, fault: bool)
    requires s.producer.phase.Reading?
    ensures Energy(c, ProducerNext(c, s, fault).value) < Energy(c, s)
  {
    var unread := SectorsLeft(c, s.producer);
    var want := if unread < BATCH_SECTORS then unread else BATCH_SECTORS;
    ReadingDescends(c, s.producer, if want > 0 then want - 1 else 0);
  }

  lemma {:induction false} EndingEnergy<P>(c: Setup<P>, s: State<P>, fault: bool)
    requires (s.producer.phase.Flushing? || s.producer.phase.SendingLast?) && ProducerNext(c, s, fault).Some?
    ensures Energy(c, ProducerNext(c, s, fault).value) < Energy(c, s)
  {
    if s.producer.phase.Flushing? {
      FlushingDescends(c, s.producer, ProducerNext(c, s, fault).value.producer.phase);
    }
  }

  lemma {:induction false} EnergyDescends<P>(c: Setup<P>, s: State<P>, t: State<P>)
    requires Energy(c, t) < Energy(c, s)
    requires t.decoder == s.decoder && t.decodedQueue == s.decodedQueue && t.writer == s.writer
    ensures Measure(c, t) < Measure(c, s)
  {
  }

  lemma {:induction false} ProducerDescends<P>(c: Setup<P>, s: State<P>, fault: bool)
    requires s.producer.phase.Parsing? ==> s.producer.parsed < c.Sectors()
    requires ProducerNext(c, s, fault).Some?
    ensures Measure(c, ProducerNext(c, s, fault).value) < Measure(c, s)
  {
    match s.producer.phase {
      case Reading => ReadingEnergy(c, s, fault);
      case Parsing(_) => ParsingEnergy(c, s, fault);
      case Sending(_, _, _) => SendingEnergy(c, s, fault);
      case _ => EndingEnergy(c, s, fault);
    }
    ProducerTouches(c, s, fault);
    EnergyDescends(c, s, ProducerNext(c, s, fault).value);
  }

  /** What the decoder takes from one queue weighs more than what it adds to the other. */
  lemma {:induction false} QueuesDescend<P>(c: Setup<P>, s: State<P>, fault: bool)
    requires BoundInv(s) && DecoderNext(c, s, fault).Some? && !s.decoder.phase.Forwarding?
    ensures var t := DecoderNext(c, s, fault).value;
            && t.producer == s.producer && t.writer == s.writer && t.decodedQueue == s.decodedQueue
            && 5 * |t.rawQueue| + DecoderMeasure(t.decoder) < 5 * |s.rawQueue| + DecoderMeasure(s.decoder)
  {
  }

  lemma {:induction false} ForwardingDescends<P>(c: Setup<P>, s: State<P>, fault: bool)
    requires BoundInv(s) && DecoderNext(c, s, fault).Some? && s.decoder.phase.Forwarding?
    ensures var t := DecoderNext(c, s, fault).value;
            && t.producer == s.producer && t.writer == s.writer
            && 5 * |t.rawQueue| + DecoderMeasure(t.decoder) + 2 * |Flatten(t.decodedQueue)|
               < 5 * |s.rawQueue| + DecoderMeasure(s.decoder) + 2 * |Flatten(s.decodedQueue)|
  {
    FlattenSnoc(s.decodedQueue, s.decoder.phase.decoded);
  }

  lemma {:induction false} DecoderDescends<P>(c: Setup<P>, s: State<P>, fault: bool)
    requires BoundInv(s) && DecoderNext(c, s, fault).Some?
    ensures Measure(c, DecoderNext(c, s, fault).value) < Measure(c, s)
  {
    if s.decoder.phase.Forwarding? {
      ForwardingDescends(c, s, fault);
    } else {
      QueuesDescend(c, s, fault);
    }
  }

  lemma {:induction false} WriterDescends<P>(c: Setup<P>, s: State<P>, fault: bool)
    requires BoundInv(s) && WriterNext(c, s, fault).Some?
    ensures Measure(c, WriterNext(c, s, fault).value) < Measure(c, s)
  {
    if s.writer.phase.Waiting? && s.decodedQueue != [] {
      assert 1 <= |s.decodedQueue[0]|;
    }
  }

  lemma {:induction false} EveryStepDescends<P>(c: Setup<P>, s: State<P>, t: State<P>)
    requires Inv(c, s) && Next(c, s, t)
    ensures Measure(c, t) < Measure(c, s)
  {
    var stage, fault :| NextOf(c, s, stage, fault) == Some(t);
    match stage
    case ProducerStage => ProducerDescends(c, s, fault);
    case DecoderStage => DecoderDescends(c, s, fault);
    case WriterStage => WriterDescends(c, s, fault);
  }

  // ---------------------------------------------------------------- runs

  ghost predicate IsRun<P>(c: Setup<P>, run: seq<State<P>>) {
    && |run| > 0 && run[0] == Initial(c)
    && forall i {:trigger run[i]} :: 0 < i < |run| ==> Next(c, run[i - 1], run[i])
  }

  lemma {:induction false} RunInv<P>(c: Setup<P>, run: seq<State<P>>, i: nat)
    requires IsRun(c, run) && i < |run|
    ensures Inv(c, run[i])
    ensures Measure(c, run[i]) + i <= Measure(c, Initial(c))
  {
    if i == 0 {
      InitialInv(c);
    } else {
      RunInv(c, run, i - 1);
      assert Next(c, run[i - 1], run[i]);
      InvKept(c, run[i - 1], run[i]);
      EveryStepDescends(c, run[i - 1], run[i]);
    }
  }

  /**
   * Under any scheduling and any failures: every state of a run keeps the invariant, no run is
   * longer than the measure of its start, and a run that cannot go on has ended all its stages.
   */
  lemma {:induction false} RunsTerminate<P>(c: Setup<P>, run: seq<State<P>>)
    requires IsRun(c, run)
    ensures forall i :: 0 <= i < |run| ==> Inv(c, run[i])
    ensures |run| <= Measure(c, Initial(c)) + 1
    ensures Stuck(c, run[|run| - 1]) <==> Terminal(run[|run| - 1])
  {
    forall i | 0 <= i < |run| ensures Inv(c, run[i]) {
      RunInv(c, run, i);
    }
    RunInv(c, run, |run| - 1);
    NoDeadlock(c, run[|run| - 1]);
  }

  // ---------------------------------------------------------------- meaning

  /** What the pipeline computes: the decoded frames of all sectors, unless one of them is bad. */
  function Reference<P>(c: Setup<P>): Result<seq<Audio>, StageError> {
    if Parses(c, c.Sectors()) && AllDecode(c, AllFrames(c)) then Ok(Values(c, AllFrames(c))) else Err(StageError)
  }

  lemma {:induction false} OksInjective(a: seq<Audio>, b: seq<Audio>)
    requires Oks(a) == Oks(b)
    ensures a == b
  {
    forall i | 0 <= i < |a| ensures a[i] == b[i] {
      assert Oks(a)[i] == Oks(b)[i];
    }
  }

  lemma {:induction false} SuccessMeansReference<P>(c: Setup<P>, s: State<P>)
    requires Inv(c, s) && Terminal(s) && Outcome(s).Ok?
    ensures Reference(c) == Outcome(s)
  {
    var written, all := s.writer.written, AllFrames(c);
    assert written + ([] + ([] + [])) == written;
    assert Oks(written) == Decoded(c, all) by {
      assert Conserved(c, s);
      assert Oks(written) + Decoded(c, [] + []) == Oks(written);
    }
    forall i | 0 <= i < |all| ensures c.decode(all[i]).Ok? {
      assert Decoded(c, all)[i] == Oks(written)[i];
    }
    OksOfValues(c, all);
    OksInjective(written, Values(c, all));
  }

  /**
   * The result of a complete run does not depend on the schedule: if it succeeds, it delivers
   * the in-order decode of every frame the parser yields for the sector range, `flush`
   * included; and it fails only if the sequential program does, or a fault occurred.
   */
  lemma {:induction false} CompleteRunMeansReference<P>(c: Setup<P>, run: seq<State<P>>)
    requires IsRun(c, run) && Terminal(run[|run| - 1])
    ensures var last := run[|run| - 1];
            && (Outcome(last).Ok? ==> Outcome(last) == Reference(c))
            && (!last.faults ==> Outcome(last) == Reference(c))
  {
    var last := run[|run| - 1];
    RunInv(c, run, |run| - 1);
    if Outcome(last).Ok? {
      SuccessMeansReference(c, last);
    }
  }

  lemma {:induction false} NoNewFault<P>(c: Setup<P>, s: State<P>, stage: Stage)
    requires NextOf(c, s, stage, false).Some?
    ensures NextOf(c, s, stage, false).value.faults == s.faults
  {
  }

  lemma {:induction false} RunSnoc<P>(c: Setup<P>, run: seq<State<P>>, next: State<P>)
    requires IsRun(c, run) && Next(c, run[|run| - 1], next)
    ensures IsRun(c, run + [next])
  {
    var longer := run + [next];
    forall i {:trigger longer[i]} | 0 < i < |longer| ensures Next(c, longer[i - 1], longer[i]) {
      if i < |run| {
        assert longer[i - 1] == run[i - 1] && longer[i] == run[i];
      }
    }
  }

  lemma {:induction false} StepOn<P>(c: Setup<P>, s: State<P>) returns (next: State<P>)
    requires Inv(c, s) && !Terminal(s)
    ensures Next(c, s, next) && next.faults == s.faults && Measure(c, next) < Measure(c, s)
  {
    var stage := SomeStageRuns(c, s);
    next := NextOf(c, s, stage, false).value;
    NoNewFault(c, s, stage);
    assert Next(c, s, next);
    EveryStepDescends(c, s, next);
  }

  /** A run that has not ended can go on without a fault, and gets closer to its end. */
  lemma {:induction false} OneMoreStep<P>(c: Setup<P>, run: seq<State<P>>) returns (longer: seq<State<P>>)
    requires IsRun(c, run) && !Terminal(run[|run| - 1])
    ensures IsRun(c, longer) && run <= longer
    ensures longer[|longer| - 1].faults == run[|run| - 1].faults
    ensures Measure(c, longer[|longer| - 1]) < Measure(c, run[|run| - 1])
  {
    RunInv(c, run, |run| - 1);
    var next := StepOn(c, run[|run| - 1]);
    RunSnoc(c, run, next);
    longer := run + [next];
  }

  /** Whatever has happened so far, the pipeline can be run to its end without any further fault. */
  lemma {:induction false} CanComplete<P>(c: Setup<P>, run: seq<State<P>>, bound: nat) returns (full: seq<State<P>>)
    requires IsRun(c, run) && Measure(c, run[|run| - 1]) <= bound
    ensures IsRun(c, full) && run <= full && Terminal(full[|full| - 1])
    ensures full[|full| - 1].faults == run[|run| - 1].faults
    decreases bound
  {
    if Terminal(run[|run| - 1]) {
      full := run;
    } else {
      var longer := OneMoreStep(c, run);
      full := CanComplete(c, longer, bound - 1);
    }
  }

  /** So every track has a complete run, and one that computes the sequential result. */
  lemma {:induction false} ReferenceIsReached<P>(c: Setup<P>) returns (run: seq<State<P>>)
    ensures IsRun(c, run) && Terminal(run[|run| - 1]) && Outcome(run[|run| - 1]) == Reference(c)
  {
    run := CanComplete(c, [Initial(c)], Measure(c, Initial(c)));
    CompleteRunMeansReference(c, run);
  }

  /** Even when a stage fails, what was written is a correctly decoded prefix of the track. */
  lemma {:induction false} WrittenIsPrefix<P>(c: Setup<P>, run: seq<State<P>>, i: nat)
    requires IsRun(c, run) && i < |run|
    ensures Oks(run[i].writer.written) <= Decoded(c, AllFrames(c))
  {
    RunInv(c, run, i);
    var s := run[i];
    OksConcat(s.writer.written, Ahead(s.writer) + Flatten(s.decodedQueue));
    var sent, all := s.producer.sent, AllFrames(c);
    PrefixSplit(sent, all);
    DecodedConcat(c, sent, all[|sent|..]);
  }
}
