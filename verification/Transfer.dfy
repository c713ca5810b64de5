/** Producer, fixed-window pipeline and consumer together: what comes out is what went in. */
module Transfer {
  import opened Network
  import opened Optional
  import opened Bytes
  import opened Counting
  import opened FixedWindowSpec
  import opened FixedWindowInvariant
  import opened FixedWindowTheorems
  import F = DataFetcherSpec
  import P = Producer
  import C = Consumer

  /** What the network brings to the pipeline. */
  datatype Answer =
    | Packet(data: P.Data)
    | Refused(segNo: nat, reason: NackReason)
    | Expired(segNo: nat)
    | Woken(segNo: nat)

  /** Packets may be lost, repeated, delayed and reordered, but not made up. */
  ghost predicate Honest(pieces: seq<Octets>, answers: seq<Answer>) {
    forall i :: 0 <= i < |answers| && answers[i].Packet? ==> P.Genuine(pieces, answers[i].data)
  }

  function AsEvent(a: Answer): Event {
    match a
    case Packet(data) => DataFor(data.segNo, data.finalBlockId)
    case Refused(segNo, reason) => NackFor(segNo, reason)
    case Expired(segNo) => TimeoutFor(segNo)
    case Woken(segNo) => WakeFor(segNo)
  }

  function AsEvents(answers: seq<Answer>): (events: seq<Event>)
    ensures |events| == |answers| && forall i :: 0 <= i < |events| ==> events[i] == AsEvent(answers[i])
  {
    seq(|answers|, i requires 0 <= i < |answers| => AsEvent(answers[i]))
  }

  datatype System = System(pipeline: Pipeline, consumer: C.State)

  /** Whether an answer is Data that a running fetcher waits for, and so reaches the consumer. */
  ghost predicate Accepted(p: Pipeline, a: Answer) {
    a.Packet? && a.data.segNo in p.fetches && p.Runs(a.data.segNo)
  }

  ghost function SystemStep(c: Config, s: System, a: Answer): System
    requires WellBound(c, s.pipeline)
  {
    System(Step(c, s.pipeline, AsEvent(a)),
           if Accepted(s.pipeline, a) then C.OnData(s.consumer, a.data.segNo, a.data.content) else s.consumer)
  }

  ghost function SystemRun(w: Setting, s: System, answers: seq<Answer>, filled: nat): System
    requires Inv(w, s.pipeline, filled)
    requires forall e :: e in AsEvents(answers) ==> Allowed(w, e)
    decreases |answers|
  {
    if answers == [] then s
    else
      assert AsEvents(answers)[0] == AsEvent(answers[0]) && AsEvents(answers)[1..] == AsEvents(answers[1..]);
      InvIsWellBound(w, s.pipeline, filled);
      StepKeeps(w, s.pipeline, AsEvent(answers[0]), filled);
      SystemRun(w, SystemStep(w.c, s, answers[0]), answers[1..], filled)
  }

  ghost function SettingFor(limits: F.Limits, pipelineSize: nat, pieces: seq<Octets>, first: P.Data): Setting
    requires |pieces| >= 1
  {
    Setting(Config(limits, pipelineSize, first.segNo), |pieces| - 1)
  }

  /** The consumer takes in the discovered packet and starts the pipeline with it. */
  ghost function Transferred(limits: F.Limits, pipelineSize: nat, pieces: seq<Octets>, first: P.Data,
                             answers: seq<Answer>): System
    requires pipelineSize >= 1 && P.Genuine(pieces, first) && Honest(pieces, answers)
  {
    var w := SettingFor(limits, pipelineSize, pieces, first);
    SystemRun(w, System(Start(w.c, first.finalBlockId), C.OnData(C.FRESH, first.segNo, first.content)),
              answers, FilledAtStart(w, first.finalBlockId))
  }

  // ------------------------------------------------------------------ pipeline and consumer

  lemma StepDelivers(c: Config, p: Pipeline, e: Event)
    requires WellBound(c, p)
    requires p.isStopping ==> forall k :: k in p.fetches ==> !p.Runs(k)
    ensures Step(c, p, e).delivered ==
            p.delivered + if e.DataFor? && e.segNo in p.fetches && p.Runs(e.segNo) then [e.segNo] else []
  {
    if e.segNo in p.fetches {
      forall q: Pipeline
        ensures OnFailure(q).delivered == q.delivered
      {
        OnFailureFrame(q);
      }
    }
  }

  lemma {:induction false} ReceiveOne(c: C.State, arrivals: seq<nat>, k: nat, pieces: seq<Octets>)
    requires C.WithinPieces(arrivals, pieces) && k < |pieces|
    ensures C.Receive(c, arrivals + [k], pieces) == C.OnData(C.Receive(c, arrivals, pieces), k, pieces[k])
    decreases |arrivals|
  {
    if arrivals == [] {
      assert (arrivals + [k])[1..] == [];
    } else {
      assert (arrivals + [k])[1..] == arrivals[1..] + [k];
      ReceiveOne(C.OnData(c, arrivals[0], pieces[arrivals[0]]), arrivals[1..], k, pieces);
    }
  }

  /** The consumer has received exactly the discovered segment and what the pipeline delivered. */
  ghost predicate InStep(s: System, first: nat, pieces: seq<Octets>) {
    && C.WithinPieces([first] + s.pipeline.delivered, pieces)
    && s.consumer == C.Receive(C.FRESH, [first] + s.pipeline.delivered, pieces)
  }

  lemma StepStaysInStep(c: Config, s: System, a: Answer, first: nat, pieces: seq<Octets>)
    requires WellBound(c, s.pipeline) && InStep(s, first, pieces) && (a.Packet? ==> P.Genuine(pieces, a.data))
    requires s.pipeline.isStopping ==> forall k :: k in s.pipeline.fetches ==> !s.pipeline.Runs(k)
    ensures InStep(SystemStep(c, s, a), first, pieces)
  {
    hide WellBound, Step, C.OnData, C.Receive;
    StepDelivers(c, s.pipeline, AsEvent(a));
    var r := SystemStep(c, s, a);
    if Accepted(s.pipeline, a) {
      ReceiveOne(C.FRESH, [first] + s.pipeline.delivered, a.data.segNo, pieces);
      assert [first] + r.pipeline.delivered == [first] + s.pipeline.delivered + [a.data.segNo];
    } else {
      assert r.pipeline.delivered == s.pipeline.delivered;
    }
  }

  lemma {:induction false} RunStaysInStep(w: Setting, s: System, answers: seq<Answer>, filled: nat,
                                          first: nat, pieces: seq<Octets>)
    requires Inv(w, s.pipeline, filled) && InStep(s, first, pieces) && Honest(pieces, answers)
    requires w.content == |pieces| - 1
    requires forall e :: e in AsEvents(answers) ==> Allowed(w, e)
    ensures var r := SystemRun(w, s, answers, filled);
            InStep(r, first, pieces) && r.pipeline == Run(w, s.pipeline, AsEvents(answers), filled)
    decreases |answers|
  {
    hide Inv, WellBound, Step, InStep, C.OnData, P.Genuine, Quenched;
    if answers != [] {
      var a := answers[0];
      assert AsEvents(answers)[0] == AsEvent(a) && AsEvents(answers)[1..] == AsEvents(answers[1..]);
      InvIsWellBound(w, s.pipeline, filled);
      StepKeeps(w, s.pipeline, AsEvent(a), filled);
      StopQuenches(w, s.pipeline, filled);
      StepStaysInStep(w.c, s, a, first, pieces);
      RunStaysInStep(w, SystemStep(w.c, s, a), answers[1..], filled, first, pieces);
    }
  }

  lemma StopQuenches(w: Setting, p: Pipeline, filled: nat)
    requires Inv(w, p, filled)
    ensures p.isStopping ==> forall k :: k in p.fetches ==> !p.Runs(k)
  {
  }

  lemma StartsInStep(limits: F.Limits, pipelineSize: nat, pieces: seq<Octets>, first: P.Data)
    requires pipelineSize >= 1 && P.Genuine(pieces, first)
    ensures var w := SettingFor(limits, pipelineSize, pieces, first);
            InStep(System(Start(w.c, first.finalBlockId), C.OnData(C.FRESH, first.segNo, first.content)),
                   first.segNo, pieces)
  {
    var w := SettingFor(limits, pipelineSize, pieces, first);
    FillDeliversNothing(w.c, Fresh(w.c, first.finalBlockId), 0);
    assert [first.segNo] + [] == [first.segNo];
    assert [first.segNo][1..] == [];
  }

  lemma {:induction false} FillDeliversNothing(c: Config, p: Pipeline, i: nat)
    requires |p.slots| == c.pipelineSize && i <= c.pipelineSize
    ensures FillPipes(c, p, i).delivered == p.delivered
    decreases c.pipelineSize - i
  {
    if i < c.pipelineSize {
      OnFailureFrame(p);
      if CanFetch(c, p) {
        FillDeliversNothing(c, FetchNextSegment(c, p, i), i + 1);
      }
    }
  }

  // ------------------------------------------------------------------ end to end

  lemma FirstAndRest(first: nat, rest: seq<nat>, last: nat)
    requires Distinct(rest) && first !in rest
    ensures Distinct([first] + rest)
    ensures (forall k: nat :: k <= last && k != first ==> k in rest) ==>
              forall k: nat :: k <= last ==> k in [first] + rest
  {
    assert forall k :: k in [first] + rest <==> k == first || k in rest;
  }

  /** The run of the whole system is a run of its pipeline. */
  lemma PipelineRuns(limits: F.Limits, pipelineSize: nat, pieces: seq<Octets>, first: P.Data, answers: seq<Answer>)
    requires pipelineSize >= 1 && P.Genuine(pieces, first) && Honest(pieces, answers)
    ensures var s := Transferred(limits, pipelineSize, pieces, first, answers);
            var w := SettingFor(limits, pipelineSize, pieces, first);
            InStep(s, first.segNo, pieces) && s.pipeline == Reached(w, first.finalBlockId, AsEvents(answers))
  {
    var w := SettingFor(limits, pipelineSize, pieces, first);
    var filled := FilledAtStart(w, first.finalBlockId);
    var s := System(Start(w.c, first.finalBlockId), C.OnData(C.FRESH, first.segNo, first.content));
    hide Inv, C.OnData, C.Receive, Start, SystemRun, Run, InStep;
    StartsInStep(limits, pipelineSize, pieces, first);
    RunStaysInStep(w, s, answers, filled, first.segNo, pieces);
  }

  /** What the consumer has received: distinct segments, and all of them if nothing has
      failed and no fetcher runs any more. */
  lemma Arrived(limits: F.Limits, pipelineSize: nat, pieces: seq<Octets>, first: P.Data, answers: seq<Answer>)
    requires pipelineSize >= 1 && P.Genuine(pieces, first) && Honest(pieces, answers)
    ensures var s := Transferred(limits, pipelineSize, pieces, first, answers);
            var arrivals := [first.segNo] + s.pipeline.delivered;
            && InStep(s, first.segNo, pieces) && Distinct(arrivals)
            && (!s.pipeline.isStopping && Quiet(s.pipeline) ==> forall k: nat :: k < |pieces| ==> k in arrivals)
  {
    hide Transferred, Reached, Quiet, C.Receive;
    var w := SettingFor(limits, pipelineSize, pieces, first);
    PipelineRuns(limits, pipelineSize, pieces, first, answers);
    DeliveredAtMostOnce(w, first.finalBlockId, AsEvents(answers));
    QuietMeansComplete(w, first.finalBlockId, AsEvents(answers));
    FirstAndRest(first.segNo, Reached(w, first.finalBlockId, AsEvents(answers)).delivered, w.content);
  }

  lemma Printed(arrivals: seq<nat>, pieces: seq<Octets>)
    requires Distinct(arrivals) && C.WithinPieces(arrivals, pieces)
    ensures var c := C.Receive(C.FRESH, arrivals, pieces);
            && c.nextToPrint <= |pieces| && c.output == Concat(pieces[..c.nextToPrint])
            && c.nextToPrint !in arrivals
            && ((forall k: nat :: k < |pieces| ==> k in arrivals) ==> c.output == Concat(pieces))
  {
    C.DistinctIsTimely(C.FRESH, {}, arrivals, pieces);
    C.OutputIsInOrder(arrivals, pieces);
    var c := C.Receive(C.FRESH, arrivals, pieces);
    if c.nextToPrint == |pieces| {
      assert pieces[..c.nextToPrint] == pieces;
    }
  }

  /** For every content, every genuine packet discovered first, and every order of Data, Nacks
      and timeouts: the consumer has printed the pieces up to the first one still missing, and
      all of them if nothing has failed and no fetcher runs any more. */
  lemma PiecesComeOutInOrder(limits: F.Limits, pipelineSize: nat, pieces: seq<Octets>, first: P.Data,
                             answers: seq<Answer>)
    requires pipelineSize >= 1 && P.Genuine(pieces, first) && Honest(pieces, answers)
    ensures var s := Transferred(limits, pipelineSize, pieces, first, answers);
            && s.consumer.nextToPrint <= |pieces|
            && s.consumer.output == Concat(pieces[..s.consumer.nextToPrint])
            && s.consumer.nextToPrint !in [first.segNo] + s.pipeline.delivered
            && (!s.pipeline.isStopping && Quiet(s.pipeline) ==> s.consumer.output == Concat(pieces))
  {
    hide Transferred, Quiet, C.Receive;
    Arrived(limits, pipelineSize, pieces, first, answers);
    var s := Transferred(limits, pipelineSize, pieces, first, answers);
    Printed([first.segNo] + s.pipeline.delivered, pieces);
  }

  lemma {:induction false} PrefixOfConcat(pieces: seq<Octets>, n: nat)
    requires n <= |pieces|
    ensures Concat(pieces[..n]) <= Concat(pieces)
  {
    assert pieces == pieces[..n] + pieces[n..];
    ConcatAppend(pieces[..n], pieces[n..]);
  }

  /** End to end: whatever the input, the segment size, the pipeline size, the retry limits,
      the segment discovered first and the behaviour of the network, the consumer's output is a
      prefix of the producer's input; and when the pipeline has not failed and no fetcher runs
      any more, it is the whole input. */
  lemma EndToEnd(input: Octets, maxSegmentSize: nat, limits: F.Limits, pipelineSize: nat, discovered: nat,
                 answers: seq<Answer>)
    requires maxSegmentSize >= 1 && pipelineSize >= 1
    requires discovered < |P.Chunks(input, maxSegmentSize)|
    requires Honest(P.Chunks(input, maxSegmentSize), answers)
    ensures var pieces := P.Chunks(input, maxSegmentSize);
            var store := P.Packets(pieces, Some(|pieces| - 1));
            var s := Transferred(limits, pipelineSize, pieces, store[discovered], answers);
            && s.consumer.output <= input && s.consumer.nextToPrint <= |pieces|
            && s.consumer.output == Concat(pieces[..s.consumer.nextToPrint])
            && (!s.pipeline.isStopping && Quiet(s.pipeline) ==> s.consumer.output == input)
  {
    hide Transferred, Quiet, P.Chunks, Concat, Honest;
    var pieces := P.Chunks(input, maxSegmentSize);
    var store := P.Packets(pieces, Some(|pieces| - 1));
    var s := Transferred(limits, pipelineSize, pieces, store[discovered], answers);
    PiecesComeOutInOrder(limits, pipelineSize, pieces, store[discovered], answers);
    P.ChunksMakeUpInput(input, maxSegmentSize);
    PrefixOfConcat(pieces, s.consumer.nextToPrint);
  }
}
