/** Concrete runs that show why the hypotheses of the theorems about the adaptive pipelines
    are needed, and when exactly the books go wrong. */
module AdaptiveLimits {
  import opened WindowPolicy
  import C = CubicWindow
  import opened AdaptiveSpec
  import opened Network
  import opened Optional
  import opened Counting
  import opened AdaptiveInvariant
  import opened AdaptiveTheorems
  import opened AdaptiveProgress

  /** The default options of the CUBIC pipeline, with a finite slow start threshold. */
  const DEFAULTS := Options(Cubic(C.Options(1.0, 1000.0, 1.0, 0.2, true, false)), false, 3)

  const STEADY := C.Growth(0.0, 0.0)

  function SlowStart(cwnd: real): Window { CubicW(C.Window(cwnd, 1000.0, 0.0)) }

  // ------------------------------------------------------------------ the end is unknown

  /** When the last segment is unknown, a failure blocks all further requests; if the segments
      still in flight arrive without a FinalBlockId, nothing is left that could move the
      pipeline, although it has not stopped. */
  lemma UnknownEndCanWedge()
    ensures var w := Setting(Config(DEFAULTS, 3), 3, false);
            var events := [DataArrives(0, None, STEADY), NackArrives(2, OtherReason),
                           DataArrives(1, None, STEADY)];
            && Opens(w, None) && AllowedRun(w, Start(w.c, None), events)
            && !Moving(Run(w.c, Start(w.c, None), events))
  {
    hide Start, Step, Moving;
    var w := Setting(Config(DEFAULTS, 3), 3, false);
    var e1, e2, e3 := DataArrives(0, None, STEADY), NackArrives(2, OtherReason), DataArrives(1, None, STEADY);
    var s0 := Start(w.c, None);
    var s1 := Step(w.c, s0, e1);
    var s2 := Step(w.c, s1, e2);
    AfterStart(w.c, s0);
    AfterFirstData(w.c, s0);
    AfterNack(w.c, s1);
    AfterSecondData(w.c, s2);
    assert 2 in InFlight(s1.segmentInfo);
    RunOfThree(w, s0, e1, e2, e3);
  }

  /** One refusal is enough: of two segments in flight the first is given up, the second is
      still there when the engine asks whether any is left, and is then cancelled. */
  lemma GivingUpCanWedge()
    ensures var w := Setting(Config(DEFAULTS, 3), 3, false);
            var events := [DataArrives(0, None, STEADY), NackArrives(1, OtherReason)];
            && Opens(w, None) && AllowedRun(w, Start(w.c, None), events)
            && !Moving(Run(w.c, Start(w.c, None), events))
  {
    hide Start, Step, Moving, HandleFail;
    var w := Setting(Config(DEFAULTS, 3), 3, false);
    var e1, e2 := DataArrives(0, None, STEADY), NackArrives(1, OtherReason);
    var s0 := Start(w.c, None);
    var s1 := Step(w.c, s0, e1);
    AfterStart(w.c, s0);
    AfterFirstData(w.c, s0);
    assert 1 in InFlight(s1.segmentInfo) && 2 in s1.segmentInfo;
    GivingUpWedgesExactly(s1, 1);
    NackGivesUp(w.c, s1, 1);
    assert [e1, e2][1..] == [e2] && [e2][1..] == [];
    assert Run(w.c, s0, [e1, e2]) == Run(w.c, s1, [e2]) == Run(w.c, Step(w.c, s1, e2), []) == Step(w.c, s1, e2);
    assert AllowedRun(w, s1, [e2]);
  }

  lemma NackGivesUp(c: Config, s: Engine, segNo: nat)
    requires c.Fits(s.window) && s.outcome == Running
    ensures Step(c, s, NackArrives(segNo, OtherReason)) == HandleFail(s, segNo)
  {
  }

  /** Three events, one after the other. */
  lemma RunOfThree(w: Setting, s: Engine, e1: Event, e2: Event, e3: Event)
    requires w.c.Fits(s.window)
    ensures Run(w.c, s, [e1, e2, e3]) == Step(w.c, Step(w.c, Step(w.c, s, e1), e2), e3)
    ensures var s1 := Step(w.c, s, e1); var s2 := Step(w.c, s1, e2);
            AllowedRun(w, s, [e1, e2, e3]) <==> Allowed(w, s, e1) && Allowed(w, s1, e2) && Allowed(w, s2, e3)
  {
    hide Step, Allowed;
    var s1 := Step(w.c, s, e1);
    var s2 := Step(w.c, s1, e2);
    assert [e1, e2, e3][1..] == [e2, e3] && [e2, e3][1..] == [e3] && [e3][1..] == [];
    assert Run(w.c, s, [e1, e2, e3]) == Run(w.c, s1, [e2, e3]) == Run(w.c, s2, [e3])
        == Run(w.c, Step(w.c, s2, e3), []) == Step(w.c, s2, e3);
    assert AllowedRun(w, s2, [e3]) <==> Allowed(w, s2, e3);
    assert AllowedRun(w, s1, [e2, e3]) <==> Allowed(w, s1, e2) && AllowedRun(w, s2, [e3]);
  }

  lemma AfterStart(c: Config, s: Engine)
    requires c == Config(DEFAULTS, 3) && s == Start(c, None)
    ensures s.segmentInfo == map[0 := FirstTimeSent] && s.log.requests == [0] && s.retxQueue == []
    ensures s.outcome == Running && !s.hasFinalBlockId && !s.hasFailure
    ensures s.nInFlight == 1 && s.nextSegmentNo == 1 && s.window == SlowStart(1.0)
  {
  }

  /** Without a known end, accepting Data is booking it and using the window. */
  lemma AcceptedWithoutEnd(c: Config, s: Engine, segNo: nat)
    requires c.Fits(s.window) && s.outcome == Running && !s.hasFinalBlockId
    requires segNo in s.segmentInfo && s.segmentInfo[segNo] == FirstTimeSent
    ensures Step(c, s, DataArrives(segNo, None, STEADY))
            == SchedulePackets(c, Book(c, RaiseHighData(s, segNo), segNo, STEADY))
  {
    hide IncreaseWindow, ScheduleLoop;
  }

  lemma ScheduleTwo(c: Config, s: Engine)
    requires s.retxQueue == []
    ensures ScheduleLoop(c, s, 2) == SendNext(c, SendNext(c, s))
  {
    var s1 := SendNext(c, s);
    assert s1.retxQueue == [];
    assert ScheduleLoop(c, s, 2) == ScheduleLoop(c, s1, 1) == ScheduleLoop(c, SendNext(c, s1), 0);
  }

  lemma AfterFirstData(c: Config, s: Engine)
    requires c == Config(DEFAULTS, 3) && s == Start(c, None)
    ensures var r := Step(c, s, DataArrives(0, None, STEADY));
            && r.segmentInfo == map[1 := FirstTimeSent, 2 := FirstTimeSent] && r.retxQueue == []
            && r.log.requests == [0, 1, 2] && r.outcome == Running && !r.hasFinalBlockId && !r.hasFailure
            && r.nInFlight == 2 && r.window == SlowStart(2.0) && r.nextSegmentNo == 3
  {
    hide ScheduleLoop, Step, Start;
    AfterStart(c, s);
    var b := Book(c, RaiseHighData(s, 0), 0, STEADY);
    assert b.segmentInfo == map[] && b.window == SlowStart(2.0);
    AcceptedWithoutEnd(c, s, 0);
    ScheduleTwo(c, b);
  }

  lemma AfterNack(c: Config, s: Engine)
    requires s.segmentInfo == map[1 := FirstTimeSent, 2 := FirstTimeSent]
    requires s.outcome == Running && !s.hasFinalBlockId && s.retxQueue == []
    requires c.Fits(s.window) && s.nInFlight == 2
    ensures var r := Step(c, s, NackArrives(2, OtherReason));
            && r.segmentInfo == map[1 := FirstTimeSent] && r.retxQueue == [] && r.hasFailure
            && r.outcome == Running && !r.hasFinalBlockId && r.window == s.window
            && r.log.requests == s.log.requests
  {
    var info := s.segmentInfo - {2};
    assert info == map[1 := FirstTimeSent];
    assert 1 in info;
    assert info - (set k | k in info && k > 2) == info;
  }

  lemma AfterSecondData(c: Config, s: Engine)
    requires c.Fits(s.window) && s.outcome == Running && !s.hasFinalBlockId
    requires s.segmentInfo == map[1 := FirstTimeSent] && s.retxQueue == [] && s.hasFailure
    ensures !Moving(Step(c, s, DataArrives(1, None, STEADY)))
  {
    hide ScheduleLoop, Step, IncreaseWindow;
    var b := Book(c, RaiseHighData(s, 1), 1, STEADY);
    assert b.segmentInfo == map[];
    AcceptedWithoutEnd(c, s, 1);
    BlockedSendsNothing(c, b, AvailableWindow(b));
  }

  lemma {:induction false} BlockedSendsNothing(c: Config, s: Engine, available: int)
    requires s.hasFailure && s.retxQueue == [] && s.outcome == Running
    ensures ScheduleLoop(c, s, available) == s.(nextSegmentNo := ScheduleLoop(c, s, available).nextSegmentNo)
    decreases available
  {
    if available > 0 {
      BlockedSendsNothing(c, SendNext(c, s), available - 1);
    }
  }

  // ------------------------------------------------------------------ expiries out of turn

  /** A lifetime expiry leaves the books balanced, before the window is used again, exactly when
      the segment was in flight, or when there was no unit to give back.  The handler does not
      ask, and moves any other segment, or queues it once more. */
  lemma ExpiryBalancesExactly(w: Setting, s: Engine, segNo: nat)
    requires Inv(w, s) && w.known && s.outcome == Running
    ensures var r := Enqueue(s, segNo);
            Minus(s.nInFlight, 1) == |InFlight(r.segmentInfo)| <==>
              segNo in InFlight(s.segmentInfo) || s.nInFlight == 0
  {
    assert s.nInFlight == |InFlight(s.segmentInfo)|;
    hide Inv, InFlight;
    InFlightUpdated(s.segmentInfo, segNo, InRetxQueue);
  }

  /** Six segments, the last one discovered first, with its FinalBlockId. */
  const SIX := Setting(Config(DEFAULTS, 5), 5, true)

  /** A lifetime expiry for a segment that already waits in the retransmission queue, which the
      assumptions on the network exclude: the segment is resent and still queued, and one unit
      in flight goes uncounted. */
  lemma ExpiryWhileQueuedMiscounts()
    ensures var before := [DataArrives(0, None, STEADY), DataArrives(1, None, STEADY), RtoTick([2])];
            var s := Run(SIX.c, Start(SIX.c, Some(5)), before);
            var r := Step(SIX.c, s, LifetimeExpires(2));
            && Opens(SIX, Some(5)) && AllowedRun(SIX, Start(SIX.c, Some(5)), before)
            && s.segmentInfo == map[2 := InRetxQueue, 3 := FirstTimeSent, 4 := FirstTimeSent]
            && s.nInFlight == 2
            && r.segmentInfo == map[2 := Retransmitted, 3 := FirstTimeSent, 4 := FirstTimeSent]
            && r.nInFlight == 2 && InFlight(r.segmentInfo) == {2, 3, 4} && r.retxQueue == [2]
  {
    hide Start, Step, Run, AllowedRun;
    var e1, e2, e3 := DataArrives(0, None, STEADY), DataArrives(1, None, STEADY), RtoTick([2]);
    var s0 := Start(SIX.c, Some(5));
    var s1 := Step(SIX.c, s0, e1);
    var s2 := Step(SIX.c, s1, e2);
    var s3 := Step(SIX.c, s2, e3);
    StartOfSix(s0);
    FirstOfSix(s0);
    SecondOfSix(s1);
    TimerOfSix(s2);
    ExpiryOfSix(s3);
    RunOfThree(SIX, s0, e1, e2, e3);
  }

  /** What stays the same in the run. */
  ghost predicate Steady(s: Engine) {
    && s.outcome == Running && s.hasFinalBlockId && s.lastSegmentNo == 5 && !s.hasFailure && s.retxCount == map[]
  }

  lemma StartOfSix(s: Engine)
    requires s == Start(SIX.c, Some(5))
    ensures Steady(s) && s.segmentInfo == map[0 := FirstTimeSent] && s.log.requests == [0] && s.retxQueue == []
    ensures s.nInFlight == 1 && s.nReceived == 1 && s.nextSegmentNo == 1 && s.highInterest == 0
    ensures s.highData == 0 && s.recPoint == 0 && s.window == SlowStart(1.0)
  {
  }

  /** Data that does not complete the content is booked, and the window used. */
  lemma AcceptedOfSix(s: Engine, segNo: nat)
    requires Steady(s) && s.nReceived < 5 && SIX.c.Fits(s.window)
    requires segNo in s.segmentInfo && s.segmentInfo[segNo] == FirstTimeSent
    ensures Step(SIX.c, s, DataArrives(segNo, None, STEADY))
            == SchedulePackets(SIX.c, Book(SIX.c, RaiseHighData(s, segNo), segNo, STEADY))
  {
    hide IncreaseWindow, ScheduleLoop;
  }

  lemma FirstOfSix(s: Engine)
    requires Steady(s) && s.segmentInfo == map[0 := FirstTimeSent] && s.log.requests == [0] && s.retxQueue == []
    requires s.nInFlight == 1 && s.nReceived == 1 && s.nextSegmentNo == 1 && s.highData == 0 && s.recPoint == 0
    requires s.window == SlowStart(1.0)
    ensures var r := Step(SIX.c, s, DataArrives(0, None, STEADY));
            && Steady(r) && r.segmentInfo == map[1 := FirstTimeSent, 2 := FirstTimeSent]
            && r.log.requests == [0, 1, 2] && r.retxQueue == []
            && r.nInFlight == 2 && r.nReceived == 2 && r.nextSegmentNo == 3 && r.highInterest == 2
            && r.highData == 0 && r.recPoint == 0 && r.window == SlowStart(2.0)
  {
    hide ScheduleLoop, Step;
    var b := Book(SIX.c, RaiseHighData(s, 0), 0, STEADY);
    assert b.segmentInfo == map[] && b.window == SlowStart(2.0);
    AcceptedOfSix(s, 0);
    ScheduleTwo(SIX.c, b);
  }

  lemma SecondOfSix(s: Engine)
    requires Steady(s) && s.segmentInfo == map[1 := FirstTimeSent, 2 := FirstTimeSent]
    requires s.log.requests == [0, 1, 2] && s.retxQueue == []
    requires s.nInFlight == 2 && s.nReceived == 2 && s.nextSegmentNo == 3 && s.highData == 0 && s.recPoint == 0
    requires s.window == SlowStart(2.0)
    ensures var r := Step(SIX.c, s, DataArrives(1, None, STEADY));
            && Steady(r) && r.segmentInfo == map[2 := FirstTimeSent, 3 := FirstTimeSent, 4 := FirstTimeSent]
            && r.retxQueue == [] && r.nInFlight == 3 && r.highData == 1 && r.recPoint == 0 && r.highInterest == 4
            && r.window == SlowStart(3.0)
  {
    hide ScheduleLoop, Step;
    var b := Book(SIX.c, RaiseHighData(s, 1), 1, STEADY);
    assert b.segmentInfo == map[2 := FirstTimeSent] && b.window == SlowStart(3.0) && b.nInFlight == 1;
    AcceptedOfSix(s, 1);
    ScheduleTwo(SIX.c, b);
  }

  /** The window goes from 3 to 2.4, and the queued segment has to wait. */
  lemma TimerOfSix(s: Engine)
    requires Steady(s) && s.segmentInfo == map[2 := FirstTimeSent, 3 := FirstTimeSent, 4 := FirstTimeSent]
    requires s.retxQueue == [] && s.nInFlight == 3 && s.highData == 1 && s.recPoint == 0 && s.highInterest == 4
    requires s.window == SlowStart(3.0)
    ensures var r := Step(SIX.c, s, RtoTick([2]));
            && Steady(r) && r.segmentInfo == map[2 := InRetxQueue, 3 := FirstTimeSent, 4 := FirstTimeSent]
            && r.retxQueue == [2] && r.nInFlight == 2 && r.highData == 1 && r.recPoint == 4
            && SIX.c.Fits(r.window) && r.window.Cwnd() == 2.4
  {
    var q := Enqueue(s, 2);
    assert [2][1..] == [];
    assert ExpireTimers(q, []) == q && CountExpired(q, []) == 0;
    assert ExpireTimers(s, [2]) == q && CountExpired(s, [2]) == 1;
    assert ReactToLoss(SIX.c, q).window.Cwnd() == 2.4;
  }

  lemma ExpiryOfSix(s: Engine)
    requires Steady(s) && s.segmentInfo == map[2 := InRetxQueue, 3 := FirstTimeSent, 4 := FirstTimeSent]
    requires s.retxQueue == [2] && s.nInFlight == 2 && s.highData == 1 && s.recPoint == 4
    requires SIX.c.Fits(s.window) && s.window.Cwnd() == 2.4
    ensures var r := Step(SIX.c, s, LifetimeExpires(2));
            && r.segmentInfo == map[2 := Retransmitted, 3 := FirstTimeSent, 4 := FirstTimeSent]
            && r.nInFlight == 2 && r.retxQueue == [2]
  {
    hide ScheduleLoop;
    var s1 := Enqueue(s, 2).(nInFlight := 1);
    assert s1.segmentInfo == s.segmentInfo;
    assert AvailableWindow(s1) == 1;
    ScheduleOneQueued(SIX.c, s1, 2);
  }

  lemma ScheduleOneQueued(c: Config, s: Engine, segNo: nat)
    requires s.retxQueue == [segNo, segNo] && segNo in s.segmentInfo
    ensures ScheduleLoop(c, s, 1) == Resend(c, s.(retxQueue := [segNo]), segNo)
  {
    hide Resend;
    assert s.retxQueue[1..] == [segNo];
    assert ScheduleLoop(c, s, 1) == ScheduleLoop(c, Resend(c, s.(retxQueue := [segNo]), segNo), 0);
  }
}
