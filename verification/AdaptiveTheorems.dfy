/** What the adaptive pipelines guarantee over every run on a network that meets `Allowed`. */
module AdaptiveTheorems {
  import opened WindowPolicy
  import C = CubicWindow
  import opened AdaptiveSpec
  import opened Network
  import opened Optional
  import opened AdaptiveInvariant
  import opened Counting

  /** Every event of the run meets the network assumptions when it happens. */
  ghost predicate AllowedRun(w: Setting, s: Engine, events: seq<Event>)
    requires w.c.Fits(s.window)
    decreases |events|
  {
    events == [] ||
    (Allowed(w, s, events[0]) && AllowedRun(w, Step(w.c, s, events[0]), events[1..]))
  }

  /** The FinalBlockId of the discovered segment, if any, is that of the content. */
  ghost predicate Opens(w: Setting, finalBlockId: Option<nat>) {
    && Sound(w) && w.known == finalBlockId.Some?
    && (w.known ==> finalBlockId.value == w.content)
  }

  lemma {:induction false} RunKeeps(w: Setting, s: Engine, events: seq<Event>)
    requires Sound(w) && w.c.Fits(s.window) && Inv(w, s) && AllowedRun(w, s, events)
    ensures Inv(w, Run(w.c, s, events))
    decreases |events|
  {
    hide Inv, Allowed, Step;
    if events != [] {
      StepKeeps(w, s, events[0]);
      RunKeeps(w, Step(w.c, s, events[0]), events[1..]);
    }
  }

  lemma ReachableInv(w: Setting, finalBlockId: Option<nat>, events: seq<Event>)
    requires Opens(w, finalBlockId) && AllowedRun(w, Start(w.c, finalBlockId), events)
    ensures Inv(w, Run(w.c, Start(w.c, finalBlockId), events))
  {
    hide Inv, Allowed, Step, Start;
    StartKeeps(w, finalBlockId);
    RunKeeps(w, Start(w.c, finalBlockId), events);
  }

  // ------------------------------------------------------------------ delivery

  /** Each segment is delivered at most once, whatever is duplicated, and never the excluded
      one; m_nReceived - 1 counts the deliveries. */
  lemma DeliveredAtMostOnce(w: Setting, finalBlockId: Option<nat>, events: seq<Event>)
    requires Opens(w, finalBlockId) && AllowedRun(w, Start(w.c, finalBlockId), events)
    ensures var s := Run(w.c, Start(w.c, finalBlockId), events);
            && Distinct(s.log.delivered) && |s.log.delivered| == s.nReceived - 1
            && forall k :: k in s.log.delivered ==> k <= w.content && k != w.c.excluded
  {
    ReachableInv(w, finalBlockId, events);
  }

  /** The success stop means that every segment but the excluded one has been delivered. */
  lemma SuccessIsComplete(w: Setting, finalBlockId: Option<nat>, events: seq<Event>)
    requires Opens(w, finalBlockId) && AllowedRun(w, Start(w.c, finalBlockId), events)
    ensures var s := Run(w.c, Start(w.c, finalBlockId), events);
            s.outcome == Succeeded ==>
              forall k: nat :: k in s.log.delivered <==> k <= w.content && k != w.c.excluded
  {
    ReachableInv(w, finalBlockId, events);
  }

  /** While the pipeline runs with the last segment known, every segment of the content is
      the excluded one, delivered, tracked, or not requested yet. */
  lemma NoSegmentIsLost(w: Setting, finalBlockId: Option<nat>, events: seq<Event>)
    requires Opens(w, finalBlockId) && AllowedRun(w, Start(w.c, finalBlockId), events)
    ensures var s := Run(w.c, Start(w.c, finalBlockId), events);
            s.outcome == Running && s.hasFinalBlockId ==>
              && s.lastSegmentNo == w.content
              && forall k: nat :: k <= w.content && k != w.c.excluded ==>
                   k in s.log.delivered || k in s.segmentInfo || k >= s.nextSegmentNo
  {
    ReachableInv(w, finalBlockId, events);
  }

  /** `failedSegNo` is the least of the segments given up so far, so that learning the last
      segment number fails the run exactly when some of them belong to the content. */
  lemma FailureIsSettledExactly(w: Setting, events: seq<Event>)
    requires Opens(w, None) && AllowedRun(w, Start(w.c, None), events)
    ensures var s := Run(w.c, Start(w.c, None), events);
            s.outcome == Running && !s.hasFinalBlockId ==>
              && (s.hasFailure <==> s.log.failures != [])
              && (s.hasFailure ==> s.failedSegNo in s.log.failures
                                   && forall k :: k in s.log.failures ==> s.failedSegNo <= k)
              && ((LearnFinalBlockId(s, w.content).outcome == Failed) <==>
                  (exists k :: k in s.log.failures && k <= w.content))
  {
    hide Run, Start, Inv, AllowedRun;
    ReachableInv(w, None, events);
    SettledExactly(w, Run(w.c, Start(w.c, None), events));
  }

  lemma SettledExactly(w: Setting, s: Engine)
    requires Inv(w, s)
    ensures s.outcome == Running && !s.hasFinalBlockId ==>
              && (s.hasFailure <==> s.log.failures != [])
              && (s.hasFailure ==> s.failedSegNo in s.log.failures
                                   && forall k :: k in s.log.failures ==> s.failedSegNo <= k)
              && ((LearnFinalBlockId(s, w.content).outcome == Failed) <==>
                  (exists k :: k in s.log.failures && k <= w.content))
  {
    hide Requested, Queued, Delivered, Accounted, Covered, Retried, Adapted, Complete;
    var f := s.log.failures;
    if s.outcome == Running && !s.hasFinalBlockId && s.hasFailure {
      assert f[|f| - 1] in f;
    }
  }

  /** m_nInFlight never exceeds the number of segments in flight and, when the last segment
      was known at the start, equals it. */
  lemma InFlightIsAccountedFor(w: Setting, finalBlockId: Option<nat>, events: seq<Event>)
    requires Opens(w, finalBlockId) && AllowedRun(w, Start(w.c, finalBlockId), events)
    ensures var s := Run(w.c, Start(w.c, finalBlockId), events);
            s.outcome == Running ==>
              && s.nInFlight <= |InFlight(s.segmentInfo)|
              && (finalBlockId.Some? ==> s.nInFlight == |InFlight(s.segmentInfo)|)
  {
    ReachableInv(w, finalBlockId, events);
  }

  lemma {:induction false} ExpiredWereInFlight(s: Engine, expired: seq<nat>)
    ensures CountExpired(s, expired) <= |InFlight(s.segmentInfo)|
    decreases |expired|
  {
    hide InFlight;
    if expired == [] {
    } else if TimerRuns(s, expired[0]) {
      InFlightUpdated(s.segmentInfo, expired[0], InRetxQueue);
      InFlightElsewhere(s.segmentInfo, expired[0], s.segmentInfo[expired[0]]);
      assert s.segmentInfo[expired[0] := s.segmentInfo[expired[0]]] == s.segmentInfo;
      ExpiredWereInFlight(Enqueue(s, expired[0]), expired[1..]);
    } else {
      ExpiredWereInFlight(s, expired[1..]);
    }
  }

  /** With the last segment known at the start no clamp of m_nInFlight at zero ever takes
      effect: Data, a Nack or an expiry of a segment in flight finds a unit to give back,
      however many timers have expired there are as many units, and the handlers that forget
      segments are not reached. */
  lemma ClampsNeverFire(w: Setting, events: seq<Event>, segNo: nat, expired: seq<nat>)
    requires Opens(w, Some(w.content)) && AllowedRun(w, Start(w.c, Some(w.content)), events)
    ensures var s := Run(w.c, Start(w.c, Some(w.content)), events);
            s.outcome == Running ==>
              && s.hasFinalBlockId
              && (segNo in InFlight(s.segmentInfo) ==> Minus(s.nInFlight, 1) == s.nInFlight - 1)
              && Minus(s.nInFlight, CountExpired(s, expired)) == s.nInFlight - CountExpired(s, expired)
  {
    hide Run, Start, AllowedRun, InFlight, CountExpired;
    ReachableInv(w, Some(w.content), events);
    var s := Run(w.c, Start(w.c, Some(w.content)), events);
    ExpiredWereInFlight(s, expired);
    if segNo in InFlight(s.segmentInfo) {
      SubsetSize({segNo}, InFlight(s.segmentInfo));
    }
  }

  // ------------------------------------------------------------------ traffic

  /** Segments are first requested in increasing order, never the excluded one, and each is
      retransmitted at most max(1, maxRetries) times. */
  lemma TrafficIsBounded(w: Setting, finalBlockId: Option<nat>, events: seq<Event>)
    requires Opens(w, finalBlockId) && AllowedRun(w, Start(w.c, finalBlockId), events)
    ensures var s := Run(w.c, Start(w.c, finalBlockId), events);
            && Increasing(s.log.requests) && w.c.excluded !in s.log.requests
            && forall k: nat :: Count(s.log.resent, k) <= RetryLimit(w.c)
                                && (k in s.log.resent ==> k in s.log.requests)
  {
    ReachableInv(w, finalBlockId, events);
  }

  /** Scheduling never sends more than the window has room for. */
  lemma {:induction false} ScheduleLoopFits(c: Config, s: Engine, available: int)
    ensures ScheduleLoop(c, s, available).nInFlight <= s.nInFlight + if available > 0 then available else 0
    decreases if available > 0 then available else 0, |s.retxQueue|
  {
    if available <= 0 {
    } else if s.retxQueue != [] {
      var segNo := s.retxQueue[0];
      var s1 := s.(retxQueue := s.retxQueue[1..]);
      if segNo !in s.segmentInfo {
        ScheduleLoopFits(c, s1, available);
      } else {
        ScheduleLoopFits(c, SendInterest(c, s1, segNo, true), available - 1);
      }
    } else {
      ScheduleLoopFits(c, SendNext(c, s), available - 1);
    }
  }

  lemma ScheduleRespectsWindow(c: Config, s: Engine)
    ensures SchedulePackets(c, s).nInFlight <= s.nInFlight
            || SchedulePackets(c, s).nInFlight <= s.window.Cwnd().Floor
  {
    ScheduleLoopFits(c, s, AvailableWindow(s));
  }

  // ------------------------------------------------------------------ loss events

  /** Only requested segments have arrived, also by each window decrease; and between two
      window decreases a segment has been first requested and has arrived. */
  ghost predicate Evidenced(w: Setting, s: Engine) {
    var m, a, r := s.log.lossMarks, s.log.arrivalMarks, s.log.requests;
    && (s.highData == 0 || s.highData in s.log.arrivals)
    && |a| == |m| && (forall i :: 0 <= i < |m| ==> m[i] <= |r| && a[i] <= |s.log.arrivals|)
    && (forall x :: 0 <= x < |s.log.arrivals| ==> s.log.arrivals[x] in r)
    && (forall i, x :: 0 <= i < |m| && 0 <= x < a[i] ==> s.log.arrivals[x] in r[..m[i]])
    && (!w.c.options.disableCwa ==> forall i :: 0 < i < |m| ==> NewArrival(s.log, i))
  }

  /** Before the window decrease `i`, and after the one before it, Data arrived for a segment
      that was first requested after the one before it. */
  ghost predicate NewArrival(log: Log, i: nat)
    requires 0 < i < |log.lossMarks| == |log.arrivalMarks|
  {
    exists j, x :: log.lossMarks[i - 1] <= j < log.lossMarks[i] && j < |log.requests|
                   && log.arrivalMarks[i - 1] <= x < log.arrivalMarks[i] && x < |log.arrivals|
                   && log.arrivals[x] == log.requests[j]
  }

  /** More requests and more arrivals keep the evidence. */
  lemma EvidenceLasts(w: Setting, s: Engine, r: Engine)
    requires Evidenced(w, s)
    requires r.log.lossMarks == s.log.lossMarks && r.log.arrivalMarks == s.log.arrivalMarks
    requires s.log.requests <= r.log.requests && s.log.arrivals <= r.log.arrivals
    requires forall x :: |s.log.arrivals| <= x < |r.log.arrivals| ==> r.log.arrivals[x] in s.log.requests
    requires r.highData == s.highData || r.highData in r.log.arrivals
    ensures Evidenced(w, r)
  {
    var m := s.log.lossMarks;
    assert forall k :: k in s.log.arrivals ==> k in r.log.arrivals;
    assert forall k :: k in s.log.requests ==> k in r.log.requests;
    assert forall i :: 0 <= i < |m| ==> r.log.requests[..m[i]] == s.log.requests[..m[i]];
    if !w.c.options.disableCwa {
      forall i | 0 < i < |m|
        ensures NewArrival(r.log, i)
      {
        StillNew(s.log, r.log, i);
      }
    }
  }

  /** The mark that a loss event leaves is a new one: its newest segment is beyond everything
      requested, and so everything received, by the mark before it. */
  lemma LossIsNews(w: Setting, s: Engine) returns (j: nat, x: nat)
    requires Requested(w, s) && Adapted(w, s) && Evidenced(w, s) && s.log.lossMarks != []
    requires s.highData > s.recPoint
    ensures var m, a := s.log.lossMarks, s.log.arrivalMarks;
            && m[|m| - 1] <= j < |s.log.requests| && a[|m| - 1] <= x < |s.log.arrivals|
            && s.log.arrivals[x] == s.log.requests[j]
  {
    hide NewArrival;
    var q, m := s.log.requests, s.log.lossMarks;
    j :| 0 <= j < |q| && q[j] == s.highData;
    x :| 0 <= x < |s.log.arrivals| && s.log.arrivals[x] == s.highData;
    assert q[m[|m| - 1] - 1] < q[j];
    assert q[j] !in q[..m[|m| - 1]];
  }

  /** What was new at a mark stays so when marks are added. */
  lemma StillNew(log: Log, more: Log, i: nat)
    requires 0 < i < |log.lossMarks| == |log.arrivalMarks| && NewArrival(log, i)
    requires |more.lossMarks| == |more.arrivalMarks|
    requires log.lossMarks <= more.lossMarks && log.arrivalMarks <= more.arrivalMarks
    requires log.requests <= more.requests && log.arrivals <= more.arrivals
    ensures NewArrival(more, i)
  {
  }

  lemma LossEventEvidenced(w: Setting, s: Engine)
    requires Sound(w) && w.c.Fits(s.window)
    requires Requested(w, s) && Adapted(w, s) && Evidenced(w, s) && s.log.requests != []
    ensures Evidenced(w, ReactToLoss(w.c, s))
  {
    hide DecreaseWindow, Requested, Adapted, NewArrival;
    var m, log := s.log.lossMarks, s.log;
    if IsLossEvent(w.c, s) {
      var r := ReactToLoss(w.c, s).log;
      assert r == log.(lossMarks := m + [|log.requests|], arrivalMarks := log.arrivalMarks + [|log.arrivals|]);
      assert log.requests[..|log.requests|] == log.requests;
      if !w.c.options.disableCwa {
        if m != [] {
          var j, x := LossIsNews(w, s);
          NewMark(r, |m|, j, x);
        }
        forall i | 0 < i < |m|
          ensures NewArrival(r, i)
        {
          StillNew(log, r, i);
        }
      }
    }
  }

  lemma NewMark(log: Log, i: nat, j: nat, x: nat)
    requires 0 < i < |log.lossMarks| == |log.arrivalMarks|
    requires log.lossMarks[i - 1] <= j < log.lossMarks[i] && j < |log.requests|
    requires log.arrivalMarks[i - 1] <= x < log.arrivalMarks[i] && x < |log.arrivals|
    requires log.arrivals[x] == log.requests[j]
    ensures NewArrival(log, i)
  {
  }

  lemma TimeoutEvidenced(w: Setting, s: Engine, timeoutCount: nat)
    requires Sound(w) && w.c.Fits(s.window)
    requires Requested(w, s) && Adapted(w, s) && Evidenced(w, s)
    requires timeoutCount > 0 ==> s.log.requests != []
    ensures Evidenced(w, HandleTimeout(w.c, s, timeoutCount))
  {
    if timeoutCount > 0 {
      var s1 := ReactToLoss(w.c, s);
      LossEventEvidenced(w, s);
      hide Evidenced, Requested, Adapted, ReactToLoss, ScheduleLoop;
      var s2 := s1.(nInFlight := Minus(s1.nInFlight, timeoutCount));
      EvidenceLasts(w, s1, SchedulePackets(w.c, s2));
    }
  }

  lemma RequeueEvidenced(w: Setting, s: Engine, segNo: nat)
    requires Sound(w) && w.c.Fits(s.window) && Inv(w, s) && Evidenced(w, s)
    requires segNo in InFlight(s.segmentInfo)
    ensures Evidenced(w, HandleTimeout(w.c, Enqueue(s, segNo), 1))
  {
    assert segNo in s.log.requests;
    var s1 := Enqueue(s, segNo);
    hide Evidenced, Requested, Delivered, Accounted, Failing, Covered, Retried, Adapted, Complete, HandleTimeout;
    EvidenceLasts(w, s, s1);
    SameRequests(w, s, s1);
    TimeoutEvidenced(w, s1, 1);
  }

  lemma CheckRtoEvidenced(w: Setting, s: Engine, expired: seq<nat>)
    requires Sound(w) && w.c.Fits(s.window) && Inv(w, s) && Evidenced(w, s)
    ensures Evidenced(w, CheckRto(w.c, s, expired))
  {
    if !s.IsStopping() {
      var s1 := ExpireTimers(s, expired);
      if CountExpired(s, expired) > 0 {
        ExpiredWasTracked(s, expired);
        var k :| k in s.segmentInfo;
        assert k in s.log.requests;
      }
      hide Evidenced, Requested, Delivered, Accounted, Failing, Covered, Retried, Adapted, Complete, HandleTimeout;
      EvidenceLasts(w, s, s1);
      SameRequests(w, s, s1);
      TimeoutEvidenced(w, s1, CountExpired(s, expired));
    }
  }

  lemma ReceiveEvidenced(w: Setting, s: Engine, segNo: nat, g: C.Growth)
    requires Sound(w) && w.c.Fits(s.window) && Evidenced(w, s) && segNo in s.log.requests
    ensures Evidenced(w, Receive(w.c, s, segNo, g))
  {
    hide Evidenced, Receive;
    ReceiveLogs(w.c, s, segNo, g);
    EvidenceLasts(w, s, Receive(w.c, s, segNo, g));
  }

  /** What receiving Data adds to the books that the evidence is drawn from. */
  lemma ReceiveLogs(c: Config, s: Engine, segNo: nat, g: C.Growth)
    requires c.Fits(s.window)
    ensures var r := Receive(c, s, segNo, g);
            && r.log.lossMarks == s.log.lossMarks && r.log.arrivalMarks == s.log.arrivalMarks
            && s.log.requests <= r.log.requests && r.log.arrivals == s.log.arrivals + [segNo]
            && (r.highData == s.highData || r.highData == segNo)
  {
    hide Accept;
    var s1 := RaiseHighData(s, segNo);
    if segNo in s1.segmentInfo && s1.segmentInfo[segNo] != RetxReceived {
      AcceptLogs(c, s1, segNo, g);
    } else {
      AcceptLogs(c, Subscripted(s1, segNo), segNo, g);
    }
  }

  lemma AcceptLogs(c: Config, s: Engine, segNo: nat, g: C.Growth)
    requires segNo in s.segmentInfo && s.segmentInfo[segNo] != RetxReceived && c.Fits(s.window)
    ensures var r := Accept(c, s, segNo, g);
            && r.log.lossMarks == s.log.lossMarks && r.log.arrivalMarks == s.log.arrivalMarks
            && s.log.requests <= r.log.requests && r.log.arrivals == s.log.arrivals && r.highData == s.highData
  {
    hide IncreaseWindow, ScheduleLoop;
  }

  lemma DataEvidenced(w: Setting, s: Engine, segNo: nat, final: Option<nat>, g: C.Growth)
    requires Sound(w) && w.c.Fits(s.window) && Evidenced(w, s)
    requires s.outcome == Running ==> segNo in s.log.requests
    ensures Evidenced(w, HandleData(w.c, s, segNo, final, g))
  {
    hide Evidenced, Receive;
    if !s.IsStopping() && !s.hasFinalBlockId && final.Some? {
      var s1 := LearnFinalBlockId(s, final.value);
      EvidenceLasts(w, s, s1);
      ReceiveEvidenced(w, s1, segNo, g);
    } else if !s.IsStopping() {
      ReceiveEvidenced(w, s, segNo, g);
    }
  }

  lemma StepEvidenced(w: Setting, s: Engine, e: Event)
    requires Sound(w) && w.c.Fits(s.window) && Inv(w, s) && Evidenced(w, s) && Allowed(w, s, e)
    ensures Evidenced(w, Step(w.c, s, e))
  {
    hide Evidenced, Inv, HandleData, CheckRto, HandleTimeout, HandleFail;
    match e
    case DataArrives(segNo, final, g) =>
      DataEvidenced(w, s, segNo, final, g);
    case NackArrives(segNo, reason) =>
      if !s.IsStopping() && reason == Congestion {
        RequeueEvidenced(w, s, segNo);
      } else if !s.IsStopping() && reason == OtherReason {
        FailEvidenced(w, s, segNo);
      }
    case LifetimeExpires(segNo) =>
      if !s.IsStopping() {
        RequeueEvidenced(w, s, segNo);
      }
    case RtoTick(expired) =>
      CheckRtoEvidenced(w, s, expired);
  }

  lemma FailEvidenced(w: Setting, s: Engine, segNo: nat)
    requires Evidenced(w, s)
    ensures Evidenced(w, HandleFail(s, segNo))
  {
    EvidenceLasts(w, s, HandleFail(s, segNo));
  }

  lemma {:induction false} RunEvidenced(w: Setting, s: Engine, events: seq<Event>)
    requires Sound(w) && w.c.Fits(s.window) && Inv(w, s) && Evidenced(w, s) && AllowedRun(w, s, events)
    ensures Evidenced(w, Run(w.c, s, events))
    decreases |events|
  {
    hide Inv, Evidenced, Allowed, Step;
    if events != [] {
      StepKeeps(w, s, events[0]);
      StepEvidenced(w, s, events[0]);
      RunEvidenced(w, Step(w.c, s, events[0]), events[1..]);
    }
  }

  /** Each loss event raises the recovery point strictly, to the last segment requested. */
  lemma LossRaisesRecPoint(w: Setting, finalBlockId: Option<nat>, events: seq<Event>)
    requires Opens(w, finalBlockId) && AllowedRun(w, Start(w.c, finalBlockId), events)
    requires !w.c.options.disableCwa
    ensures var s := Run(w.c, Start(w.c, finalBlockId), events);
            IsLossEvent(w.c, s) ==>
              s.recPoint < ReactToLoss(w.c, s).recPoint == s.highInterest && s.highInterest in s.log.requests
  {
    hide Queued, Delivered, Accounted, Failing, Covered, Retried, Complete, Run, Start, AllowedRun, DecreaseWindow;
    ReachableInv(w, finalBlockId, events);
  }

  /** Conservative window adaptation: each loss event raises the recovery point, so there are
      no more of them than segments requested; and between any two a segment has been both first
      requested and received. */
  lemma LossesAreSpacedOut(w: Setting, finalBlockId: Option<nat>, events: seq<Event>)
    requires Opens(w, finalBlockId) && AllowedRun(w, Start(w.c, finalBlockId), events)
    requires !w.c.options.disableCwa
    ensures var s := Run(w.c, Start(w.c, finalBlockId), events); var m := s.log.lossMarks;
            && s.nLossEvents == |m| && s.nLossEvents <= s.recPoint <= s.highInterest
            && s.highData <= s.highInterest
            && |s.log.arrivalMarks| == |m| && forall i :: 0 < i < |m| ==> NewArrival(s.log, i)
  {
    hide Inv, Evidenced, Run, Start, AllowedRun;
    var s0 := Start(w.c, finalBlockId);
    StartKeeps(w, finalBlockId);
    StartEvidenced(w, finalBlockId);
    RunEvidenced(w, s0, events);
    RunKeeps(w, s0, events);
    SpacedOut(w, Run(w.c, s0, events));
  }

  lemma StartEvidenced(w: Setting, finalBlockId: Option<nat>)
    requires w.c.options.Valid()
    ensures Evidenced(w, Start(w.c, finalBlockId))
  {
  }

  lemma SpacedOut(w: Setting, s: Engine)
    requires Inv(w, s) && Evidenced(w, s) && !w.c.options.disableCwa
    ensures var m := s.log.lossMarks;
            && s.nLossEvents == |m| && s.nLossEvents <= s.recPoint <= s.highInterest
            && s.highData <= s.highInterest
            && |s.log.arrivalMarks| == |m| && forall i :: 0 < i < |m| ==> NewArrival(s.log, i)
  {
    hide Queued, Delivered, Accounted, Failing, Covered, Retried, Complete;
  }
}
