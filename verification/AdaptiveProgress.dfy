/** The adaptive pipelines keep moving: the window never closes and something is always in
    flight; and exactly where these promises stop. */
module AdaptiveProgress {
  import opened WindowPolicy
  import C = CubicWindow
  import opened AdaptiveSpec
  import opened Network
  import opened Optional
  import opened AdaptiveInvariant
  import opened AdaptiveTheorems
  import opened Counting

  // ------------------------------------------------------------------ the window stays open

  /** A window that has grown since the last loss event holds two segments. */
  ghost predicate Open(c: Config, s: Engine) {
    Wide(c.options, s.window) && (s.highData > s.recPoint ==> s.window.Cwnd() >= 2.0)
  }

  lemma TimeoutKeepsOpen(w: Setting, s: Engine, timeoutCount: nat)
    requires Sound(w) && KeepsOneSegment(w.c.options) && Open(w.c, s) && s.highData <= s.highInterest
    ensures Open(w.c, HandleTimeout(w.c, s, timeoutCount))
  {
    if IsLossEvent(w.c, s) {
      DecreaseLeavesOne(w.c.options, s.window);
    }
    hide DecreaseWindow, ScheduleLoop;
  }

  /** New Data beyond everything received before is accepted, and so opens the window. */
  lemma ReceiveKeepsOpen(w: Setting, s: Engine, segNo: nat, g: C.Growth)
    requires Sound(w) && KeepsOneSegment(w.c.options) && w.known && Open(w.c, s)
    requires Inv(w, s) && s.outcome == Running && segNo in s.log.requests && segNo <= w.content
    requires w.c.options.Guarded() || segNo in s.segmentInfo
    ensures Open(w.c, Receive(w.c, s, segNo, g))
  {
    if s.highData < segNo {
      assert segNo !in s.log.delivered;
      assert segNo in s.segmentInfo;
    }
    hide Inv, ScheduleLoop, IncreaseWindow;
    IncreaseReachesTwo(w.c.options, s.window, g);
  }

  lemma HighDataWasRequested(w: Setting, s: Engine)
    requires Requested(w, s) && Adapted(w, s)
    ensures s.highData <= s.highInterest
  {
  }

  lemma StepKeepsOpen(w: Setting, s: Engine, e: Event)
    requires Sound(w) && KeepsOneSegment(w.c.options) && w.known && Open(w.c, s)
    requires Inv(w, s) && Allowed(w, s, e)
    ensures Open(w.c, Step(w.c, s, e))
  {
    HighDataWasRequested(w, s);
    assert s.outcome == Running ==> s.hasFinalBlockId;
    hide Inv, ScheduleLoop, Receive, HandleTimeout;
    match e
    case DataArrives(segNo, final, g) =>
      if s.outcome == Running {
        ReceiveKeepsOpen(w, s, segNo, g);
      }
    case NackArrives(segNo, reason) =>
      TimeoutKeepsOpen(w, Enqueue(s, segNo), 1);
    case LifetimeExpires(segNo) =>
      TimeoutKeepsOpen(w, Enqueue(s, segNo), 1);
    case RtoTick(expired) =>
      TimeoutKeepsOpen(w, ExpireTimers(s, expired), CountExpired(s, expired));
  }

  lemma {:induction false} RunKeepsOpen(w: Setting, s: Engine, events: seq<Event>)
    requires Sound(w) && KeepsOneSegment(w.c.options) && w.known && Open(w.c, s)
    requires Inv(w, s) && AllowedRun(w, s, events)
    ensures Open(w.c, Run(w.c, s, events))
    decreases |events|
  {
    hide Inv, Allowed, Step;
    if events != [] {
      StepKeeps(w, s, events[0]);
      StepKeepsOpen(w, s, events[0]);
      RunKeepsOpen(w, Step(w.c, s, events[0]), events[1..]);
    }
  }

  /** With the last segment known at the start and the default options, or any within
      `KeepsOneSegment`, the congestion window never drops below one segment under any of the
      three policies, whatever the cubic target is: an acknowledgement that brings it to two
      precedes every decrease. */
  lemma WindowNeverCloses(w: Setting, events: seq<Event>)
    requires Opens(w, Some(w.content)) && KeepsOneSegment(w.c.options)
    requires AllowedRun(w, Start(w.c, Some(w.content)), events)
    ensures Run(w.c, Start(w.c, Some(w.content)), events).window.Cwnd() >= 1.0
  {
    StartKeeps(w, Some(w.content));
    RunKeepsOpen(w, Start(w.c, Some(w.content)), events);
    hide Inv, Run, Start, AllowedRun;
  }

  // ------------------------------------------------------------------ something is in flight

  ghost predicate Moving(s: Engine) {
    s.outcome == Running ==> InFlight(s.segmentInfo) != {}
  }

  /** Something is in flight, unless a failure is pending while the last segment is unknown. */
  ghost predicate Flows(s: Engine) { s.hasFinalBlockId || !s.hasFailure ==> Moving(s) }

  /** Where the last segment is known, some segment of the content has not been delivered. */
  ghost predicate Unfinished(s: Engine) {
    s.outcome == Running && s.hasFinalBlockId ==> |s.log.delivered| < s.lastSegmentNo
  }

  lemma {:induction false} StoppedStays(c: Config, s: Engine, available: int)
    requires s.outcome != Running
    ensures ScheduleLoop(c, s, available).outcome == s.outcome
    decreases if available > 0 then available else 0, |s.retxQueue|
  {
    if available <= 0 {
    } else if s.retxQueue != [] {
      var s1 := s.(retxQueue := s.retxQueue[1..]);
      StoppedStays(c, s1, if s.retxQueue[0] !in s.segmentInfo then available else available - 1);
    } else {
      StoppedStays(c, SendNext(c, s), available - 1);
    }
  }

  /** With nothing left to request or resend, a segment still missing is in flight. */
  lemma MissingIsInFlight(w: Setting, s: Engine)
    requires Sound(w) && Inv(w, s) && Unfinished(s) && s.outcome == Running && s.retxQueue == []
    requires s.hasFinalBlockId && NextSegment(w.c, s) > w.content
    ensures InFlight(s.segmentInfo) != {}
  {
    var d := s.log.delivered;
    if forall k: nat :: k <= w.content && k != w.c.excluded ==> k in d {
      AllDelivered(d, w.content, w.c.excluded);
      assert false;
    } else {
      var k: nat :| k <= w.content && k != w.c.excluded && k !in d;
      assert k < s.nextSegmentNo;
      assert k in s.segmentInfo;
      assert k in InFlight(s.segmentInfo);
    }
  }

  lemma AllDelivered(d: seq<nat>, n: nat, x: nat)
    requires Distinct(d) && x <= n && forall k: nat :: k <= n && k != x ==> k in d
    ensures |d| >= n
  {
    DistinctSize(d);
    SubsetSize(Below(n + 1) - {x}, set k | k in d);
  }

  /** Giving up stops the engine or leaves a failure pending. */
  lemma FailFlows(w: Setting, s: Engine, segNo: nat)
    requires Accounted(w, s, 0) && Failing(w, s) && s.outcome == Running && segNo in s.segmentInfo
    ensures Flows(HandleFail(s, segNo))
  {
    hide InFlight, Decreasing;
  }

  lemma ResendFlows(w: Setting, s: Engine, segNo: nat)
    requires Accounted(w, s, 0) && Failing(w, s) && s.outcome == Running
    requires segNo in s.segmentInfo && s.segmentInfo[segNo] == InRetxQueue
    ensures Flows(Resend(w.c, s, segNo))
  {
    if MayRetry(w.c, s, segNo) {
      assert segNo in InFlight(Resend(w.c, s, segNo).segmentInfo);
    } else {
      hide HandleFail, InFlight;
      FailFlows(w, s.(retxCount := s.retxCount[segNo := Attempt(s, segNo)]), segNo);
    }
  }

  lemma SendNextFlows(w: Setting, s: Engine)
    requires Sound(w) && Inv(w, s) && Unfinished(s) && s.outcome == Running && s.retxQueue == []
    ensures Flows(SendNext(w.c, s))
  {
    var segNo := NextSegment(w.c, s);
    if s.hasFailure {
    } else if segNo <= w.content || !s.hasFinalBlockId {
      NewIsInFlight(w, s);
    } else {
      MissingIsInFlight(w, s);
    }
    hide Inv, InFlight;
  }

  lemma NewIsInFlight(w: Setting, s: Engine)
    requires Requested(w, s) && Queued(s, {}) && Sends(w, s)
    ensures InFlight(SendNext(w.c, s).segmentInfo) != {}
  {
    NextIsNew(w, s);
    hide Increasing, Distinct;
    assert NextSegment(w.c, s) in InFlight(SendNext(w.c, s).segmentInfo);
  }

  /** Scheduling with room for a segment, or with one already in flight, leaves one in flight. */
  lemma {:induction false} ScheduleFlows(w: Setting, s: Engine, available: int)
    requires Sound(w) && Inv(w, s) && Unfinished(s)
    requires Flows(s) || available >= 1
    ensures Flows(ScheduleLoop(w.c, s, available))
    decreases if available > 0 then available else 0, |s.retxQueue|
  {
    hide Requested, Queued, Delivered, Accounted, Failing, Covered, Retried, Adapted, Complete;
    if s.outcome != Running {
      StoppedStays(w.c, s, available);
    } else if available <= 0 {
    } else if s.retxQueue != [] {
      var segNo := s.retxQueue[0];
      var s1 := s.(retxQueue := s.retxQueue[1..]);
      PopKeeps(w, s);
      if segNo !in s.segmentInfo {
        ScheduleFlows(w, s1, available);
      } else {
        ResendKeeps(w, s1, segNo);
        ResendFlows(w, s1, segNo);
        ScheduleFlows(w, Resend(w.c, s1, segNo), available - 1);
      }
    } else {
      SendNextKeeps(w, s);
      SendNextFlows(w, s);
      ScheduleFlows(w, SendNext(w.c, s), available - 1);
    }
  }

  lemma SchedulePacketsFlow(w: Setting, s: Engine)
    requires Sound(w) && Inv(w, s) && Unfinished(s) && s.window.Cwnd() >= 1.0
    ensures Flows(SchedulePackets(w.c, s)) && Unfinished(SchedulePackets(w.c, s))
  {
    assert s.outcome == Running ==> s.nInFlight <= |InFlight(s.segmentInfo)|;
    hide Inv;
    ScheduleFlows(w, s, AvailableWindow(s));
    if s.outcome != Running {
      StoppedStays(w.c, s, AvailableWindow(s));
    }
  }

  lemma TimeoutFlows(w: Setting, s: Engine, timeoutCount: nat)
    requires Sound(w) && w.c.Fits(s.window) && timeoutCount > 0 && Unfinished(s)
    requires InvWith(w, s, {}, timeoutCount) && s.log.requests != []
    requires HandleTimeout(w.c, s, timeoutCount).window.Cwnd() >= 1.0
    ensures var r := HandleTimeout(w.c, s, timeoutCount); Flows(r) && Unfinished(r)
  {
    LossEventAdapted(w, s);
    SettleKeeps(w, s, timeoutCount);
    hide Inv, InvWith, Flows, DecreaseWindow, ScheduleLoop;
    var s1 := ReactToLoss(w.c, s);
    SchedulePacketsFlow(w, s1.(nInFlight := Minus(s1.nInFlight, timeoutCount)));
  }

  lemma RequeueFlows(w: Setting, s: Engine, segNo: nat)
    requires Sound(w) && Inv(w, s) && Unfinished(s) && w.c.Fits(s.window)
    requires segNo in InFlight(s.segmentInfo)
    requires HandleTimeout(w.c, Enqueue(s, segNo), 1).window.Cwnd() >= 1.0
    ensures var r := HandleTimeout(w.c, Enqueue(s, segNo), 1); Flows(r) && Unfinished(r)
  {
    assert segNo in s.log.requests;
    EnqueueKeeps(w, s, segNo, 0);
    TimeoutFlows(w, Enqueue(s, segNo), 1);
  }

  lemma CheckRtoFlows(w: Setting, s: Engine, expired: seq<nat>)
    requires Sound(w) && Inv(w, s) && Flows(s) && Unfinished(s) && w.c.Fits(s.window)
    requires CheckRto(w.c, s, expired).window.Cwnd() >= 1.0
    ensures Flows(CheckRto(w.c, s, expired)) && Unfinished(CheckRto(w.c, s, expired))
  {
    hide Requested, Delivered, Accounted, Failing, Covered, Retried, Adapted, Complete, ReactToLoss, SchedulePackets, Flows;
    if s.outcome == Running {
      if CountExpired(s, expired) > 0 {
        ExpiredWasTracked(s, expired);
        var k :| k in s.segmentInfo;
        assert k in s.log.requests;
        ExpireTimersKeeps(w, s, expired, 0);
        TimeoutFlows(w, ExpireTimers(s, expired), CountExpired(s, expired));
      } else {
        NoneExpired(s, expired);
      }
    }
  }

  lemma NoneExpired(s: Engine, expired: seq<nat>)
    requires CountExpired(s, expired) == 0
    ensures ExpireTimers(s, expired) == s
    decreases |expired|
  {
    if expired != [] {
      NoneExpired(s, expired[1..]);
    }
  }

  /** Data that changes nothing but what is remembered of it: its segment has been received. */
  predicate Dropped(c: Config, s: Engine, segNo: nat) {
    if segNo in s.segmentInfo then s.segmentInfo[segNo] == RetxReceived else c.options.Guarded()
  }

  lemma BookUnfinished(w: Setting, s: Engine)
    requires Delivered(w, s) && (!s.hasFinalBlockId || s.nReceived - 1 < s.lastSegmentNo)
    ensures Unfinished(s)
  {
  }

  lemma AcceptFlows(w: Setting, s: Engine, segNo: nat, g: C.Growth)
    requires Acceptable(w, s, segNo) && Inv(w, s) && Accept(w.c, s, segNo, g).window.Cwnd() >= 1.0
    ensures Flows(Accept(w.c, s, segNo, g)) && Unfinished(Accept(w.c, s, segNo, g))
  {
    hide Requested, Queued, Delivered, Accounted, Failing, Covered, Retried, Adapted, Complete, IncreaseWindow, ScheduleLoop;
    var s1 := Book(w.c, s, segNo, g);
    if !(s1.hasFinalBlockId && s1.nReceived - 1 >= s1.lastSegmentNo) {
      BookKeeps(w, s, segNo, g);
      BookUnfinished(w, s1);
      SchedulePacketsFlow(w, s1);
    }
  }

  lemma ReceiveFlows(w: Setting, s: Engine, segNo: nat, g: C.Growth)
    requires Sound(w) && Inv(w, s) && w.c.Fits(s.window)
    requires Dropped(w.c, s, segNo) ==> Flows(s) && Unfinished(s)
    requires s.outcome == Running && segNo in s.log.requests && segNo <= w.content
    requires w.c.options.Guarded() || segNo in s.segmentInfo
    requires Receive(w.c, s, segNo, g).window.Cwnd() >= 1.0
    ensures Flows(Receive(w.c, s, segNo, g)) && Unfinished(Receive(w.c, s, segNo, g))
  {
    hide Inv, Accept, Flows, Unfinished, InFlight;
    var s1 := RaiseHighData(s, segNo);
    RaiseKeeps(w, s, segNo);
    if Dropped(w.c, s, segNo) {
      DropFlows(w.c, s, segNo, g);
    } else {
      AcceptFlows(w, s1, segNo, g);
    }
  }

  lemma DropFlows(c: Config, s: Engine, segNo: nat, g: C.Growth)
    requires c.Fits(s.window) && Dropped(c, s, segNo)
    ensures var r := Receive(c, s, segNo, g);
            InFlight(r.segmentInfo) == InFlight(s.segmentInfo) && r.outcome == s.outcome && SameBooks(s, r.(
              highData := s.highData, log := r.log.(arrivals := s.log.arrivals)))
            && r.hasFailure == s.hasFailure
    ensures Flows(s) ==> Flows(Receive(c, s, segNo, g))
    ensures Unfinished(s) ==> Unfinished(Receive(c, s, segNo, g))
  {
    hide Accept;
    InFlightRemoved(s.segmentInfo, {segNo});
  }

  /** The last segment is learnt from Data that is dropped, while no segment of the content is in
      flight and none has been given up. */
  predicate LearntInVain(c: Config, s: Engine, e: Event) {
    && s.outcome == Running && !s.hasFinalBlockId
    && e.DataArrives? && e.finalBlockId.Some? && Dropped(c, s, e.segNo)
    && LearnFinalBlockId(s, e.finalBlockId.value).outcome == Running
    && forall k :: k in s.segmentInfo && Flying(s.segmentInfo[k]) ==> k > e.finalBlockId.value
  }

  /** A segment of the content in flight has not been delivered. */
  lemma MissingMeansUnfinished(w: Setting, s: Engine, k: nat)
    requires Sound(w) && Inv(w, s) && s.outcome == Running && k in InFlight(s.segmentInfo) && k <= w.content
    ensures Unfinished(s)
  {
    assert k in s.log.requests && k !in s.log.delivered && k != w.c.excluded;
    var d := s.log.delivered;
    forall j | j in d
      ensures j <= w.content && j != w.c.excluded && j != k
    {
    }
    FewerThan(d, w.content, w.c.excluded, k);
  }

  lemma FewerThan(d: seq<nat>, n: nat, x: nat, k: nat)
    requires Distinct(d) && x <= n && k <= n && k != x
    requires forall j :: j in d ==> j <= n && j != x && j != k
    ensures |d| < n
  {
    DistinctSize(d);
    SubsetSize((set j | j in d), Below(n + 1) - {x} - {k});
  }

  lemma LearningFlows(w: Setting, s: Engine, segNo: nat, g: C.Growth)
    requires Sound(w) && Inv(w, s) && w.c.Fits(s.window) && s.outcome == Running && !s.hasFinalBlockId
    requires Allowed(w, s, DataArrives(segNo, Some(w.content), g))
    requires !LearntInVain(w.c, s, DataArrives(segNo, Some(w.content), g))
    requires HandleData(w.c, s, segNo, Some(w.content), g).window.Cwnd() >= 1.0
    ensures var r := HandleData(w.c, s, segNo, Some(w.content), g); Flows(r) && Unfinished(r)
  {
    hide Inv, Receive, Flows, Unfinished;
    LearnKeeps(w, s);
    var s1 := LearnFinalBlockId(s, w.content);
    if s1.outcome == Running {
      StillTracked(s, segNo, w.content);
      if Dropped(w.c, s, segNo) {
        var k: nat :| k in s.segmentInfo && Flying(s.segmentInfo[k]) && k <= w.content;
        assert k in InFlight(s1.segmentInfo);
        MissingMeansUnfinished(w, s1, k);
        MovingFlows(s1);
      }
      ReceiveFlows(w, s1, segNo, g);
    } else {
      StoppedFlows(s1);
    }
  }

  lemma MovingFlows(s: Engine)
    requires InFlight(s.segmentInfo) != {}
    ensures Flows(s)
  {
  }

  lemma StoppedFlows(s: Engine)
    requires s.outcome != Running
    ensures Flows(s) && Unfinished(s)
  {
  }

  /** Learning the last segment keeps what is tracked of the content. */
  lemma StillTracked(s: Engine, segNo: nat, last: nat)
    requires s.outcome == Running && LearnFinalBlockId(s, last).outcome == Running
    requires segNo in s.segmentInfo ==> segNo <= last
    ensures var r := LearnFinalBlockId(s, last);
            && (segNo in r.segmentInfo <==> segNo in s.segmentInfo)
            && (segNo in s.segmentInfo ==> r.segmentInfo[segNo] == s.segmentInfo[segNo])
  {
  }

  lemma DataFlows(w: Setting, s: Engine, segNo: nat, final: Option<nat>, g: C.Growth)
    requires Sound(w) && Inv(w, s) && Flows(s) && Unfinished(s) && w.c.Fits(s.window) && s.outcome == Running
    requires Allowed(w, s, DataArrives(segNo, final, g)) && !LearntInVain(w.c, s, DataArrives(segNo, final, g))
    requires HandleData(w.c, s, segNo, final, g).window.Cwnd() >= 1.0
    ensures var r := HandleData(w.c, s, segNo, final, g); Flows(r) && Unfinished(r)
  {
    hide Inv, Receive, Flows, Unfinished, LearntInVain, LearnFinalBlockId;
    if !s.hasFinalBlockId && final.Some? {
      LearningFlows(w, s, segNo, g);
    } else {
      ReceiveFlows(w, s, segNo, g);
    }
  }

  lemma NackFlows(w: Setting, s: Engine, segNo: nat)
    requires Inv(w, s) && s.outcome == Running && segNo in InFlight(s.segmentInfo)
    ensures Flows(HandleFail(s, segNo)) && (Unfinished(s) ==> Unfinished(HandleFail(s, segNo)))
  {
    FailFlows(w, s, segNo);
  }

  lemma StepFlows(w: Setting, s: Engine, e: Event)
    requires Sound(w) && Inv(w, s) && Flows(s) && Unfinished(s) && w.c.Fits(s.window)
    requires Allowed(w, s, e) && !LearntInVain(w.c, s, e) && Step(w.c, s, e).window.Cwnd() >= 1.0
    ensures Flows(Step(w.c, s, e)) && Unfinished(Step(w.c, s, e))
  {
    hide Inv, Flows, Unfinished, LearntInVain, HandleData, HandleTimeout, HandleFail, CheckRto, InFlight;
    if s.outcome == Running {
      match e
      case DataArrives(segNo, final, g) =>
        DataFlows(w, s, segNo, final, g);
      case NackArrives(segNo, reason) =>
        if reason == Congestion {
          RequeueFlows(w, s, segNo);
        } else if reason == OtherReason {
          NackFlows(w, s, segNo);
        }
      case LifetimeExpires(segNo) =>
        RequeueFlows(w, s, segNo);
      case RtoTick(expired) =>
        CheckRtoFlows(w, s, expired);
    } else {
      StoppedIgnores(w.c, s, e);
    }
  }

  lemma StoppedIgnores(c: Config, s: Engine, e: Event)
    requires c.Fits(s.window) && s.outcome != Running
    ensures Step(c, s, e) == s
  {
    hide Receive, HandleTimeout;
  }

  /** The window holds at least one segment after every event of the run. */
  ghost predicate WindowOpenThroughout(c: Config, s: Engine, events: seq<Event>)
    requires c.Fits(s.window)
    decreases |events|
  {
    && s.window.Cwnd() >= 1.0
    && (events != [] ==> WindowOpenThroughout(c, Step(c, s, events[0]), events[1..]))
  }

  lemma {:induction false} OpenIsOpenThroughout(w: Setting, s: Engine, events: seq<Event>)
    requires Sound(w) && KeepsOneSegment(w.c.options) && w.known && Open(w.c, s)
    requires Inv(w, s) && AllowedRun(w, s, events)
    ensures WindowOpenThroughout(w.c, s, events)
    decreases |events|
  {
    hide Inv, Allowed, Step;
    if events != [] {
      StepKeeps(w, s, events[0]);
      StepKeepsOpen(w, s, events[0]);
      OpenIsOpenThroughout(w, Step(w.c, s, events[0]), events[1..]);
    }
  }

  /** In some event of the run the last segment is learnt in vain. */
  ghost predicate VainInRun(c: Config, s: Engine, events: seq<Event>)
    requires c.Fits(s.window)
    decreases |events|
  {
    events != [] && (LearntInVain(c, s, events[0]) || VainInRun(c, Step(c, s, events[0]), events[1..]))
  }

  lemma {:induction false} RunFlows(w: Setting, s: Engine, events: seq<Event>)
    requires Sound(w) && Inv(w, s) && Flows(s) && Unfinished(s) && w.c.Fits(s.window)
    requires AllowedRun(w, s, events) && WindowOpenThroughout(w.c, s, events) && !VainInRun(w.c, s, events)
    ensures Flows(Run(w.c, s, events))
    decreases |events|
  {
    hide Inv, Allowed, Step, Flows, Unfinished, LearntInVain;
    if events != [] {
      StepKeeps(w, s, events[0]);
      StepFlows(w, s, events[0]);
      RunFlows(w, Step(w.c, s, events[0]), events[1..]);
    }
  }

  lemma {:induction false} KnownIsNotLearnt(w: Setting, s: Engine, events: seq<Event>)
    requires Sound(w) && w.known && Inv(w, s) && w.c.Fits(s.window) && AllowedRun(w, s, events)
    ensures !VainInRun(w.c, s, events)
    decreases |events|
  {
    assert s.outcome == Running ==> s.hasFinalBlockId;
    hide Inv, Allowed, Step;
    if events != [] {
      StepKeeps(w, s, events[0]);
      KnownIsNotLearnt(w, Step(w.c, s, events[0]), events[1..]);
    }
  }

  lemma StepKeepsEnd(c: Config, s: Engine, e: Event)
    requires c.Fits(s.window) && s.hasFinalBlockId
    ensures Step(c, s, e).hasFinalBlockId
  {
    hide Receive, HandleTimeout, HandleFail;
    match e
    case DataArrives(segNo, final, g) => ReceiveKeepsEnd(c, s, segNo, g);
    case NackArrives(segNo, reason) => TimeoutKeepsEnd(c, Enqueue(s, segNo), 1);
    case LifetimeExpires(segNo) => TimeoutKeepsEnd(c, Enqueue(s, segNo), 1);
    case RtoTick(expired) => TimeoutKeepsEnd(c, ExpireTimers(s, expired), CountExpired(s, expired));
  }

  lemma ReceiveKeepsEnd(c: Config, s: Engine, segNo: nat, g: C.Growth)
    requires c.Fits(s.window)
    ensures Receive(c, s, segNo, g).hasFinalBlockId == s.hasFinalBlockId
  {
    hide IncreaseWindow, ScheduleLoop;
  }

  lemma TimeoutKeepsEnd(c: Config, s: Engine, timeoutCount: nat)
    requires c.Fits(s.window)
    ensures HandleTimeout(c, s, timeoutCount).hasFinalBlockId == s.hasFinalBlockId
  {
    hide DecreaseWindow, ScheduleLoop;
  }

  lemma VainStepLearns(c: Config, s: Engine, e: Event)
    requires c.Fits(s.window) && LearntInVain(c, s, e)
    ensures Step(c, s, e).hasFinalBlockId
  {
    hide Receive;
    ReceiveKeepsEnd(c, LearnFinalBlockId(s, e.finalBlockId.value), e.segNo, e.growth);
  }

  /** Once known, or learnt in vain, the last segment stays known. */
  lemma {:induction false} EndStaysKnown(c: Config, s: Engine, events: seq<Event>)
    requires c.Fits(s.window) && (s.hasFinalBlockId || VainInRun(c, s, events))
    ensures Run(c, s, events).hasFinalBlockId
    decreases |events|
  {
    hide Step, LearntInVain;
    if events != [] {
      if s.hasFinalBlockId {
        StepKeepsEnd(c, s, events[0]);
      } else if LearntInVain(c, s, events[0]) {
        VainStepLearns(c, s, events[0]);
      }
      EndStaysKnown(c, Step(c, s, events[0]), events[1..]);
    }
  }

  /** The first Interest goes out if and only if the last segment is not known to be the first. */
  lemma StartMovesExactly(c: Config, finalBlockId: Option<nat>)
    requires c.options.Valid() && (finalBlockId.Some? ==> c.excluded <= finalBlockId.value)
    ensures Moving(Start(c, finalBlockId)) <==> finalBlockId != Some(0)
  {
    var s := Start(c, finalBlockId);
    assert InFlight(map[]) == {};
    if finalBlockId != Some(0) {
      assert NextSegment(c, Fresh(c, finalBlockId)) in InFlight(s.segmentInfo);
    }
  }

  /** As long as the window holds one segment, the pipeline is left running with nothing in flight
      only where the last segment is unknown and a failure pending, or has been learnt in vain; so
      while the last segment is unknown, only where a failure is pending. */
  lemma WedgedHasFailed(w: Setting, finalBlockId: Option<nat>, events: seq<Event>)
    requires Opens(w, finalBlockId) && finalBlockId != Some(0)
    requires AllowedRun(w, Start(w.c, finalBlockId), events)
    requires WindowOpenThroughout(w.c, Start(w.c, finalBlockId), events)
    ensures var s := Run(w.c, Start(w.c, finalBlockId), events);
            !Moving(s) ==>
              && ((s.hasFailure && !s.hasFinalBlockId) || VainInRun(w.c, Start(w.c, finalBlockId), events))
              && (!s.hasFinalBlockId ==> s.hasFailure)
  {
    hide Inv, Run, AllowedRun, WindowOpenThroughout, VainInRun, Start, Unfinished;
    var s0 := Start(w.c, finalBlockId);
    StartKeeps(w, finalBlockId);
    StartMovesExactly(w.c, finalBlockId);
    StartIsUnfinished(w.c, finalBlockId);
    if VainInRun(w.c, s0, events) {
      EndStaysKnown(w.c, s0, events);
    } else {
      RunFlows(w, s0, events);
    }
  }

  lemma StartIsUnfinished(c: Config, finalBlockId: Option<nat>)
    requires c.options.Valid() && finalBlockId != Some(0)
    ensures Unfinished(Start(c, finalBlockId))
  {
  }

  /** With the last segment known at the start, the pipeline never wedges: as long as the
      window holds one segment, some segment is in flight whenever the pipeline has not
      stopped, so an answer or a timer can still move it. */
  lemma NeverWedges(w: Setting, events: seq<Event>)
    requires Opens(w, Some(w.content)) && w.content >= 1
    requires AllowedRun(w, Start(w.c, Some(w.content)), events)
    requires WindowOpenThroughout(w.c, Start(w.c, Some(w.content)), events)
    ensures Moving(Run(w.c, Start(w.c, Some(w.content)), events))
  {
    StartKeeps(w, Some(w.content));
    hide Inv, Run, Start, AllowedRun, WindowOpenThroughout;
    WedgedHasFailed(w, Some(w.content), events);
    KnownIsNotLearnt(w, Start(w.c, Some(w.content)), events);
    StartKnows(w.c, Some(w.content));
    EndStaysKnown(w.c, Start(w.c, Some(w.content)), events);
  }

  lemma StartKnows(c: Config, finalBlockId: Option<nat>)
    requires c.options.Valid() && finalBlockId.Some?
    ensures Start(c, finalBlockId).hasFinalBlockId
  {
  }

  /** With the option ranges of `KeepsOneSegment` the window takes care of itself. */
  lemma NeverWedgesByDefault(w: Setting, events: seq<Event>)
    requires Opens(w, Some(w.content)) && w.content >= 1
    requires AllowedRun(w, Start(w.c, Some(w.content)), events)
    requires KeepsOneSegment(w.c.options)
    ensures Moving(Run(w.c, Start(w.c, Some(w.content)), events))
  {
    hide Inv, Moving, Start, Run, AllowedRun, WindowOpenThroughout;
    StartKeeps(w, Some(w.content));
    StartIsOpen(w.c, Some(w.content));
    OpenIsOpenThroughout(w, Start(w.c, Some(w.content)), events);
    NeverWedges(w, events);
  }

  lemma StartIsOpen(c: Config, finalBlockId: Option<nat>)
    requires KeepsOneSegment(c.options)
    ensures Open(c, Start(c, finalBlockId))
  {
    InitialIsWide(c.options);
  }

  // ------------------------------------------------------------------ with the end unknown

  /** Giving up on a segment while the last one is unknown leaves the engine running with nothing
      in flight if and only if another segment is tracked and nothing before the one given up is in
      flight: whether any segment is left is asked before those that follow are cancelled.  The
      segment may be in flight, or queued when its retransmissions are used up. */
  lemma GivingUpWedgesExactly(s: Engine, segNo: nat)
    requires s.outcome == Running && !s.hasFinalBlockId
    ensures !Moving(HandleFail(s, segNo)) <==>
              && (exists k :: k in s.segmentInfo && k != segNo)
              && (forall k :: k in InFlight(s.segmentInfo) ==> k >= segNo)
  {
    hide HandleFail, InFlight;
    GivingUpLeaves(s, segNo);
    InFlightBelow(s.segmentInfo, segNo);
  }

  /** What is tracked after giving up. */
  lemma GivingUpLeaves(s: Engine, segNo: nat)
    requires s.outcome == Running && !s.hasFinalBlockId
    ensures var r := HandleFail(s, segNo); var info := s.segmentInfo - {segNo};
            if exists k :: k in s.segmentInfo && k != segNo
            then r.outcome == Running && r.segmentInfo == info - set k | k in info && k > segNo
            else r.outcome == Failed
  {
    var info := s.segmentInfo - {segNo};
    if k :| k in s.segmentInfo && k != segNo {
      assert k in info;
    } else {
      assert info == map[];
    }
  }

  lemma InFlightBelow(info: map<nat, SegmentState>, segNo: nat)
    ensures var rest := info - {segNo};
            InFlight(rest - set k | k in rest && k > segNo) == {} <==> forall k :: k in InFlight(info) ==> k >= segNo
  {
    var rest := info - {segNo};
    var beyond := set k | k in rest && k > segNo;
    InFlightRemoved(info, {segNo});
    InFlightRemoved(rest, beyond);
    assert forall k :: k in InFlight(rest - beyond) <==> k in InFlight(info) && k < segNo;
  }

  /** Learning the last segment from Data that is dropped leaves the engine running with nothing in
      flight if and only if no segment of the content was in flight and none has been given up. */
  lemma LearningWedgesExactly(w: Setting, s: Engine, segNo: nat, g: C.Growth)
    requires Sound(w) && Inv(w, s) && w.c.Fits(s.window) && s.outcome == Running && !s.hasFinalBlockId
    requires Dropped(w.c, s, segNo)
    ensures !Moving(HandleData(w.c, s, segNo, Some(w.content), g)) <==>
              && (forall k :: k in s.log.failures ==> k > w.content)
              && (forall k :: k in InFlight(s.segmentInfo) ==> k > w.content)
    ensures !Moving(HandleData(w.c, s, segNo, Some(w.content), g)) <==>
              LearntInVain(w.c, s, DataArrives(segNo, Some(w.content), g))
  {
    assert segNo in s.segmentInfo ==> segNo in s.log.delivered && segNo <= w.content;
    FlyingIsInFlight(s, w.content);
    hide HandleData, LearnFinalBlockId, Requested, Queued, Delivered, Accounted, Covered, Retried, Adapted, Complete;
    SettledExactly(w, s);
    FailedOrRuns(s, w.content);
    LearningLeaves(w.c, s, segNo, w.content, g);
    InFlightWithin(s, w.content);
  }

  lemma FlyingIsInFlight(s: Engine, last: nat)
    ensures (forall k :: k in s.segmentInfo && Flying(s.segmentInfo[k]) ==> k > last) <==>
            (forall k :: k in InFlight(s.segmentInfo) ==> k > last)
  {
    assert forall k :: k in InFlight(s.segmentInfo) <==> k in s.segmentInfo && Flying(s.segmentInfo[k]);
  }

  lemma FailedOrRuns(s: Engine, last: nat)
    requires s.outcome == Running
    ensures LearnFinalBlockId(s, last).outcome == Running || LearnFinalBlockId(s, last).outcome == Failed
  {
  }

  /** What is in flight after the last segment has been learnt from Data that is dropped. */
  lemma LearningLeaves(c: Config, s: Engine, segNo: nat, last: nat, g: C.Growth)
    requires c.Fits(s.window) && s.outcome == Running && !s.hasFinalBlockId && Dropped(c, s, segNo)
    requires segNo in s.segmentInfo ==> segNo <= last
    ensures var r := HandleData(c, s, segNo, Some(last), g);
            && r.outcome == LearnFinalBlockId(s, last).outcome
            && (r.outcome == Running ==>
                  InFlight(r.segmentInfo) == InFlight(s.segmentInfo) - set k | k in s.segmentInfo && k > last)
  {
    hide Receive, InFlight;
    var s1 := LearnFinalBlockId(s, last);
    if s1.outcome == Running {
      StillTracked(s, segNo, last);
      DropFlows(c, s1, segNo, g);
      InFlightRemoved(s.segmentInfo, set k | k in s.segmentInfo && k > last);
    }
  }

  lemma InFlightWithin(s: Engine, last: nat)
    ensures var beyond := set k | k in s.segmentInfo && k > last;
            InFlight(s.segmentInfo) - beyond == {} <==> forall k :: k in InFlight(s.segmentInfo) ==> k > last
  {
    var beyond := set k | k in s.segmentInfo && k > last;
    assert forall k :: k in InFlight(s.segmentInfo) - beyond <==> k in InFlight(s.segmentInfo) && k <= last;
  }

  /** A failure is pending, and no segment that waits for its retransmission has used them up. */
  ghost predicate Pending(c: Config, s: Engine) {
    && s.outcome == Running && s.hasFailure && !s.hasFinalBlockId
    && forall k :: k in s.retxQueue && k in s.segmentInfo ==> MayRetry(c, s, k)
  }

  lemma ResendWhilePending(c: Config, s: Engine, segNo: nat)
    requires Pending(c, s) && Distinct(s.retxQueue) && s.retxQueue != []
    requires segNo == s.retxQueue[0] && segNo in s.segmentInfo
    ensures var s1 := s.(retxQueue := s.retxQueue[1..]); var r := Resend(c, s1, segNo);
            && Pending(c, r) && Distinct(r.retxQueue) && r.retxQueue == s1.retxQueue
            && segNo in InFlight(r.segmentInfo) && InFlight(s.segmentInfo) <= InFlight(r.segmentInfo)
  {
    assert forall k :: k in s.retxQueue[1..] ==> k != segNo && k in s.retxQueue;
  }

  /** With a failure pending scheduling sends no new segment; it resends queued ones. */
  lemma {:induction false} ScheduleWhilePending(c: Config, s: Engine, available: int)
    requires Pending(c, s) && Distinct(s.retxQueue)
    ensures var r := ScheduleLoop(c, s, available);
            && r.outcome == Running && InFlight(s.segmentInfo) <= InFlight(r.segmentInfo)
            && (if available >= 1 && exists k :: k in s.retxQueue && k in s.segmentInfo
                then InFlight(r.segmentInfo) != {} else r.segmentInfo == s.segmentInfo)
    decreases if available > 0 then available else 0, |s.retxQueue|
  {
    if available <= 0 {
    } else if s.retxQueue != [] {
      var segNo := s.retxQueue[0];
      var s1 := s.(retxQueue := s.retxQueue[1..]);
      assert s.retxQueue == [segNo] + s1.retxQueue;
      if segNo !in s.segmentInfo {
        ScheduleWhilePending(c, s1, available);
      } else {
        ResendWhilePending(c, s, segNo);
        ScheduleWhilePending(c, Resend(c, s1, segNo), available - 1);
      }
    } else {
      ScheduleWhilePending(c, SendNext(c, s), available - 1);
    }
  }

  /** With a failure pending, using the window leaves the engine with nothing in flight if and only
      if nothing was, and the window holds less than one segment or none waits to be resent. */
  lemma SchedulingWedgesExactly(w: Setting, s: Engine)
    requires Inv(w, s) && Pending(w.c, s)
    ensures !Moving(SchedulePackets(w.c, s)) <==>
              && InFlight(s.segmentInfo) == {}
              && (s.window.Cwnd() < 1.0 || forall k :: k in s.retxQueue ==> k !in s.segmentInfo)
  {
    assert Distinct(s.retxQueue) && s.nInFlight <= |InFlight(s.segmentInfo)|;
    hide Inv, ScheduleLoop, InFlight, Distinct;
    ScheduleWhilePending(w.c, s, AvailableWindow(s));
  }

  /** With a failure pending, accepting Data leaves the engine with nothing in flight if and only if
      nothing else was, and the window then holds less than one segment or no other segment waits
      to be resent. */
  lemma AcceptingWedgesExactly(w: Setting, s: Engine, segNo: nat, g: C.Growth)
    requires Sound(w) && Inv(w, s) && Pending(w.c, s) && w.c.Fits(s.window)
    requires segNo in s.segmentInfo && !Dropped(w.c, s, segNo) && segNo <= w.content
    ensures !Moving(HandleData(w.c, s, segNo, None, g)) <==>
              && InFlight(s.segmentInfo) <= {segNo}
              && (IncreaseWindow(w.c.options, s.window, g).Cwnd() < 1.0
                  || forall k :: k in s.retxQueue && k != segNo ==> k !in s.segmentInfo)
  {
    var s1 := Book(w.c, RaiseHighData(s, segNo), segNo, g);
    QueuedExactly(w, s, segNo);
    BookWhilePending(w, s, segNo, g);
    hide Inv, HandleData, SchedulePackets, Book, RaiseHighData, IncreaseWindow;
    AcceptedWhilePending(w.c, s, segNo, g);
    BookedInfo(w, s, segNo, g);
    SchedulingWedgesExactly(w, s1);
  }

  lemma QueuedExactly(w: Setting, s: Engine, segNo: nat)
    requires Queued(s, {}) && segNo in s.segmentInfo
    ensures segNo in s.log.requests && (s.segmentInfo[segNo] == Retransmitted ==> segNo !in s.retxQueue)
  {
  }

  lemma BookWhilePending(w: Setting, s: Engine, segNo: nat, g: C.Growth)
    requires Sound(w) && Inv(w, s) && Pending(w.c, s) && w.c.Fits(s.window)
    requires segNo in s.segmentInfo && s.segmentInfo[segNo] != RetxReceived && segNo <= w.content
    ensures Inv(w, Book(w.c, RaiseHighData(s, segNo), segNo, g))
    ensures Book(w.c, RaiseHighData(s, segNo), segNo, g).window == IncreaseWindow(w.c.options, s.window, g)
  {
    QueuedExactly(w, s, segNo);
    hide Inv, IncreaseWindow;
    RaiseKeeps(w, s, segNo);
    BookKeeps(w, RaiseHighData(s, segNo), segNo, g);
  }

  lemma AcceptedWhilePending(c: Config, s: Engine, segNo: nat, g: C.Growth)
    requires Pending(c, s) && c.Fits(s.window)
    requires segNo in s.segmentInfo && s.segmentInfo[segNo] != RetxReceived
    ensures HandleData(c, s, segNo, None, g)
         == SchedulePackets(c, Book(c, RaiseHighData(s, segNo), segNo, g))
  {
    hide SchedulePackets, IncreaseWindow;
  }

  lemma BookedInfo(w: Setting, s: Engine, segNo: nat, g: C.Growth)
    requires Pending(w.c, s) && w.c.Fits(s.window)
    requires segNo in s.segmentInfo && s.segmentInfo[segNo] != RetxReceived
    requires s.segmentInfo[segNo] == Retransmitted ==> segNo !in s.retxQueue
    ensures var r := Book(w.c, RaiseHighData(s, segNo), segNo, g);
            && InFlight(r.segmentInfo) == InFlight(s.segmentInfo) - {segNo}
            && Pending(w.c, r)
            && forall k :: k in r.retxQueue && k in r.segmentInfo <==>
                 k in s.retxQueue && k in s.segmentInfo && k != segNo
  {
    hide IncreaseWindow;
  }

  // ------------------------------------------------------------------ where the promises stop

  /** Content of one segment, already discovered: nothing is ever requested and the pipeline
      never stops, since completion is only checked when Data arrives. */
  lemma {:induction false} OneSegmentNeverStops(w: Setting, s: Engine, events: seq<Event>)
    requires w.c.Fits(s.window) && w.content == 0
    requires s.outcome == Running && s.segmentInfo == map[] && s.log.requests == []
    requires AllowedRun(w, s, events)
    ensures Run(w.c, s, events) == s
    decreases |events|
  {
    if events != [] {
      assert Step(w.c, s, events[0]) == s by {
        match events[0]
        case RtoTick(expired) => NothingExpires(s, expired);
        case _ =>
      }
      OneSegmentNeverStops(w, s, events[1..]);
    }
  }

  lemma NothingExpires(s: Engine, expired: seq<nat>)
    requires s.segmentInfo == map[]
    ensures ExpireTimers(s, expired) == s && CountExpired(s, expired) == 0
    decreases |expired|
  {
    if expired != [] {
      NothingExpires(s, expired[1..]);
    }
  }

  lemma OneSegmentHangs(w: Setting, events: seq<Event>)
    requires Sound(w) && w.content == 0 && AllowedRun(w, Start(w.c, Some(0)), events)
    ensures var s := Run(w.c, Start(w.c, Some(0)), events);
            s.outcome == Running && s.log.requests == [] && s.nReceived - 1 >= s.lastSegmentNo
  {
    OneSegmentNeverStops(w, Start(w.c, Some(0)), events);
  }
}
